# toastmon WMI notification core, modelled in Dafny

This project models `wmi.c` of the KMDF toastmon sample driver. The driver
subscribes to the toaster function driver's device-arrival WMI event. When
an event fires, the driver works out which of its monitored I/O targets
raised it and prints that target's friendly name. The model has three
parts, one per piece of sequential logic in the file:

- **Subscription lifecycle** (`wmi.dfy`, class `Wmi.DeviceExtension`). The
  device context owns one nullable field, `WMIDeviceArrivalNotificationObject`.
  `RegisterForWMINotification` and `UnregisterForWMINotification` update it
  in place. Ghost fields record every data block opened (`Opened`) and
  dereferenced (`Released`), plus the installed notification callback. The
  invariant `Valid` says that blocks are opened one at a time, and that every
  opened block except the one still held has been released, exactly once and
  in order.
- **Name resolution** (`friendly_name.dfy`, `FriendlyName.GetTargetFriendlyName`).
  A pure function over the outcomes of the two property queries. It asks
  for the friendly name first. It falls back to the device description
  unless the first query failed with `STATUS_INSUFFICIENT_RESOURCES`. It
  returns the status of the last query made.
- **Notification dispatch** (`dispatch.dfy`, `wmi.dfy`). The reference
  function `Dispatch.ScanFrom` states the matching pass over a snapshot of the
  target collection. The method `Wmi.DeviceExtension.WmiNotificationCallback`
  is the driver's `for` loop, with its `continue` and its two `break`s,
  proved equal to that function. The lemmas in `Dispatch` state what the pass
  guarantees: first match wins; one line per target that is not started,
  and one per started target from the event's provider when the GUID is not
  the arrival GUID; the name buffer freed exactly once; and later targets
  never looked at.

NTSTATUS is a signed 32-bit newtype (`Status.NtStatus`). `NT_SUCCESS` is
`s >= 0`. The named codes are built from their 32-bit patterns.

The foreign calls are inputs to the model:
- `IoWMIOpenBlock` and `IoWMISetNotificationCallback` become the parameters
  of `RegisterForWMINotification`: the open status, the returned block and
  the set-callback status.
- `WdfIoTargetAllocAndQueryTargetProperty` becomes one `PropertyQuery`
  outcome per property.
- `WdfIoTargetGetState`, `WdfIoTargetWdmGetTargetDeviceObject` and
  `IoWMIDeviceObjectToProviderId` become the fields of a `Dispatch.Target`.
  A NULL device object is `provider == None`.
- The device-arrival GUID `TOASTER_NOTIFY_DEVICE_ARRIVAL_EVENT` is defined
  in `public.h`, and public.h is not part of this model. The subscription
  and the callback therefore take it as the parameter `arrival`, and every
  property holds for any value of it. The installed callback records the
  GUID its block was opened for.

Two facts about the source shape the model:
- Target states are the seven values of `WDF_IO_TARGET_STATE`, including
  `WdfIoTargetPurged`; the pass only tests for `WdfIoTargetStarted`.
- The "Unknown event" branch cannot lead to a later match, because the GUID
  compared at wmi.c:208 belongs to the event, not to the target: once one
  provider-matching target sees a GUID that is not the arrival GUID, no later
  target can match either. `Dispatch.OtherEventsNeverResolve` states this, and
  `Dispatch.UnknownEventPerProviderMatch` shows that such an event gets one
  "Unknown event" line for every provider-matching started target.

## Model

| member | source | states |
|---|---|---|
| `Wmi.DeviceExtension.RegisterForWMINotification` | general/toaster/toastDrv/kmdf/toastmon/wmi.c:38-83 | Requires an empty slot. A failed open returns the open status. Otherwise the set-callback status is returned. The failing step, and only a failing step, prints one line with its status. On success the slot holds the block opened for the arrival GUID, and the callback is installed on it for that GUID with this context. On any failure the slot is NULL, no callback is installed and no block stays open. A block opened and then abandoned is released exactly once. The target collection is unchanged. |
| `Wmi.DeviceExtension.UnregisterForWMINotification` | general/toaster/toastDrv/kmdf/toastmon/wmi.c:86-97 | Releases the held block exactly once when there is one, and nothing when the slot is empty. It always leaves the slot NULL, with no callback and nothing open. Calling it twice, or without a successful register, releases nothing extra. |
| `Wmi.DeviceExtension.WmiNotificationCallback` | general/toaster/toastDrv/kmdf/toastmon/wmi.c:149-238 | The loop's outcome (log, matched target, deleted buffers) equals the reference pass `Dispatch.Scan` over the collection. The lock is acquired once and released once on every path, including both `break`s. The method modifies nothing, so the collection is only read. |
| `FriendlyName.GetTargetFriendlyName` | general/toaster/toastDrv/kmdf/toastmon/wmi.c:99-147 | The friendly name is asked first. The description is asked exactly when the friendly-name query failed with a status other than STATUS_INSUFFICIENT_RESOURCES. The returned status is that of the last query made. A name is produced exactly on success, and it is the buffer of the successful query. An existing friendly name is preferred. Exhaustion is returned as it is. |
| `FriendlyName.NotFoundFallsBackToDescription` | general/toaster/toastDrv/kmdf/toastmon/wmi.c:127-140 | If the friendly name is not found and the description query succeeds, the result is the description, after two queries. |
| `FriendlyName.ExhaustionIsNotRetried` | general/toaster/toastDrv/kmdf/toastmon/wmi.c:127-133 | If the friendly-name query runs out of resources, only one query is made and STATUS_INSUFFICIENT_RESOURCES is returned with no name. |
| `Dispatch.Resolve` | general/toaster/toastDrv/kmdf/toastmon/wmi.c:214-228 | The name lookup at a matching target ends the pass at that target and prints no skip line. |
| `Dispatch.ScanFrom` | general/toaster/toastDrv/kmdf/toastmon/wmi.c:188-235 | A pass that stops, stops at a target that is started, has a device object from the event's provider and saw the arrival GUID. At most one buffer is deleted. |
| `Dispatch.FirstMatchWins` | general/toaster/toastDrv/kmdf/toastmon/wmi.c:188-228 | The pass stops at k if and only if k is the first target in collection order that is started, has a non-NULL device object whose provider id equals the event's, and the event GUID is the arrival GUID. It stops nowhere if and only if no target qualifies. |
| `Dispatch.ScanFromShape` | general/toaster/toastDrv/kmdf/toastmon/wmi.c:188-235 | Every pass prints the lines of the targets it goes past, then the lines of the one name lookup if it stopped at a target. A pass that does not stop deletes nothing. |
| `Dispatch.UnknownEventPerProviderMatch` | general/toaster/toastDrv/kmdf/toastmon/wmi.c:205-232 | "Unknown event" is printed exactly once for each started, provider-matching target when the GUID is not the arrival GUID, and for no other target. The pass continues past each such target. |
| `Dispatch.NotOpenedPerSkippedTarget` | general/toaster/toastDrv/kmdf/toastmon/wmi.c:197-201 | Each target the pass reaches that is not started gets exactly one "not in an opened state" line. A target beyond the match gets none. |
| `Dispatch.NameBufferFreedOnce` | general/toaster/toastDrv/kmdf/toastmon/wmi.c:214-228 | At the first match, a successful lookup prints the arrival line and deletes its buffer exactly once. A failed lookup deletes nothing and ends the log with the two failure lines. Before either, only skip lines are printed. |
| `Dispatch.NoMatchFreesNothing` | general/toaster/toastDrv/kmdf/toastmon/wmi.c:188-237 | With no matching target the pass runs to the end, looks nothing up, frees nothing and prints only skip lines. |
| `Dispatch.OtherEventsNeverResolve` | general/toaster/toastDrv/kmdf/toastmon/wmi.c:205-232 | An event whose GUID is not the arrival GUID never stops the pass early and frees nothing. Every target is reached: each target that is not started gets its "not in an opened state" line, and each started target from the event's provider its "Unknown event" line. |
| `Dispatch.LaterTargetsNotExamined` | general/toaster/toastDrv/kmdf/toastmon/wmi.c:214-228 | After a match at k, replacing every target after k by anything leaves the outcome unchanged. This holds whether the lookup succeeded or failed. |
| `Dispatch.NotStartedSkippedOnStateAlone` | general/toaster/toastDrv/kmdf/toastmon/wmi.c:192-203 | The device object, provider id and properties of a target that is not started never affect the pass. Only its state is read. |
| `Dispatch.FirstStartedMatchScenario` | general/toaster/toastDrv/kmdf/toastmon/wmi.c:188-228 | Given a stopped target followed by two started targets from the event's provider, an arrival event is attributed to the second target. The third target is irrelevant. |
| `Dispatch.ScanFromStep` | general/toaster/toastDrv/kmdf/toastmon/wmi.c:197-232 | One iteration of the pass: it either stops at target i with the name lookup, or prints that target's skip lines and continues at i + 1. |

## Left out

- The WMI and WDF kernel calls are outside the model. The model takes their outcomes as inputs: `IoWMIOpenBlock`, `IoWMISetNotificationCallback`, `ObDereferenceObject`, `WdfIoTargetAllocAndQueryTargetProperty`, `WdfIoTargetGetState`, `WdfIoTargetWdmGetTargetDeviceObject`, `IoWMIDeviceObjectToProviderId`, `WdfObjectDelete`.
- The WDF wait lock is not modelled as a lock. The callback counts acquire and release as ghost outputs. The collection is a snapshot that other code does not change during the pass. Concurrent writers and blocking are concurrency and are not modelled.
- The `WNODE_SINGLE_INSTANCE` layout, GUID bytes and `IsEqualGUID` are not modelled. The model keeps only the header's provider id and a 128-bit GUID compared for equality.
- `KdPrint` text, `RtlInitUnicodeString` and the buffer contents are not modelled. For the lines printed by `RegisterForWMINotification` and `WmiNotificationCallback`, only the kind of each line, and the target index, status or buffer it refers to, are recorded.
- `PAGED_CODE`, the `alloc_text` pragmas, pool types and object attributes are build and IRQL directives with no behaviour to state.
- The `ASSERT` at line 51 is the precondition of `RegisterForWMINotification`. A release build that ignores it is not modelled.
- `Wmi.DeviceExtension.UnregisterForWMINotification`: that the installed callback stops when its block is dereferenced is an effect of WMI and is assumed in the ghost state, not derived.
- The device context is created by code outside wmi.c. The constructor models only its zero-filled slot.
