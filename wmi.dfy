/**
  The toastmon device context and the three operations of wmi.c that act on
  it: subscribing to the toaster's device-arrival WMI event, dropping that
  subscription, and the notification callback that attributes an event to one
  of the monitored targets.
 */
module Wmi {
  import opened Wrappers
  import opened Status
  import opened FriendlyName
  import opened Dispatch

  /** A WMI data-block object returned by IoWMIOpenBlock (never NULL). */
  type Handle = nat

  /** A notification callback installed by IoWMISetNotificationCallback on a
      data block opened for the event GUID guid, with the context it will be
      called with. */
  datatype Installation = Installation(block: Handle, guid: Guid, context: DeviceExtension)

  /** The lines RegisterForWMINotification prints when a step fails. */
  datatype RegisterLine =
    | OpenBlockFailed(status: NtStatus)
    | SetCallbackFailed(status: NtStatus)

  class DeviceExtension {
    /** The open data block, NULL (None) when there is no subscription. */
    var WMIDeviceArrivalNotificationObject: Option<Handle>
    /** Snapshot of the WDFCOLLECTION of monitored I/O targets. */
    var TargetDeviceCollection: seq<Target>

    /** Every data block opened for this context, in order. */
    ghost var Opened: seq<Handle>
    /** Every data block dereferenced (ObDereferenceObject) by this context, in order. */
    ghost var Released: seq<Handle>
    /** The callback currently installed for this context, if any. */
    ghost var Callback: Option<Installation>

    /** Blocks are opened one at a time: every block opened for this context
        has been released, exactly once and in the order of opening, except the
        one the slot still holds. A callback is only ever installed on the held
        block, with this context. */
    ghost predicate Valid()
      reads this
    {
      (WMIDeviceArrivalNotificationObject == None ==> Opened == Released) &&
      (WMIDeviceArrivalNotificationObject.Some? ==>
         Opened == Released + [WMIDeviceArrivalNotificationObject.value]) &&
      (Callback.Some? ==>
         WMIDeviceArrivalNotificationObject == Some(Callback.value.block) && Callback.value.context == this)
    }

    /** No data block opened by this context is still referenced. */
    ghost predicate NothingOpen()
      reads this
    {
      Opened == Released
    }

    /** The device context as WDF hands it out: zero-filled, so the slot is NULL. */
    constructor (targets: seq<Target>)
      ensures Valid() && NothingOpen()
      ensures WMIDeviceArrivalNotificationObject == None && Callback == None
      ensures TargetDeviceCollection == targets
      ensures Opened == [] && Released == []
    {
      WMIDeviceArrivalNotificationObject := None;
      TargetDeviceCollection := targets;
      Opened, Released, Callback := [], [], None;
    }

    /** RegisterForWMINotification. arrival is the device-arrival GUID whose
        data block is opened; openStatus and block are what IoWMIOpenBlock
        returns; setCallbackStatus is what IoWMISetNotificationCallback returns. */
    method RegisterForWMINotification(arrival: Guid, openStatus: NtStatus, block: Handle, setCallbackStatus: NtStatus)
      returns (status: NtStatus, log: seq<RegisterLine>)
      requires Valid()
      requires WMIDeviceArrivalNotificationObject == None
      modifies this
      ensures Valid()
      // the status of the step that failed, or of the last step
      ensures !NtSuccess(openStatus) ==> status == openStatus
      ensures NtSuccess(openStatus) ==> status == setCallbackStatus
      // the failing step, and only a failing step, prints its status
      ensures log == if !NtSuccess(openStatus) then [OpenBlockFailed(openStatus)]
                     else if !NtSuccess(setCallbackStatus) then [SetCallbackFailed(setCallbackStatus)]
                     else []
      // on success the slot holds the opened block and the callback runs with this context
      ensures NtSuccess(status) ==>
                WMIDeviceArrivalNotificationObject == Some(block) && Callback == Some(Installation(block, arrival, this))
      // on any failure the slot is NULL and nothing is left open
      ensures !NtSuccess(status) ==>
                WMIDeviceArrivalNotificationObject == None && Callback == None && NothingOpen()
      // a block opened and then abandoned is dereferenced exactly once
      ensures Opened == old(Opened) + (if NtSuccess(openStatus) then [block] else [])
      ensures Released == old(Released) + (if NtSuccess(openStatus) && !NtSuccess(status) then [block] else [])
      ensures TargetDeviceCollection == old(TargetDeviceCollection)
    {
      log := [];
      status := openStatus;
      if !NtSuccess(status) {
        log := log + [OpenBlockFailed(status)];
        WMIDeviceArrivalNotificationObject := None;
      } else {
        WMIDeviceArrivalNotificationObject := Some(block);
        Opened := Opened + [block];
        status := setCallbackStatus;
        if !NtSuccess(status) {
          log := log + [SetCallbackFailed(status)];
          Released := Released + [WMIDeviceArrivalNotificationObject.value];
          WMIDeviceArrivalNotificationObject := None;
        } else {
          Callback := Some(Installation(block, arrival, this));
        }
      }
    }

    /** UnregisterForWMINotification. Dereferencing the data block also ends its
        notifications, so the installed callback goes with it. */
    method UnregisterForWMINotification()
      requires Valid()
      modifies this
      ensures Valid() && NothingOpen()
      ensures WMIDeviceArrivalNotificationObject == None && Callback == None
      // the held block, if any, is dereferenced once; an empty slot releases nothing
      ensures Released == old(Released) + (if old(WMIDeviceArrivalNotificationObject).Some?
                                           then [old(WMIDeviceArrivalNotificationObject).value] else [])
      ensures Opened == old(Opened)
      ensures TargetDeviceCollection == old(TargetDeviceCollection)
    {
      if WMIDeviceArrivalNotificationObject.Some? {
        Released := Released + [WMIDeviceArrivalNotificationObject.value];
        WMIDeviceArrivalNotificationObject := None;
      }
      Callback := None;
    }

    /** WmiNotificationCallback, called by WMI with this context. wnode is the
        header of the event; arrival is the toaster device-arrival GUID. The
        collection lock is counted by the ghost outputs; the collection is only
        read (the method modifies nothing). */
    method WmiNotificationCallback(wnode: WnodeHeader, arrival: Guid)
      returns (outcome: Outcome, ghost acquires: nat, ghost releases: nat)
      ensures outcome == Scan(TargetDeviceCollection, wnode, arrival)
      ensures acquires == 1 && releases == 1
    {
      acquires, releases := 0, 0;
      acquires := acquires + 1;  // WdfWaitLockAcquire
      var log: seq<LogLine> := [];
      outcome := Outcome([], None, []);
      var i := 0;
      while i < |TargetDeviceCollection|
        invariant i <= |TargetDeviceCollection|
        invariant Scan(TargetDeviceCollection, wnode, arrival)
                  == Prefixed(log, ScanFrom(TargetDeviceCollection, wnode, arrival, i))
        invariant acquires == 1 && releases == 0
      {
        var ioTarget := TargetDeviceCollection[i];
        ScanFromStep(TargetDeviceCollection, wnode, arrival, i);
        if ioTarget.state != WdfIoTargetStarted {
          PrefixedTwice(log, [TargetNotOpened(i)], ScanFrom(TargetDeviceCollection, wnode, arrival, i + 1));
          log := log + [TargetNotOpened(i)];
          i := i + 1;
          continue;
        }
        var devobj := ioTarget.provider;
        if devobj.Some? && devobj.value == wnode.providerId {
          if wnode.guid == arrival {
            var r := GetTargetFriendlyName(ioTarget.friendlyName, ioTarget.deviceDescription);
            if !NtSuccess(r.status) {
              log := log + [QueryPropertyFailed(r.status), FriendlyNameFailed(i, r.status)];
              outcome := Outcome(log, Some(i), []);
              break;
            }
            var memory := r.name.value;
            log := log + [DeviceArrival(i, memory)];
            outcome := Outcome(log, Some(i), [memory]);  // WdfObjectDelete(memory)
            break;
          } else {
            PrefixedTwice(log, [UnknownEvent(i)], ScanFrom(TargetDeviceCollection, wnode, arrival, i + 1));
            log := log + [UnknownEvent(i)];
          }
        } else {
          assert PassLines(ioTarget, i, wnode) == [];
        }
        i := i + 1;
      }
      if i == |TargetDeviceCollection| {
        outcome := Outcome(log, None, []);
      }
      releases := releases + 1;  // WdfWaitLockRelease
    }
  }
}
