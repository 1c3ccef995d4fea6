/**
  GetTargetFriendlyName: the name a target device is reported under. The two
  property queries (WdfIoTargetAllocAndQueryTargetProperty) are foreign calls;
  the model receives their outcomes as inputs and decides, as the driver does,
  which of them is asked and which status is returned.
 */
module FriendlyName {
  import opened Wrappers
  import opened Status

  /** A WDFMEMORY handle holding a queried property string. */
  type Memory = nat

  datatype PropertyKind = DevicePropertyFriendlyName | DevicePropertyDeviceDescription

  /** What one property query returns: its status and, when that status is a
      success, the buffer it allocated. */
  datatype PropertyQuery = PropertyQuery(status: NtStatus, memory: Memory)

  /** The outcome of GetTargetFriendlyName: the returned status, the buffer
      written through TargetName (absent on failure) and the queries made, in order. */
  datatype Resolution = Resolution(status: NtStatus, name: Option<Memory>, asked: seq<PropertyKind>)

  /** Selects the query outcome of one property. */
  function Answer(kind: PropertyKind, friendly: PropertyQuery, description: PropertyQuery): (q: PropertyQuery)
  {
    match kind
    case DevicePropertyFriendlyName => friendly
    case DevicePropertyDeviceDescription => description
  }

  /** The fallback rule: a friendly-name failure other than resource exhaustion
      sends the driver on to the device description. */
  predicate FallsBack(friendlyStatus: NtStatus)
  {
    !NtSuccess(friendlyStatus) && friendlyStatus != StatusInsufficientResources
  }

  function GetTargetFriendlyName(friendly: PropertyQuery, description: PropertyQuery): (r: Resolution)
    // the friendly name is always asked first, and at most one more query follows
    ensures 1 <= |r.asked| <= 2 && r.asked[0] == DevicePropertyFriendlyName
    // the description is asked exactly when the friendly name failed other than by exhaustion
    ensures DevicePropertyDeviceDescription in r.asked <==> FallsBack(friendly.status)
    ensures |r.asked| == 2 ==> r.asked[1] == DevicePropertyDeviceDescription
    // the returned status is that of the last query made
    ensures r.status == Answer(r.asked[|r.asked| - 1], friendly, description).status
    // a name is produced exactly on success, and it is the buffer of the query that succeeded
    ensures r.name.Some? <==> NtSuccess(r.status)
    ensures r.name.Some? ==> r.name.value == Answer(r.asked[|r.asked| - 1], friendly, description).memory
    // a friendly name, when there is one, is preferred
    ensures NtSuccess(friendly.status) ==> r.name == Some(friendly.memory)
    // exhaustion is propagated as it is
    ensures friendly.status == StatusInsufficientResources ==> r.status == StatusInsufficientResources && r.name == None
  {
    var status := friendly.status;
    if FallsBack(status) then
      var descStatus := description.status;
      Resolution(descStatus, if NtSuccess(descStatus) then Some(description.memory) else None,
                 [DevicePropertyFriendlyName, DevicePropertyDeviceDescription])
    else
      Resolution(status, if NtSuccess(status) then Some(friendly.memory) else None,
                 [DevicePropertyFriendlyName])
  }

  /** A friendly name that is not there (STATUS_OBJECT_NAME_NOT_FOUND) is
      replaced by the device description when that query succeeds. */
  lemma NotFoundFallsBackToDescription(friendly: PropertyQuery, description: PropertyQuery)
    requires friendly.status == StatusObjectNameNotFound && NtSuccess(description.status)
    ensures GetTargetFriendlyName(friendly, description)
            == Resolution(description.status, Some(description.memory),
                          [DevicePropertyFriendlyName, DevicePropertyDeviceDescription])
  {
  }

  /** A friendly-name query that ran out of resources is never followed by a
      description query; its status is the result. */
  lemma ExhaustionIsNotRetried(friendly: PropertyQuery, description: PropertyQuery)
    requires friendly.status == StatusInsufficientResources
    ensures GetTargetFriendlyName(friendly, description)
            == Resolution(StatusInsufficientResources, None, [DevicePropertyFriendlyName])
  {
  }
}
