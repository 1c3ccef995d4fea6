/**
  The matching pass of WmiNotificationCallback, as a reference function over a
  snapshot of the target collection, and what it guarantees: which target an
  event is attributed to, what is logged for the others, and which buffers are
  freed.
 */
module Dispatch {
  import opened Wrappers
  import opened Status
  import opened FriendlyName

  /** ULONG provider id of a WMI data provider. */
  newtype ProviderId = x: int | 0 <= x < 0x1_0000_0000

  /** A 128-bit GUID, only ever compared for equality. */
  newtype Guid = x: int | 0 <= x < 0x1_0000_0000_0000_0000_0000_0000_0000_0000

  /** WDF_IO_TARGET_STATE. */
  datatype IoTargetState =
    | WdfIoTargetStateUndefined
    | WdfIoTargetStarted
    | WdfIoTargetStopped
    | WdfIoTargetClosedForQueryRemove
    | WdfIoTargetClosed
    | WdfIoTargetDeleted
    | WdfIoTargetPurged

  /** One WDFIOTARGET of the collection, as the callback can observe it: its
      state; the provider id of its WDM device object, None when that object is
      NULL; and the outcomes its two property queries would have. */
  datatype Target = Target(
    state: IoTargetState,
    provider: Option<ProviderId>,
    friendlyName: PropertyQuery,
    deviceDescription: PropertyQuery)

  /** The header of the WNODE_SINGLE_INSTANCE handed to the callback. */
  datatype WnodeHeader = WnodeHeader(providerId: ProviderId, guid: Guid)

  /** The lines the callback (and GetTargetFriendlyName on its behalf) prints. */
  datatype LogLine =
    | TargetNotOpened(index: nat)
    | UnknownEvent(index: nat)
    | QueryPropertyFailed(status: NtStatus)
    | FriendlyNameFailed(index: nat, status: NtStatus)
    | DeviceArrival(index: nat, name: Memory)

  /** What one pass produces: the log, the index of the target whose name was
      looked up (None when the pass ran to the end) and the buffers deleted. */
  datatype Outcome = Outcome(log: seq<LogLine>, matched: Option<nat>, deleted: seq<Memory>)

  predicate Started(t: Target)
  {
    t.state == WdfIoTargetStarted
  }

  /** A started target with a device object whose provider raised the event. */
  predicate FromProvider(t: Target, wnode: WnodeHeader)
  {
    Started(t) && t.provider == Some(wnode.providerId)
  }

  /** The target the event is an arrival of. */
  predicate IsArrivalOf(t: Target, wnode: WnodeHeader, arrival: Guid)
  {
    FromProvider(t, wnode) && wnode.guid == arrival
  }

  /** Target k is the first arrival match in collection order. */
  ghost predicate FirstArrival(ts: seq<Target>, wnode: WnodeHeader, arrival: Guid, k: nat)
  {
    k < |ts| && IsArrivalOf(ts[k], wnode, arrival) &&
    forall j :: 0 <= j < k ==> !IsArrivalOf(ts[j], wnode, arrival)
  }

  /** Target j is reached by the pass: no earlier target stopped it. */
  ghost predicate Examined(ts: seq<Target>, wnode: WnodeHeader, arrival: Guid, j: nat)
  {
    j < |ts| && forall i :: 0 <= i < j ==> !IsArrivalOf(ts[i], wnode, arrival)
  }

  function Prefixed(log: seq<LogLine>, o: Outcome): (r: Outcome)
  {
    o.(log := log + o.log)
  }

  lemma PrefixedTwice(a: seq<LogLine>, b: seq<LogLine>, o: Outcome)
    ensures Prefixed(a, Prefixed(b, o)) == Prefixed(a + b, o)
  {
  }

  /** A line printed while skipping over a target. */
  predicate SkipLine(l: LogLine)
  {
    l.TargetNotOpened? || l.UnknownEvent?
  }

  /** What happens at the matching target k: its name is looked up; on failure
      both failure lines are printed, on success the name is printed and its
      buffer deleted. Either way the pass ends there. */
  function Resolve(t: Target, k: nat): (o: Outcome)
    ensures o.matched == Some(k)
    ensures forall l :: l in o.log ==> !SkipLine(l)
  {
    var r := GetTargetFriendlyName(t.friendlyName, t.deviceDescription);
    if !NtSuccess(r.status) then
      Outcome([QueryPropertyFailed(r.status), FriendlyNameFailed(k, r.status)], Some(k), [])
    else
      Outcome([DeviceArrival(k, r.name.value)], Some(k), [r.name.value])
  }

  /** The pass from index i to the end of the snapshot ts. */
  function ScanFrom(ts: seq<Target>, wnode: WnodeHeader, arrival: Guid, i: nat): (o: Outcome)
    requires i <= |ts|
    ensures o.matched.Some? ==> i <= o.matched.value < |ts| && IsArrivalOf(ts[o.matched.value], wnode, arrival)
    ensures |o.deleted| <= 1
    decreases |ts| - i
  {
    if i == |ts| then
      Outcome([], None, [])
    else if !Started(ts[i]) then
      Prefixed([TargetNotOpened(i)], ScanFrom(ts, wnode, arrival, i + 1))
    else if ts[i].provider.Some? && ts[i].provider.value == wnode.providerId then
      if wnode.guid == arrival then
        Resolve(ts[i], i)
      else
        Prefixed([UnknownEvent(i)], ScanFrom(ts, wnode, arrival, i + 1))
    else
      ScanFrom(ts, wnode, arrival, i + 1)
  }

  function Scan(ts: seq<Target>, wnode: WnodeHeader, arrival: Guid): (o: Outcome)
  {
    ScanFrom(ts, wnode, arrival, 0)
  }

  lemma {:induction false} ScanFromMatch(ts: seq<Target>, wnode: WnodeHeader, arrival: Guid, i: nat)
    requires i <= |ts|
    ensures ScanFrom(ts, wnode, arrival, i).matched.Some? ==>
              forall j :: i <= j < ScanFrom(ts, wnode, arrival, i).matched.value ==> !IsArrivalOf(ts[j], wnode, arrival)
    ensures ScanFrom(ts, wnode, arrival, i).matched.None? ==>
              forall j :: i <= j < |ts| ==> !IsArrivalOf(ts[j], wnode, arrival)
    decreases |ts| - i
  {
    if i < |ts| && !IsArrivalOf(ts[i], wnode, arrival) {
      ScanFromMatch(ts, wnode, arrival, i + 1);
    }
  }

  /** First match wins: the pass stops at target k exactly when k is the first
      started target with a device object from the event's provider, and the
      event is an arrival; it stops nowhere exactly when there is no such target. */
  lemma FirstMatchWins(ts: seq<Target>, wnode: WnodeHeader, arrival: Guid)
    ensures forall k: nat :: Scan(ts, wnode, arrival).matched == Some(k) <==> FirstArrival(ts, wnode, arrival, k)
    ensures Scan(ts, wnode, arrival).matched == None <==>
              forall j :: 0 <= j < |ts| ==> !IsArrivalOf(ts[j], wnode, arrival)
  {
    ScanFromMatch(ts, wnode, arrival, 0);
  }

  /** The lines printed for target i when the pass goes past it. */
  function PassLines(t: Target, i: nat, wnode: WnodeHeader): (lines: seq<LogLine>)
  {
    if !Started(t) then [TargetNotOpened(i)]
    else if FromProvider(t, wnode) then [UnknownEvent(i)]
    else []
  }

  /** One step of the pass: it either stops at target i or prints that
      target's lines and goes on. */
  lemma ScanFromStep(ts: seq<Target>, wnode: WnodeHeader, arrival: Guid, i: nat)
    requires i < |ts|
    ensures IsArrivalOf(ts[i], wnode, arrival) ==> ScanFrom(ts, wnode, arrival, i) == Resolve(ts[i], i)
    ensures !IsArrivalOf(ts[i], wnode, arrival) ==>
              ScanFrom(ts, wnode, arrival, i) == Prefixed(PassLines(ts[i], i, wnode), ScanFrom(ts, wnode, arrival, i + 1))
  {
  }

  /** The lines the pass prints from target i on, for the targets it goes
      past before it stops or runs out of targets. */
  function SkipLog(ts: seq<Target>, wnode: WnodeHeader, arrival: Guid, i: nat): (lines: seq<LogLine>)
    requires i <= |ts|
    decreases |ts| - i
  {
    if i == |ts| || IsArrivalOf(ts[i], wnode, arrival) then []
    else PassLines(ts[i], i, wnode) + SkipLog(ts, wnode, arrival, i + 1)
  }

  /** Every pass prints the lines of the targets it goes past and then, if it
      stopped at a target, the lines of that target's name lookup. */
  lemma {:induction false} ScanFromShape(ts: seq<Target>, wnode: WnodeHeader, arrival: Guid, i: nat)
    requires i <= |ts|
    ensures var o := ScanFrom(ts, wnode, arrival, i);
            match o.matched
            case None => o == Outcome(SkipLog(ts, wnode, arrival, i), None, [])
            case Some(k) => o == Prefixed(SkipLog(ts, wnode, arrival, i), Resolve(ts[k], k))
    decreases |ts| - i
  {
    if i < |ts| && !IsArrivalOf(ts[i], wnode, arrival) {
      ScanFromShape(ts, wnode, arrival, i + 1);
      ScanFromStep(ts, wnode, arrival, i);
      var o' := ScanFrom(ts, wnode, arrival, i + 1);
      if o'.matched.Some? {
        var x, y, z := PassLines(ts[i], i, wnode), SkipLog(ts, wnode, arrival, i + 1),
                       Resolve(ts[o'.matched.value], o'.matched.value).log;
        assert x + (y + z) == (x + y) + z;
      }
    }
  }

  lemma {:induction false} SkipLogOnlySkipLines(ts: seq<Target>, wnode: WnodeHeader, arrival: Guid, i: nat)
    requires i <= |ts|
    ensures forall l :: l in SkipLog(ts, wnode, arrival, i) ==> SkipLine(l)
    decreases |ts| - i
  {
    if i < |ts| && !IsArrivalOf(ts[i], wnode, arrival) {
      SkipLogOnlySkipLines(ts, wnode, arrival, i + 1);
    }
  }

  lemma {:induction false} SkipLogUnknownEvents(ts: seq<Target>, wnode: WnodeHeader, arrival: Guid, i: nat, j: nat)
    requires i <= |ts|
    ensures multiset(SkipLog(ts, wnode, arrival, i))[UnknownEvent(j)]
            == if i <= j < |ts| && FromProvider(ts[j], wnode) && wnode.guid != arrival then 1 else 0
    decreases |ts| - i
  {
    if i < |ts| && !IsArrivalOf(ts[i], wnode, arrival) {
      SkipLogUnknownEvents(ts, wnode, arrival, i + 1, j);
      var x, y := PassLines(ts[i], i, wnode), SkipLog(ts, wnode, arrival, i + 1);
      assert multiset(SkipLog(ts, wnode, arrival, i)) == multiset(x) + multiset(y);
      if !Started(ts[i]) {
        assert multiset(x)[UnknownEvent(j)] == 0;
      } else if FromProvider(ts[i], wnode) {
        assert wnode.guid != arrival;
        assert multiset(x)[UnknownEvent(j)] == if j == i then 1 else 0;
      } else {
        assert x == [];
      }
    }
  }

  lemma {:induction false} SkipLogNotOpened(ts: seq<Target>, wnode: WnodeHeader, arrival: Guid, i: nat, j: nat)
    requires i <= |ts|
    ensures multiset(SkipLog(ts, wnode, arrival, i))[TargetNotOpened(j)]
            == if i <= j < |ts| && (forall l :: i <= l < j ==> !IsArrivalOf(ts[l], wnode, arrival)) && !Started(ts[j])
               then 1 else 0
    decreases |ts| - i
  {
    if i < |ts| && !IsArrivalOf(ts[i], wnode, arrival) {
      SkipLogNotOpened(ts, wnode, arrival, i + 1, j);
      var x, y := PassLines(ts[i], i, wnode), SkipLog(ts, wnode, arrival, i + 1);
      assert multiset(SkipLog(ts, wnode, arrival, i)) == multiset(x) + multiset(y);
      assert multiset(x)[TargetNotOpened(j)] == if j == i && !Started(ts[i]) then 1 else 0;
      if i < j < |ts| {
        var passed := forall l :: i <= l < j ==> !IsArrivalOf(ts[l], wnode, arrival);
        var passed' := forall l :: i + 1 <= l < j ==> !IsArrivalOf(ts[l], wnode, arrival);
        assert passed <==> passed';
      }
    }
  }

  /** A target from the event's provider that was not told an arrival gets
      exactly one "Unknown event" line, and the pass goes on: every such target
      in the collection gets its line. No other target gets one. */
  lemma UnknownEventPerProviderMatch(ts: seq<Target>, wnode: WnodeHeader, arrival: Guid, j: nat)
    ensures multiset(Scan(ts, wnode, arrival).log)[UnknownEvent(j)]
            == if j < |ts| && FromProvider(ts[j], wnode) && wnode.guid != arrival then 1 else 0
  {
    ScanFromShape(ts, wnode, arrival, 0);
    SkipLogUnknownEvents(ts, wnode, arrival, 0, j);
    var o := Scan(ts, wnode, arrival);
    if o.matched.Some? {
      assert UnknownEvent(j) !in Resolve(ts[o.matched.value], o.matched.value).log;
    }
  }

  /** Every target the pass reaches that is not started gets exactly one
      "not in an opened state" line; targets after the match get none. */
  lemma NotOpenedPerSkippedTarget(ts: seq<Target>, wnode: WnodeHeader, arrival: Guid, j: nat)
    ensures multiset(Scan(ts, wnode, arrival).log)[TargetNotOpened(j)]
            == if Examined(ts, wnode, arrival, j) && !Started(ts[j]) then 1 else 0
  {
    ScanFromShape(ts, wnode, arrival, 0);
    SkipLogNotOpened(ts, wnode, arrival, 0, j);
    var o := Scan(ts, wnode, arrival);
    if o.matched.Some? {
      assert TargetNotOpened(j) !in Resolve(ts[o.matched.value], o.matched.value).log;
    }
  }

  /** The name buffer and the arrival line. Only the matched target's name is
      looked up, after the lines of the targets passed over: on success the
      name is printed and its buffer deleted exactly once, on failure no buffer
      exists and the two failure lines close the log. */
  lemma NameBufferFreedOnce(ts: seq<Target>, wnode: WnodeHeader, arrival: Guid, k: nat)
    requires FirstArrival(ts, wnode, arrival, k)
    ensures var o := Scan(ts, wnode, arrival);
            var r := GetTargetFriendlyName(ts[k].friendlyName, ts[k].deviceDescription);
            o.deleted == (if NtSuccess(r.status) then [r.name.value] else []) &&
            o.log == SkipLog(ts, wnode, arrival, 0) +
                     if NtSuccess(r.status) then [DeviceArrival(k, r.name.value)]
                     else [QueryPropertyFailed(r.status), FriendlyNameFailed(k, r.status)]
    ensures forall l :: l in SkipLog(ts, wnode, arrival, 0) ==> SkipLine(l)
  {
    FirstMatchWins(ts, wnode, arrival);
    ScanFromShape(ts, wnode, arrival, 0);
    SkipLogOnlySkipLines(ts, wnode, arrival, 0);
  }

  /** Without a matching target nothing is looked up or freed, and only lines
      for skipped targets are printed. */
  lemma NoMatchFreesNothing(ts: seq<Target>, wnode: WnodeHeader, arrival: Guid)
    requires forall j :: 0 <= j < |ts| ==> !IsArrivalOf(ts[j], wnode, arrival)
    ensures Scan(ts, wnode, arrival) == Outcome(SkipLog(ts, wnode, arrival, 0), None, [])
    ensures forall l :: l in Scan(ts, wnode, arrival).log ==> SkipLine(l)
  {
    FirstMatchWins(ts, wnode, arrival);
    ScanFromShape(ts, wnode, arrival, 0);
    SkipLogOnlySkipLines(ts, wnode, arrival, 0);
  }

  /** An event whose GUID is not the arrival GUID never ends the pass early:
      no name is looked up, nothing is freed, and the pass reaches every target,
      so every target that is not started gets its "not in an opened state"
      line and every target from the event's provider its "Unknown event" line. */
  lemma OtherEventsNeverResolve(ts: seq<Target>, wnode: WnodeHeader, arrival: Guid)
    requires wnode.guid != arrival
    ensures Scan(ts, wnode, arrival).matched == None
    ensures Scan(ts, wnode, arrival).deleted == []
    ensures forall j :: 0 <= j < |ts| && !Started(ts[j]) ==> TargetNotOpened(j) in Scan(ts, wnode, arrival).log
    ensures forall j :: 0 <= j < |ts| && FromProvider(ts[j], wnode) ==> UnknownEvent(j) in Scan(ts, wnode, arrival).log
  {
    NoMatchFreesNothing(ts, wnode, arrival);
    forall j | 0 <= j < |ts| && !Started(ts[j])
      ensures TargetNotOpened(j) in Scan(ts, wnode, arrival).log
    {
      NotOpenedPerSkippedTarget(ts, wnode, arrival, j);
    }
    forall j | 0 <= j < |ts| && FromProvider(ts[j], wnode)
      ensures UnknownEvent(j) in Scan(ts, wnode, arrival).log
    {
      UnknownEventPerProviderMatch(ts, wnode, arrival, j);
    }
  }

  lemma {:induction false} ScanFromStopsAtMatch(ts: seq<Target>, rest: seq<Target>, wnode: WnodeHeader, arrival: Guid, i: nat, k: nat)
    requires i <= k < |ts| && ScanFrom(ts, wnode, arrival, i).matched == Some(k)
    ensures ScanFrom(ts[..k + 1] + rest, wnode, arrival, i) == ScanFrom(ts, wnode, arrival, i)
    decreases |ts| - i
  {
    var ts' := ts[..k + 1] + rest;
    assert ts'[i] == ts[i];
    if i < k {
      ScanFromStopsAtMatch(ts, rest, wnode, arrival, i + 1, k);
    }
  }

  /** Targets after the matched one are never looked at: replacing them by
      anything leaves the whole outcome unchanged. */
  lemma LaterTargetsNotExamined(ts: seq<Target>, rest: seq<Target>, wnode: WnodeHeader, arrival: Guid, k: nat)
    requires Scan(ts, wnode, arrival).matched == Some(k)
    ensures Scan(ts[..k + 1] + rest, wnode, arrival) == Scan(ts, wnode, arrival)
  {
    ScanFromStopsAtMatch(ts, rest, wnode, arrival, 0, k);
  }

  /** Two snapshots that agree on every state, and on everything else about
      their started targets. */
  ghost predicate AgreeWhenStarted(ts: seq<Target>, us: seq<Target>)
  {
    |ts| == |us| &&
    forall j :: 0 <= j < |ts| ==> ts[j].state == us[j].state && (Started(ts[j]) ==> ts[j] == us[j])
  }

  lemma {:induction false} ScanFromReadsStateFirst(ts: seq<Target>, us: seq<Target>, wnode: WnodeHeader, arrival: Guid, i: nat)
    requires AgreeWhenStarted(ts, us) && i <= |ts|
    ensures ScanFrom(ts, wnode, arrival, i) == ScanFrom(us, wnode, arrival, i)
    decreases |ts| - i
  {
    if i < |ts| {
      ScanFromReadsStateFirst(ts, us, wnode, arrival, i + 1);
    }
  }

  /** A target that is not started is skipped on its state alone: its device
      object, provider id and properties, which are undefined for a target
      that is not open, do not affect the pass. */
  lemma NotStartedSkippedOnStateAlone(ts: seq<Target>, us: seq<Target>, wnode: WnodeHeader, arrival: Guid)
    requires AgreeWhenStarted(ts, us)
    ensures Scan(ts, wnode, arrival) == Scan(us, wnode, arrival)
  {
    ScanFromReadsStateFirst(ts, us, wnode, arrival, 0);
  }

  /** Three targets: a stopped one, then two started ones from the event's
      provider. An arrival event is attributed to the second target, and the
      third is never looked at, whatever it holds. */
  lemma FirstStartedMatchScenario(t1: Target, t2: Target, t3: Target, t3': Target, provider: ProviderId, arrival: Guid)
    requires t1.state == WdfIoTargetStopped
    requires t2.state == WdfIoTargetStarted && t2.provider == Some(provider)
    requires t3.state == WdfIoTargetStarted && t3.provider == Some(provider)
    ensures Scan([t1, t2, t3], WnodeHeader(provider, arrival), arrival).matched == Some(1)
    ensures Scan([t1, t2, t3'], WnodeHeader(provider, arrival), arrival)
            == Scan([t1, t2, t3], WnodeHeader(provider, arrival), arrival)
  {
    var wnode := WnodeHeader(provider, arrival);
    FirstMatchWins([t1, t2, t3], wnode, arrival);
    assert FirstArrival([t1, t2, t3], wnode, arrival, 1);
    LaterTargetsNotExamined([t1, t2, t3], [t3'], wnode, arrival, 1);
    assert [t1, t2, t3][..2] + [t3'] == [t1, t2, t3'];
  }
}
