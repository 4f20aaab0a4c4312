/**
 * The battery monitor of src/bin/powermon/main.c: watch every UPower battery,
 * react to each PropertiesChanged signal, and tear everything down on exit.
 * Every failing library call aborts the process.
 */
module PowerMonBin {
  import opened Common
  import UPower
  import Notify
  import opened Battery

  const APP: string := "dev.negrel.desk.powermon"

  /** How a callback ends: it returns a value, or the process aborts (SDBUS_PANIC). */
  datatype Outcome = Returned(r: int) | Aborted

  /** The effect of one PropertiesChanged signal on a battery and the shared notification id. */
  datatype Step = Step(snap: Snapshot, notifId: uint32, calls: seq<Action>, outcome: Outcome)

  /**
   * on_battery_changed as a function of the record, the shared `notif_id`, the
   * signal and the replies of the notification service.
   */
  function HandleSignal(s: Snapshot, notifId: uint32, sig: Signal, server: Notify.Server, closeReply: Reply<nat>): (st: Step)
    ensures st.notifId != notifId ==> notifId == 0 && st.outcome == Returned(0)
    ensures st.outcome.Aborted? ==> sig.iface == DEVICE_IFACE
    ensures |st.calls| <= 1
  {
    if sig.iface != DEVICE_IFACE then Step(s, notifId, [], Returned(0))
    else
      var a := ApplyAll(s, sig.entries);
      if a.failedAt.Some? then Step(a.snap, notifId, [], Aborted)
      else match Decide(a.snap, notifId)
        case SendLow(rid) =>
          var n := LowBatteryNotification(APP, rid);
          var calls := [Notified(Notify.WireCall(n))];
          if server.call.Fail? then Step(a.snap, notifId, calls, Aborted)
          else Step(a.snap, Notify.IdAfter(n, server, Some(notifId)).value, calls, Returned(0))
        case CloseNotification(id) =>
          Step(a.snap, notifId, [Closed(id)], if closeReply.Fail? then Aborted else Returned(0))
        case NoAction => Step(a.snap, notifId, [], Returned(0))
  }

  /** A signal on another interface changes no field and calls nothing. */
  lemma OtherInterfaceIgnored(s: Snapshot, notifId: uint32, sig: Signal, server: Notify.Server, closeReply: Reply<nat>)
    requires sig.iface != DEVICE_IFACE
    ensures HandleSignal(s, notifId, sig, server, closeReply) == Step(s, notifId, [], Returned(0))
  {
  }

  /**
   * After a readable Device signal exactly one notification is sent, replacing
   * the shared id, iff the updated battery is low; exactly one close is sent iff
   * it is not discharging and the id is set; otherwise nothing is called.
   */
  lemma SendOrCloseRule(s: Snapshot, notifId: uint32, sig: Signal, server: Notify.Server, closeReply: Reply<nat>)
    requires sig.iface == DEVICE_IFACE && ApplyAll(s, sig.entries).failedAt.None?
    ensures var st := HandleSignal(s, notifId, sig, server, closeReply);
      var t := ApplyAll(s, sig.entries).snap;
      && st.snap == t
      && (IsLow(t) <==> |st.calls| == 1 && st.calls[0].Notified?)
      && (IsLow(t) ==> st.calls[0].call.replacesId == notifId && st.calls[0].call.appName == APP)
      && (t.state != UPower.STATE_DISCHARGING && notifId != 0 <==> st.calls == [Closed(notifId)])
      && (st.calls == [] <==> Decide(t, notifId) == NoAction)
  {
  }

  /**
   * Once an id is held, a send replaces it and leaves it as it was: the alert
   * is updated, never duplicated.
   */
  lemma ReplaceKeepsSharedId(s: Snapshot, notifId: uint32, sig: Signal, server: Notify.Server, closeReply: Reply<nat>)
    requires notifId != 0
    ensures HandleSignal(s, notifId, sig, server, closeReply).notifId == notifId
  {
    var a := ApplyAll(s, sig.entries);
    if sig.iface == DEVICE_IFACE && a.failedAt.None? && Decide(a.snap, notifId).SendLow? {
      Notify.ReplaceKeepsId(LowBatteryNotification(APP, notifId), server, Some(notifId));
    }
  }

  /**
   * A close does not clear the id, so the next signal that finds the battery
   * not discharging closes the same id again.
   */
  lemma CloseRepeats(s: Snapshot, notifId: uint32, sig1: Signal, sig2: Signal, server: Notify.Server, closeReply: Reply<nat>)
    requires notifId != 0 && closeReply.Ok?
    requires sig1.iface == DEVICE_IFACE && sig2.iface == DEVICE_IFACE
    requires ApplyAll(s, sig1.entries).failedAt.None?
    requires ApplyAll(s, sig1.entries).snap.state != UPower.STATE_DISCHARGING
    requires var t := ApplyAll(s, sig1.entries).snap;
      ApplyAll(t, sig2.entries).failedAt.None? && ApplyAll(t, sig2.entries).snap.state != UPower.STATE_DISCHARGING
    ensures var st1 := HandleSignal(s, notifId, sig1, server, closeReply);
      var st2 := HandleSignal(st1.snap, st1.notifId, sig2, server, closeReply);
      st1.calls == [Closed(notifId)] && st2.calls == [Closed(notifId)] && st2.notifId == notifId
  {
  }

  /**
   * The decision is taken after every Device signal, even one that carries
   * none of the three tracked keys: the record stays as it was and the
   * decision on it runs.
   */
  lemma {:induction false} DecisionWithoutTrackedKeys(s: Snapshot, notifId: uint32, sig: Signal, server: Notify.Server, closeReply: Reply<nat>)
    requires sig.iface == DEVICE_IFACE
    requires forall i :: 0 <= i < |sig.entries| ==> !Tracked(sig.entries[i].key)
    ensures ApplyAll(s, sig.entries) == Applied(s, None)
    ensures HandleSignal(s, notifId, sig, server, closeReply).snap == s
    ensures |HandleSignal(s, notifId, sig, server, closeReply).calls| == if Decide(s, notifId) == NoAction then 0 else 1
  {
    UntrackedOnly(s, sig.entries);
  }

  lemma {:induction false} UntrackedOnly(s: Snapshot, es: seq<Entry>)
    requires forall i :: 0 <= i < |es| ==> !Tracked(es[i].key)
    ensures ApplyAll(s, es) == Applied(s, None)
    decreases |es|
  {
    if es != [] {
      UntrackedOnly(s, es[..|es| - 1]);
    }
  }

  /** Every reply `watch_battery` needs succeeded. */
  function WatchSucceeds(d: UPower.Device): (b: bool)
    ensures b ==> d.percentage.Ok? && d.level.Ok? && d.state.Ok? && d.watch.Ok?
  {
    d.percentage.Ok? && d.level.Ok? && d.state.Ok? && d.watch.Ok?
  }

  /** The record `watch_battery` fills from the three initial reads. */
  function InitialSnapshot(d: UPower.Device): (s: Snapshot)
    requires d.percentage.Ok? && d.level.Ok? && d.state.Ok?
    ensures s.percentage == d.percentage.value && s.level == d.level.value && s.state == d.state.value
  {
    Snapshot(d.percentage.value, d.level.value, d.state.value)
  }

  /** The matches registered by watching each battery of `bs`, in order. */
  function Matches(bs: seq<UPower.Device>): (m: seq<Action>)
    requires forall d :: d in bs ==> WatchSucceeds(d)
    ensures |m| == |bs|
    ensures forall j :: 0 <= j < |bs| ==> WatchSucceeds(bs[j]) && m[j] == Matched(bs[j].path, InitialSnapshot(bs[j]))
  {
    if bs == [] then []
    else
      var last := bs[|bs| - 1];
      assert last in bs && WatchSucceeds(last);
      Matches(bs[..|bs| - 1]) + [Matched(last.path, InitialSnapshot(last))]
  }

  /** The callbacks the aborting walk makes are the first batteries of the enumeration. */
  lemma CallsArePrefix(upower: UPower.Service, e: UPower.Enumeration)
    requires upower.enumerate.Fail? ==> e == UPower.Aborted([])
    requires upower.enumerate.Ok? ==>
      var devs := upower.enumerate.value;
      var k := UPower.FirstTypeFailure(devs);
      e == if k == |devs| then UPower.Completed(UPower.Batteries(devs)) else UPower.Aborted(UPower.Batteries(devs[..k]))
    ensures var bs := if upower.enumerate.Ok? then UPower.Batteries(upower.enumerate.value) else [];
      e.calls <= bs && (e.Completed? ==> e.calls == bs)
  {
    if upower.enumerate.Ok? {
      var devs := upower.enumerate.value;
      var k := UPower.FirstTypeFailure(devs);
      assert devs == devs[..k] + devs[k..];
      UPower.BatteriesAppend(devs[..k], devs[k..]);
    }
  }

  /**
   * How the walk's verdict follows from its callbacks: the callbacks run on a
   * prefix of the enumeration's batteries, and the walk returns exactly when the
   * enumeration completes and every battery's watch succeeds.
   */
  lemma WalkVerdict(upower: UPower.Service, e: UPower.Enumeration, k: nat, aborted: bool)
    requires upower.enumerate.Fail? ==> e == UPower.Aborted([])
    requires upower.enumerate.Ok? ==>
      var devs := upower.enumerate.value;
      var n := UPower.FirstTypeFailure(devs);
      e == if n == |devs| then UPower.Completed(UPower.Batteries(devs)) else UPower.Aborted(UPower.Batteries(devs[..n]))
    requires k <= |e.calls| && (!aborted ==> k == |e.calls|)
    requires aborted ==> k < |e.calls| && !WatchSucceeds(e.calls[k])
    requires forall d :: d in e.calls[..k] ==> WatchSucceeds(d)
    ensures var bs := if upower.enumerate.Ok? then UPower.Batteries(upower.enumerate.value) else [];
      && k <= |bs| && bs[..k] == e.calls[..k]
      && ((!aborted && e.Completed?) <==>
          (&& upower.enumerate.Ok?
           && UPower.FirstTypeFailure(upower.enumerate.value) == |upower.enumerate.value|
           && forall d :: d in bs ==> WatchSucceeds(d)))
      && (!aborted && e.Completed? ==> e.calls == bs)
  {
    CallsArePrefix(upower, e);
    var bs := if upower.enumerate.Ok? then UPower.Batteries(upower.enumerate.value) else [];
    if aborted {
      assert e.calls[k] in bs;
    } else if e.Completed? {
      assert e.calls[..k] == bs;
    }
  }

  /** Succeeding at every index of a prefix is succeeding for each of its devices. */
  lemma PrefixSucceeds(calls: seq<UPower.Device>, k: nat)
    requires k <= |calls| && forall j :: 0 <= j < k ==> WatchSucceeds(calls[j])
    ensures forall d :: d in calls[..k] ==> WatchSucceeds(d)
  {
    forall d | d in calls[..k] ensures WatchSucceeds(d) {
      var j :| 0 <= j < k && calls[..k][j] == d;
      assert calls[j] == d;
    }
  }

  /** The actions logged when every record of `bs` releases its slot, in list order. */
  ghost function Releases(bs: seq<Record>): (r: seq<Action>)
    reads set r | r in bs
    ensures |r| == |bs|
  {
    if bs == [] then [] else [SlotReleased(bs[0].slot)] + Releases(bs[1..])
  }

  /** Record `j` releases the `j`-th slot: the releases follow the list, one per record. */
  lemma {:induction false} ReleasesInOrder(bs: seq<Record>)
    ensures forall j :: 0 <= j < |bs| ==> Releases(bs)[j] == SlotReleased(bs[j].slot)
    decreases |bs|
  {
    if bs != [] {
      ReleasesInOrder(bs[1..]);
      forall j | 0 < j < |bs| ensures Releases(bs)[j] == SlotReleased(bs[j].slot) {
        assert bs[1..][j - 1] == bs[j];
      }
    }
  }

  /** `powermon_data`: the tracked batteries and the notification id they share. */
  class PowerMon {
    var batteries: seq<Record>
    var notifId: uint32
    /** The outgoing bus calls made so far, in order. */
    ghost var actions: seq<Action>

    constructor ()
      ensures batteries == [] && notifId == 0 && actions == []
    {
      batteries := [];
      notifId := 0;
      actions := [];
    }

    /** on_battery_changed for the record `b` the signal's match was registered with. */
    method OnBatteryChanged(b: Record, sig: Signal, server: Notify.Server, closeReply: Reply<nat>) returns (res: Outcome)
      modifies this, b
      ensures var st := HandleSignal(old(b.Snap()), old(notifId), sig, server, closeReply);
        b.Snap() == st.snap && notifId == st.notifId && actions == old(actions) + st.calls && res == st.outcome
      ensures batteries == old(batteries) && b.slot == old(b.slot)
    {
      if sig.iface != DEVICE_IFACE {
        return Returned(0);
      }
      var failedAt := b.ApplyEntries(sig.entries);
      if failedAt.Some? {
        return Aborted;
      }
      if b.state == UPower.STATE_DISCHARGING {
        if b.level == UPower.LEVEL_LOW || b.percentage < 20.0 {
          var notif := LowBatteryNotification(APP, notifId);
          var r, sent, id := Notify.Notify(notif, server, Some(notifId));
          actions := actions + [Notified(sent)];
          if r < 0 {
            return Aborted;
          }
          notifId := id.value;
        }
      } else {
        if notifId != 0 {
          actions := actions + [Closed(notifId)];
          if closeReply.Fail? {
            return Aborted;
          }
        }
      }
      return Returned(0);
    }

    /**
     * watch_battery: append a fresh record, fill it from the Percentage,
     * BatteryLevel and State reads, then register the PropertiesChanged match.
     */
    method WatchBattery(d: UPower.Device) returns (res: Outcome, b: Record)
      modifies this
      ensures fresh(b) && batteries == old(batteries) + [b] && notifId == old(notifId)
      ensures res == (if WatchSucceeds(d) then Returned(0) else Aborted)
      ensures WatchSucceeds(d) ==>
        b.Snap() == InitialSnapshot(d) && b.slot == Some(d.path)
        && actions == old(actions) + [Matched(d.path, InitialSnapshot(d))]
      ensures !WatchSucceeds(d) ==> actions == old(actions)
    {
      b := new Record();
      batteries := batteries + [b];
      if d.percentage.Fail? {
        return Aborted, b;
      }
      b.percentage := d.percentage.value;
      if d.level.Fail? {
        return Aborted, b;
      }
      b.level := d.level.value;
      if d.state.Fail? {
        return Aborted, b;
      }
      b.state := d.state.value;
      if d.watch.Fail? {
        return Aborted, b;
      }
      b.slot := Some(d.path);
      actions := actions + [Matched(d.path, b.Snap())];
      return Returned(0), b;
    }

    /**
     * The records from index `n0` on are the ones `watch_battery` filled for
     * `ds`, in order: each holds its device's match and initial readings.
     */
    ghost predicate Tracks(n0: nat, ds: seq<UPower.Device>)
      reads this, batteries
    {
      && n0 + |ds| <= |batteries|
      && forall j :: 0 <= j < |ds| ==>
           && WatchSucceeds(ds[j])
           && batteries[n0 + j].slot == Some(ds[j].path)
           && batteries[n0 + j].Snap() == InitialSnapshot(ds[j])
    }

    /**
     * `for_all_batteries(system_bus, &powermon, watch_battery)`: one new record
     * and one registered match per battery, in enumeration order, or an abort
     * after the matches of the batteries watched before it.
     */
    method WatchAll(upower: UPower.Service) returns (res: Outcome, watched: nat)
      modifies this
      ensures notifId == old(notifId)
      ensures |batteries| >= |old(batteries)| && batteries[..|old(batteries)|] == old(batteries)
      ensures res.Returned? <==>
        (&& upower.enumerate.Ok?
         && UPower.FirstTypeFailure(upower.enumerate.value) == |upower.enumerate.value|
         && forall d :: d in UPower.Batteries(upower.enumerate.value) ==> WatchSucceeds(d))
      ensures var bs := if upower.enumerate.Ok? then UPower.Batteries(upower.enumerate.value) else [];
        && watched <= |bs|
        && (forall d :: d in bs[..watched] ==> WatchSucceeds(d))
        && Tracks(|old(batteries)|, bs[..watched])
        && actions == old(actions) + Matches(bs[..watched])
        && (res.Returned? ==> watched == |bs| && |batteries| == |old(batteries)| + |bs|)
    {
      var e := UPower.ForAllBatteries(upower);
      ghost var bs := if upower.enumerate.Ok? then UPower.Batteries(upower.enumerate.value) else [];
      var k, r := WatchEach(e.calls);
      WalkVerdict(upower, e, k, r.Aborted?);
      watched := k;
      if r.Aborted? || e.Aborted? {
        return Aborted, watched;
      }
      return Returned(0), watched;
    }

    /**
     * The callback runs of the walk: watch each device of `calls` in turn,
     * stopping at the first one whose watch aborts, which is `calls[k]`.
     */
    method WatchEach(calls: seq<UPower.Device>) returns (k: nat, res: Outcome)
      modifies this
      ensures k <= |calls| && notifId == old(notifId)
      ensures res.Returned? ==> k == |calls|
      ensures res.Aborted? ==> k < |calls| && !WatchSucceeds(calls[k])
      ensures forall d :: d in calls[..k] ==> WatchSucceeds(d)
      ensures |batteries| >= |old(batteries)| + k && batteries[..|old(batteries)|] == old(batteries)
      ensures res.Returned? ==> |batteries| == |old(batteries)| + |calls|
      ensures Tracks(|old(batteries)|, calls[..k])
      ensures actions == old(actions) + Matches(calls[..k])
    {
      var n0 := |batteries|;
      k := 0;
      while k < |calls|
        invariant 0 <= k <= |calls|
        invariant notifId == old(notifId)
        invariant |batteries| == n0 + k && batteries[..n0] == old(batteries)
        invariant forall j :: 0 <= j < k ==>
          WatchSucceeds(calls[j])
          && batteries[n0 + j].slot == Some(calls[j].path) && batteries[n0 + j].Snap() == InitialSnapshot(calls[j])
        invariant actions == old(actions) + Matches(calls[..k])
      {
        var r, b := WatchBattery(calls[k]);
        if r.Aborted? {
          PrefixSucceeds(calls, k);
          assert Tracks(n0, calls[..k]);
          return k, Aborted;
        }
        assert calls[..k + 1] == calls[..k] + [calls[k]];
        k := k + 1;
      }
      PrefixSucceeds(calls, k);
      assert Tracks(n0, calls[..k]);
      return k, Returned(0);
    }

    /** The clean-up loop of `main`: release every record's slot, free it and unlink it. */
    method Shutdown()
      modifies this
      ensures batteries == [] && notifId == old(notifId)
      ensures actions == old(actions) + Releases(old(batteries))
    {
      while batteries != []
        invariant notifId == old(notifId)
        invariant actions + Releases(batteries) == old(actions) + Releases(old(batteries))
        decreases |batteries|
      {
        var b := batteries[0];
        actions := actions + [SlotReleased(b.slot)];
        batteries := batteries[1..];
      }
    }
  }
}
