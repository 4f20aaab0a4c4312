/**
 * The per-battery bookkeeping shared by both powermon daemons
 * (src/bin/powermon/main.c and src/daemon/powermon/main.c): the battery
 * record, how a PropertiesChanged signal's entries overwrite it, and the
 * single low-battery decision taken after each signal.
 */
module Battery {
  import opened Common
  import UPower
  import Notify

  /** The tracked fields of `battery_data`. */
  datatype Snapshot = Snapshot(percentage: real, level: uint32, state: uint32)

  /** A `calloc`ed record: every field zero. */
  const ZERO: Snapshot := Snapshot(0.0, 0, 0)

  /** The value of one PropertiesChanged entry: a `u`, a `d`, or a variant of another type. */
  datatype Variant = U32(u: uint32) | Double(d: real) | OtherVariant(signature: string)

  /** One `{sv}` entry of the changed-properties dictionary. */
  datatype Entry = Entry(key: string, value: Variant)

  /** The body of a PropertiesChanged signal: the interface name and the changed entries. */
  datatype Signal = Signal(iface: string, entries: seq<Entry>)

  const DEVICE_IFACE: string := "org.freedesktop.UPower.Device"

  /**
   * The code sd-bus returns when an entry's variant does not hold the type the
   * daemon reads for that key; the model fixes one negative value for it.
   */
  const TYPE_MISMATCH: Errno := -6

  predicate Tracked(key: string) {
    key == "State" || key == "BatteryLevel" || key == "Percentage"
  }

  /**
   * One iteration of the entry loop: State/BatteryLevel read a `u`, Percentage a
   * `d` (None when the variant holds another type); any other key is skipped.
   */
  function ApplyEntry(s: Snapshot, e: Entry): (r: Option<Snapshot>)
    ensures !Tracked(e.key) ==> r == Some(s)
  {
    if e.key == "State" then
      (if e.value.U32? then Some(s.(state := e.value.u)) else None)
    else if e.key == "BatteryLevel" then
      (if e.value.U32? then Some(s.(level := e.value.u)) else None)
    else if e.key == "Percentage" then
      (if e.value.Double? then Some(s.(percentage := e.value.d)) else None)
    else Some(s)
  }

  /** The record after the entry loop, and the index of the entry it stopped at, if any. */
  datatype Applied = Applied(snap: Snapshot, failedAt: Option<nat>)

  /** The entry loop over `es`, in order, stopping at the first entry whose value cannot be read. */
  function ApplyAll(s: Snapshot, es: seq<Entry>): (a: Applied)
    ensures a.failedAt.Some? ==> a.failedAt.value < |es|
  {
    if es == [] then Applied(s, None)
    else
      var prev := ApplyAll(s, es[..|es| - 1]);
      if prev.failedAt.Some? then prev
      else match ApplyEntry(prev.snap, es[|es| - 1])
        case None => Applied(prev.snap, Some(|es| - 1))
        case Some(s') => Applied(s', None)
  }

  /** The value of the last entry with key `k`, if there is one. */
  function LastOf(es: seq<Entry>, k: string): Option<Variant> {
    if es == [] then None
    else if es[|es| - 1].key == k then Some(es[|es| - 1].value)
    else LastOf(es[..|es| - 1], k)
  }

  /**
   * When every entry reads, each tracked field ends with the value of the last
   * entry carrying its key, and keeps its old value when no entry carries it.
   */
  lemma {:induction false} LastOccurrenceWins(s: Snapshot, es: seq<Entry>)
    requires ApplyAll(s, es).failedAt.None?
    ensures LastOf(es, "State").Some? ==> LastOf(es, "State").value.U32?
    ensures LastOf(es, "BatteryLevel").Some? ==> LastOf(es, "BatteryLevel").value.U32?
    ensures LastOf(es, "Percentage").Some? ==> LastOf(es, "Percentage").value.Double?
    ensures var r := ApplyAll(s, es).snap;
      && r.state == (if LastOf(es, "State").Some? then LastOf(es, "State").value.u else s.state)
      && r.level == (if LastOf(es, "BatteryLevel").Some? then LastOf(es, "BatteryLevel").value.u else s.level)
      && r.percentage == (if LastOf(es, "Percentage").Some? then LastOf(es, "Percentage").value.d else s.percentage)
    decreases |es|
  {
    if es != [] {
      LastOccurrenceWins(s, es[..|es| - 1]);
    }
  }

  /** The loop is a fold: applying `a` then `b` is applying `a + b`. */
  lemma {:induction false} ApplyAllAppend(s: Snapshot, a: seq<Entry>, b: seq<Entry>)
    requires ApplyAll(s, a).failedAt.None?
    ensures var ab := ApplyAll(s, a + b); var rb := ApplyAll(ApplyAll(s, a).snap, b);
      ab.snap == rb.snap
      && (rb.failedAt.None? <==> ab.failedAt.None?)
      && (rb.failedAt.Some? ==> ab.failedAt.value == |a| + rb.failedAt.value)
    decreases |b|
  {
    if b == [] {
      assert a + b == a;
    } else {
      assert (a + b)[..|a + b| - 1] == a + b[..|b| - 1];
      assert (a + b)[|a + b| - 1] == b[|b| - 1];
      ApplyAllAppend(s, a, b[..|b| - 1]);
    }
  }

  /** An entry with an untracked key changes nothing, wherever it sits in the signal. */
  lemma UntrackedEntryIgnored(s: Snapshot, a: seq<Entry>, e: Entry, b: seq<Entry>)
    requires !Tracked(e.key)
    requires ApplyAll(s, a).failedAt.None?
    ensures ApplyAll(s, a + [e] + b).snap == ApplyAll(s, a + b).snap
    ensures ApplyAll(s, a + [e] + b).failedAt.None? <==> ApplyAll(s, a + b).failedAt.None?
  {
    var sa := ApplyAll(s, a).snap;
    assert (a + [e])[..|a + [e]| - 1] == a;
    assert ApplyAll(s, a + [e]) == Applied(sa, None);
    ApplyAllAppend(s, a + [e], b);
    ApplyAllAppend(s, a, b);
    assert a + [e] + b == (a + [e]) + b;
  }

  /** The low-battery condition: discharging, and either level LOW or under 20%. */
  function IsLow(s: Snapshot): (low: bool)
    ensures low ==> s.state == UPower.STATE_DISCHARGING
    ensures s.state == UPower.STATE_DISCHARGING && s.percentage < 20.0 ==> low
    ensures s.state == UPower.STATE_DISCHARGING && s.level == UPower.LEVEL_LOW ==> low
    ensures low && s.percentage >= 20.0 ==> s.level == UPower.LEVEL_LOW
  {
    s.state == UPower.STATE_DISCHARGING && (s.level == UPower.LEVEL_LOW || s.percentage < 20.0)
  }

  /** What the handler does once the entries are applied. */
  datatype Decision = SendLow(replaceId: uint32) | CloseNotification(id: uint32) | NoAction

  /**
   * The decision after every Device-interface signal: while discharging, send
   * (or replace) the notification when low and otherwise do nothing; when not
   * discharging, close the shared notification id if it is not zero.
   */
  function Decide(s: Snapshot, notifId: uint32): (d: Decision)
    ensures d.SendLow? <==> IsLow(s)
    ensures d.SendLow? ==> d.replaceId == notifId
    ensures d.CloseNotification? <==> s.state != UPower.STATE_DISCHARGING && notifId != 0
    ensures d.CloseNotification? ==> d.id == notifId
    ensures d == NoAction <==>
      (s.state == UPower.STATE_DISCHARGING && !IsLow(s)) || (s.state != UPower.STATE_DISCHARGING && notifId == 0)
  {
    if s.state == UPower.STATE_DISCHARGING then
      (if s.level == UPower.LEVEL_LOW || s.percentage < 20.0 then SendLow(notifId) else NoAction)
    else if notifId != 0 then CloseNotification(notifId)
    else NoAction
  }

  /** A CRITICAL level alone is not low: at 20% or more nothing is sent. */
  lemma CriticalAloneIsNotLow(s: Snapshot, notifId: uint32)
    requires s.state == UPower.STATE_DISCHARGING && s.level == UPower.LEVEL_CRITICAL
    requires s.percentage >= 20.0
    ensures Decide(s, notifId) == NoAction
  {
    UPower.Constants();
  }

  /** Under 20% counts as low whatever the level reads. */
  lemma LowPercentageIsLow(s: Snapshot, notifId: uint32)
    requires s.state == UPower.STATE_DISCHARGING && s.percentage < 20.0
    ensures Decide(s, notifId) == SendLow(notifId)
  {
  }

  /** The battery record `battery_data`, updated in place by the signal handler. */
  class Record {
    var percentage: real
    var level: uint32
    var state: uint32
    /** The object path of the PropertiesChanged match, once registered (the `slot`). */
    var slot: Option<string>

    /** calloc: all fields zero, no slot. */
    constructor ()
      ensures Snap() == ZERO && slot == None
    {
      percentage := 0.0;
      level := 0;
      state := 0;
      slot := None;
    }

    function Snap(): Snapshot
      reads this
    {
      Snapshot(percentage, level, state)
    }

    /**
     * The entry loop of `on_battery_changed`: overwrite the fields entry by
     * entry; on an unreadable entry stop there, returning its index.
     */
    method ApplyEntries(es: seq<Entry>) returns (failedAt: Option<nat>)
      modifies this
      ensures Snap() == ApplyAll(old(Snap()), es).snap
      ensures failedAt == ApplyAll(old(Snap()), es).failedAt
      ensures slot == old(slot)
    {
      ghost var s0 := Snap();
      var i := 0;
      while i < |es|
        invariant 0 <= i <= |es|
        invariant ApplyAll(s0, es[..i]) == Applied(Snap(), None)
        invariant slot == old(slot)
      {
        assert es[..i + 1][..i] == es[..i];
        var e := es[i];
        if e.key == "State" {
          if !e.value.U32? {
            ApplyAllStops(s0, es, i);
            return Some(i);
          }
          state := e.value.u;
        } else if e.key == "BatteryLevel" {
          if !e.value.U32? {
            ApplyAllStops(s0, es, i);
            return Some(i);
          }
          level := e.value.u;
        } else if e.key == "Percentage" {
          if !e.value.Double? {
            ApplyAllStops(s0, es, i);
            return Some(i);
          }
          percentage := e.value.d;
        }
        i := i + 1;
      }
      assert es[..|es|] == es;
      return None;
    }
  }

  /** Once the loop stops at entry `i`, the rest of the signal is never read. */
  lemma ApplyAllStops(s: Snapshot, es: seq<Entry>, i: nat)
    requires i < |es|
    requires ApplyAll(s, es[..i]).failedAt.None?
    requires ApplyEntry(ApplyAll(s, es[..i]).snap, es[i]).None?
    ensures ApplyAll(s, es) == Applied(ApplyAll(s, es[..i]).snap, Some(i))
  {
    assert es[..i + 1][..i] == es[..i];
    var rest := es[i + 1..];
    assert es == es[..i + 1] + rest;
    StoppedStaysStopped(s, es[..i + 1], rest);
  }

  lemma {:induction false} StoppedStaysStopped(s: Snapshot, a: seq<Entry>, b: seq<Entry>)
    requires ApplyAll(s, a).failedAt.Some?
    ensures ApplyAll(s, a + b) == ApplyAll(s, a)
    decreases |b|
  {
    if b == [] {
      assert a + b == a;
    } else {
      assert (a + b)[..|a + b| - 1] == a + b[..|b| - 1];
      StoppedStaysStopped(s, a, b[..|b| - 1]);
    }
  }

  /** The Notify parameters of the low-battery alert, replacing `replaceId`. */
  function LowBatteryNotification(app: string, replaceId: uint32): (n: Notify.Notification)
    ensures n.replaceId == replaceId && n.app == Some(app)
    ensures n.title == Some("Low battery") && n.timeout == 0 && |n.hints| == 1
  {
    Notify.Notification(Some(app), Some("Low battery"), Some("Please charge now, %.0f%% remaining."),
                        None, None, replaceId, 0, ["urgency_high"])
  }

  /** An outgoing call recorded in a daemon's action log. */
  datatype Action =
    | Notified(call: Notify.NotifyCall)
    | Closed(id: uint32)
    | Matched(path: string, at: Snapshot)
    | SlotReleased(slot: Option<string>)
}
