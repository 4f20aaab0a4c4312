/**
 * The error-returning battery monitor of src/daemon/powermon/main.c. It keeps
 * the bookkeeping of the aborting variant but reports failures as negative
 * return codes through the SD_TRY / SD_TRY_GOTO macros. Those macros expand
 * their argument more than once: SD_TRY evaluates a failing call three times
 * (test, log message, return) and SD_TRY_GOTO twice (test, log message). The
 * model keeps every such repeated call.
 */
module PowerMonDaemon {
  import opened Common
  import UPower
  import Notify
  import Log
  import opened Battery
  import PowerMonBin

  const APP: string := "DESK Power Monitor"

  const EXIT_SUCCESS: int := 0
  const EXIT_FAILURE: int := 1

  /** The sign of a callback's return value: non-negative, or a negative error code. */
  datatype Status = Success | Failure(errno: Errno)

  /** The effect of one PropertiesChanged signal. */
  datatype Step = Step(snap: Snapshot, notifId: uint32, calls: seq<Action>, status: Status)

  /**
   * on_battery_changed. An unreadable entry returns its error through SD_TRY
   * and leaves the entries before it applied. SD_TRY_GOTO makes a failing
   * Notify or CloseNotification call a second time for its log message;
   * `retry` is the notification server's answer to that second Notify, which
   * writes the shared id like any other. The handler then returns `r`:
   * `asprintf`'s length on the notify path, otherwise the last
   * `sd_bus_message_read` result, or 0 when the signal carries no entry.
   * None of these is negative, so the model reports success.
   */
  function HandleSignal(s: Snapshot, notifId: uint32, sig: Signal, server: Notify.Server, retry: Notify.Server, closeReply: Reply<nat>): (st: Step)
    ensures sig.iface != DEVICE_IFACE ==> st == Step(s, notifId, [], Success)
    ensures st.notifId != notifId ==> notifId == 0
    ensures |st.calls| <= 2
  {
    if sig.iface != DEVICE_IFACE then Step(s, notifId, [], Success)
    else
      var a := ApplyAll(s, sig.entries);
      if a.failedAt.Some? then Step(a.snap, notifId, [], Failure(TYPE_MISMATCH))
      else match Decide(a.snap, notifId)
        case SendLow(rid) =>
          var n := LowBatteryNotification(APP, rid);
          var w := Notify.WireCall(n);
          if server.call.Fail? then Step(a.snap, Notify.IdAfter(n, retry, Some(notifId)).value, [Notified(w), Notified(w)], Success)
          else Step(a.snap, Notify.IdAfter(n, server, Some(notifId)).value, [Notified(w)], Success)
        case CloseNotification(id) =>
          Step(a.snap, notifId, if closeReply.Fail? then [Closed(id), Closed(id)] else [Closed(id)], Success)
        case NoAction => Step(a.snap, notifId, [], Success)
  }

  /** The handler fails exactly when an entry cannot be read; the entries before it stay applied. */
  lemma FailsOnlyOnUnreadableEntry(s: Snapshot, notifId: uint32, sig: Signal, server: Notify.Server, retry: Notify.Server, closeReply: Reply<nat>)
    ensures var st := HandleSignal(s, notifId, sig, server, retry, closeReply);
      && (st.status.Failure? <==> sig.iface == DEVICE_IFACE && ApplyAll(s, sig.entries).failedAt.Some?)
      && (st.status.Failure? ==> st.calls == [] && st.notifId == notifId && st.snap == ApplyAll(s, sig.entries).snap)
  {
  }

  /**
   * A failing Notify call is sent a second time with the same arguments, the
   * shared id is what that second call leaves, and the handler still returns
   * success. A notification already shown keeps its id.
   */
  lemma FailedNotifySentTwice(s: Snapshot, notifId: uint32, sig: Signal, server: Notify.Server, retry: Notify.Server, closeReply: Reply<nat>)
    requires sig.iface == DEVICE_IFACE && ApplyAll(s, sig.entries).failedAt.None?
    requires IsLow(ApplyAll(s, sig.entries).snap) && server.call.Fail?
    ensures var st := HandleSignal(s, notifId, sig, server, retry, closeReply);
      && |st.calls| == 2 && st.calls[0] == st.calls[1] && st.calls[0].Notified?
      && st.calls[0].call.replacesId == notifId
      && st.status == Success
      && st.notifId == Notify.IdAfter(LowBatteryNotification(APP, notifId), retry, Some(notifId)).value
      && (notifId != 0 ==> st.notifId == notifId)
  {
    if notifId != 0 {
      Notify.ReplaceKeepsId(LowBatteryNotification(APP, notifId), retry, Some(notifId));
    }
  }

  /**
   * When no notification is shown yet and the first Notify fails but the
   * second one made for the log message succeeds, the id that second call
   * returns is stored: the alert is up and its id is known.
   */
  lemma RetriedNotifyCapturesId(s: Snapshot, sig: Signal, server: Notify.Server, retry: Notify.Server, closeReply: Reply<nat>)
    requires sig.iface == DEVICE_IFACE && ApplyAll(s, sig.entries).failedAt.None?
    requires IsLow(ApplyAll(s, sig.entries).snap)
    requires server.call.Fail? && retry.call.Ok? && retry.returnedId.Ok?
    ensures var st := HandleSignal(s, 0, sig, server, retry, closeReply);
      st.notifId == retry.returnedId.value && |st.calls| == 2 && st.status == Success
  {
  }

  /** A failing CloseNotification call is sent twice and the handler still returns success. */
  lemma FailedCloseSentTwice(s: Snapshot, notifId: uint32, sig: Signal, server: Notify.Server, retry: Notify.Server, closeReply: Reply<nat>)
    requires sig.iface == DEVICE_IFACE && ApplyAll(s, sig.entries).failedAt.None?
    requires ApplyAll(s, sig.entries).snap.state != UPower.STATE_DISCHARGING
    requires notifId != 0 && closeReply.Fail?
    ensures HandleSignal(s, notifId, sig, server, retry, closeReply) ==
      Step(ApplyAll(s, sig.entries).snap, notifId, [Closed(notifId), Closed(notifId)], Success)
  {
  }

  /**
   * When no call fails, both daemons update the record and the shared id
   * alike and make the same calls, up to the application name.
   */
  lemma AgreesWithAbortingVariant(s: Snapshot, notifId: uint32, sig: Signal, server: Notify.Server, retry: Notify.Server, closeReply: Reply<nat>)
    requires sig.iface == DEVICE_IFACE ==> ApplyAll(s, sig.entries).failedAt.None?
    requires server.call.Ok? && closeReply.Ok?
    ensures var d := HandleSignal(s, notifId, sig, server, retry, closeReply);
      var b := PowerMonBin.HandleSignal(s, notifId, sig, server, closeReply);
      && b.outcome.Returned? && d.status == Success
      && d.snap == b.snap && d.notifId == b.notifId && |d.calls| == |b.calls|
      && forall i :: 0 <= i < |d.calls| ==>
           if d.calls[i].Notified? then
             b.calls[i].Notified? && d.calls[i].call == b.calls[i].call.(appName := APP)
           else d.calls[i] == b.calls[i]
  {
  }

  /** The error code of `watch_battery`: that of the first failing read, or 0. */
  function WatchCode(d: UPower.Device): (r: int)
    ensures r <= 0
    ensures r == 0 <==> PowerMonBin.WatchSucceeds(d)
  {
    if d.percentage.Fail? then d.percentage.errno
    else if d.level.Fail? then d.level.errno
    else if d.state.Fail? then d.state.errno
    else if d.watch.Fail? then d.watch.errno
    else 0
  }

  /** The record `watch_battery` leaves behind: the fields read before the first failure. */
  function WatchedSnapshot(d: UPower.Device): (s: Snapshot)
    ensures d.percentage.Ok? && d.level.Ok? && d.state.Ok? ==> s == PowerMonBin.InitialSnapshot(d)
    ensures d.percentage.Fail? ==> s == ZERO
  {
    if d.percentage.Fail? then ZERO
    else if d.level.Fail? then ZERO.(percentage := d.percentage.value)
    else if d.state.Fail? then ZERO.(percentage := d.percentage.value, level := d.level.value)
    else PowerMonBin.InitialSnapshot(d)
  }

  /** The slot a record holds after `watch_battery`: set only when the match was registered. */
  function WatchedSlot(d: UPower.Device): (slot: Option<string>)
    ensures slot.Some? <==> PowerMonBin.WatchSucceeds(d)
  {
    if PowerMonBin.WatchSucceeds(d) then Some(d.path) else None
  }

  /**
   * The matches registered by the `watch_battery` runs `w`, in order: one for
   * each run whose reads and match registration all succeed.
   */
  function Matches(w: seq<UPower.Device>): (m: seq<Action>)
    ensures |m| <= |w|
  {
    if w == [] then [] else MatchOf(w[0]) + Matches(w[1..])
  }

  /** The match one `watch_battery` run registers: none when any of its replies failed. */
  function MatchOf(d: UPower.Device): (m: seq<Action>)
    ensures |m| <= 1
  {
    if PowerMonBin.WatchSucceeds(d) then [Matched(d.path, WatchedSnapshot(d))] else []
  }

  /**
   * When every run succeeds, run `j` registers the `j`-th match, on its path
   * and with its initial readings; when none does, nothing is registered.
   */
  lemma {:induction false} MatchesOfRuns(w: seq<UPower.Device>)
    ensures (forall j :: 0 <= j < |w| ==> PowerMonBin.WatchSucceeds(w[j])) ==>
      |Matches(w)| == |w| && forall j :: 0 <= j < |w| ==> Matches(w)[j] == Matched(w[j].path, WatchedSnapshot(w[j]))
    ensures (forall j :: 0 <= j < |w| ==> !PowerMonBin.WatchSucceeds(w[j])) ==> Matches(w) == []
    decreases |w|
  {
    if w != [] {
      MatchesOfRuns(w[1..]);
      assert forall j :: 0 <= j < |w[1..]| ==> w[1..][j] == w[j + 1];
    }
  }

  /** The matches of consecutive runs are the matches of each, one after the other. */
  lemma {:induction false} MatchesAppend(a: seq<UPower.Device>, b: seq<UPower.Device>)
    ensures Matches(a + b) == Matches(a) + Matches(b)
    decreases |a|
  {
    if a == [] {
      assert a + b == b;
    } else {
      var ab := a + b;
      assert ab[0] == a[0];
      assert ab[1..] == a[1..] + b;
      var head := MatchOf(a[0]);
      assert Matches(ab) == head + Matches(ab[1..]);
      assert Matches(a) == head + Matches(a[1..]);
      MatchesAppend(a[1..], b);
    }
  }

  /** A log holding the matches of `w` that then records those of `v` holds the matches of `w + v`. */
  lemma MatchesStep(a0: seq<Action>, before: seq<Action>, after: seq<Action>, w: seq<UPower.Device>, v: seq<UPower.Device>)
    requires before == a0 + Matches(w) && after == before + Matches(v)
    ensures after == a0 + Matches(w + v)
  {
    MatchesAppend(w, v);
  }

  /** The slot releases of the records `watch_battery` left for the runs `w`, in order. */
  function SlotsReleased(w: seq<UPower.Device>): (r: seq<Action>)
    ensures |r| == |w| && forall j :: 0 <= j < |w| ==> r[j] == SlotReleased(WatchedSlot(w[j]))
  {
    seq(|w|, j requires 0 <= j < |w| => SlotReleased(WatchedSlot(w[j])))
  }

  /**
   * One enumerated device as `for_all_batteries` meets it. SD_TRY evaluates a
   * failing call three times: for its test, for the `strerror` of its log
   * message, and for its `return`; each evaluation is a new bus call with a
   * reply of its own. `dev` holds the replies of the first evaluation.
   * `typeReturn` is the value the third evaluation of a failing Type read
   * returns. `logRun` and `returnRun` hold the replies the second and third
   * runs of a failing `watch_battery` get (their own path and Type are not used).
   */
  datatype Probe = Probe(dev: UPower.Device, typeReturn: int, logRun: UPower.Device, returnRun: UPower.Device)

  /** The second run of the callback: the same path, the replies of that run. */
  function LogRun(p: Probe): (d: UPower.Device)
    ensures d.path == p.dev.path
  {
    p.logRun.(path := p.dev.path)
  }

  /** The third run of the callback, whose result SD_TRY returns. */
  function ReturnRun(p: Probe): (d: UPower.Device)
    ensures d.path == p.dev.path
  {
    p.returnRun.(path := p.dev.path)
  }

  /** The devices as the first evaluations see them. */
  function Devs(ps: seq<Probe>): (ds: seq<UPower.Device>)
    ensures |ds| == |ps| && forall i :: 0 <= i < |ps| ==> ds[i] == ps[i].dev
  {
    seq(|ps|, i requires 0 <= i < |ps| => ps[i].dev)
  }

  /**
   * What the loop body does with one device: go on to the next one, or
   * `return` a code. Both list the `watch_battery` runs made, in order.
   */
  datatype Visited = Next(watched: seq<UPower.Device>) | Return(watched: seq<UPower.Device>, code: int)

  /**
   * One iteration of the loop: a failing Type read returns what its third
   * evaluation returns; a non-battery is skipped; a battery is watched, and
   * a failing watch is run twice more, the third run's code being returned.
   */
  function Visit(p: Probe): (v: Visited)
    ensures v.Return? <==> p.dev.typ.Fail? || (UPower.IsBattery(p.dev) && !PowerMonBin.WatchSucceeds(p.dev))
    ensures v.Next? ==> v.watched == (if UPower.IsBattery(p.dev) then [p.dev] else [])
    ensures v.Return? && p.dev.typ.Ok? ==> v.watched == [p.dev, LogRun(p), ReturnRun(p)] && v.code == WatchCode(ReturnRun(p))
  {
    var d := p.dev;
    if d.typ.Fail? then Return([], p.typeReturn)
    else if d.typ.value != UPower.DEVICE_BATTERY then Next([])
    else if PowerMonBin.WatchSucceeds(d) then Next([d])
    else Return([d, LogRun(p), ReturnRun(p)], WatchCode(ReturnRun(p)))
  }

  /** What `for_all_batteries` did: the `watch_battery` runs, in order, and its return code. */
  datatype Walked = Walked(watched: seq<UPower.Device>, code: int)

  /** The loop over the enumerated devices, up to the end or the first `return`. */
  function Walk(ps: seq<Probe>): (w: Walked)
    ensures w.code != 0 ==> exists i :: 0 <= i < |ps| && Visit(ps[i]).Return?
  {
    if ps == [] then Walked([], 0)
    else match Visit(ps[0])
      case Return(watched, code) => Walked(watched, code)
      case Next(watched) =>
        var rest := Walk(ps[1..]);
        assert rest.code != 0 ==> exists i :: 0 <= i < |ps| && Visit(ps[i]).Return? by {
          if rest.code != 0 {
            var i :| 0 <= i < |ps[1..]| && Visit(ps[1..][i]).Return?;
            assert ps[i + 1] == ps[1..][i];
          }
        }
        Walked(watched + rest.watched, rest.code)
  }

  /** The walk from position `i` is the visit of device `i`, then, unless it returned, the rest. */
  lemma WalkStep(ps: seq<Probe>, i: nat)
    requires i < |ps|
    ensures Walk(ps[i..]) ==
      match Visit(ps[i])
      case Return(w, c) => Walked(w, c)
      case Next(w) => Walked(w + Walk(ps[i + 1..]).watched, Walk(ps[i + 1..]).code)
  {
    assert ps[i..][0] == ps[i] && ps[i..][1..] == ps[i + 1..];
  }

  /** The loop's view of the walk after visiting device `i`: the runs so far and what is left. */
  lemma WalkLoopStep(ps: seq<Probe>, i: nat, watched: seq<UPower.Device>)
    requires i < |ps|
    requires Walk(ps) == Walked(watched + Walk(ps[i..]).watched, Walk(ps[i..]).code)
    ensures var v := Visit(ps[i]);
      if v.Return? then Walk(ps) == Walked(watched + v.watched, v.code)
      else Walk(ps) == Walked((watched + v.watched) + Walk(ps[i + 1..]).watched, Walk(ps[i + 1..]).code)
  {
    WalkStep(ps, i);
    var v := Visit(ps[i]);
    if v.Next? {
      assert watched + (v.watched + Walk(ps[i + 1..]).watched) == (watched + v.watched) + Walk(ps[i + 1..]).watched;
    }
  }

  /** Every device is visited without a `return`. */
  predicate Clean(ps: seq<Probe>) {
    forall i :: 0 <= i < |ps| ==> Visit(ps[i]).Next?
  }

  /**
   * UPower as the error-returning daemon sees it: the first EnumerateDevices
   * reply, and what the third evaluation of a failing one returns.
   */
  datatype Service = Service(enumerate: Reply<seq<Probe>>, enumerateReturn: int)

  /**
   * for_all_batteries' result: what the third evaluation of a failing
   * EnumerateDevices returns, or the walk's code.
   */
  function EnumerationCode(upower: Service): (r: int)
    ensures upower.enumerate.Ok? && Clean(upower.enumerate.value) ==> r == 0
  {
    if upower.enumerate.Fail? then upower.enumerateReturn
    else
      WalkSucceeds(upower.enumerate.value);
      Walk(upower.enumerate.value).code
  }

  /** The `watch_battery` runs of for_all_batteries: none when the enumeration fails. */
  function Runs(upower: Service): seq<UPower.Device> {
    if upower.enumerate.Ok? then Walk(upower.enumerate.value).watched else []
  }

  /** A list is clean iff its first device is visited without a `return` and the rest is clean. */
  lemma CleanCons(ps: seq<Probe>)
    requires ps != []
    ensures Clean(ps) <==> Visit(ps[0]).Next? && Clean(ps[1..])
  {
    if Visit(ps[0]).Next? && Clean(ps[1..]) {
      forall i | 0 <= i < |ps| ensures Visit(ps[i]).Next? {
        if i > 0 { assert ps[i] == ps[1..][i - 1]; }
      }
    }
    if Clean(ps) {
      forall i | 0 <= i < |ps[1..]| ensures Visit(ps[1..][i]).Next? {
        assert ps[1..][i] == ps[i + 1];
      }
    }
  }

  /**
   * The walk visits every device without returning iff every Type read and
   * every battery's first watch succeed, as the aborting variant requires;
   * then it watched exactly the batteries, in order, once each, and returns 0.
   */
  lemma {:induction false} WalkSucceeds(ps: seq<Probe>)
    ensures Clean(ps) <==>
      UPower.FirstTypeFailure(Devs(ps)) == |ps|
      && forall d :: d in UPower.Batteries(Devs(ps)) ==> PowerMonBin.WatchSucceeds(d)
    ensures Clean(ps) ==> Walk(ps) == Walked(UPower.Batteries(Devs(ps)), 0)
    decreases |ps|
  {
    if ps != [] {
      var p := ps[0];
      var rest := ps[1..];
      WalkSucceeds(rest);
      CleanCons(ps);
      BatteriesCons(p.dev, Devs(rest));
      assert Devs(ps) == [p.dev] + Devs(rest);
      if p.dev.typ.Ok? && UPower.IsBattery(p.dev) && !PowerMonBin.WatchSucceeds(p.dev) {
        assert p.dev in UPower.Batteries(Devs(ps));
      }
      if !Clean(rest) && Visit(p).Next? && UPower.FirstTypeFailure(Devs(rest)) == |rest| {
        var d :| d in UPower.Batteries(Devs(rest)) && !PowerMonBin.WatchSucceeds(d);
        assert d in UPower.Batteries(Devs(ps));
      }
    }
  }

  /**
   * When no device makes the walk return, the daemon registers exactly the
   * matches the aborting variant registers for the same batteries.
   */
  lemma CleanWalkMatchesAll(ps: seq<Probe>)
    requires Clean(ps)
    ensures forall d :: d in UPower.Batteries(Devs(ps)) ==> PowerMonBin.WatchSucceeds(d)
    ensures Matches(Walk(ps).watched) == PowerMonBin.Matches(UPower.Batteries(Devs(ps)))
  {
    WalkSucceeds(ps);
    var bs := UPower.Batteries(Devs(ps));
    MatchesOfRuns(bs);
    assert forall j :: 0 <= j < |bs| ==> PowerMonBin.WatchSucceeds(bs[j]) by {
      forall j | 0 <= j < |bs| ensures PowerMonBin.WatchSucceeds(bs[j]) {
        assert bs[j] in bs;
      }
    }
  }

  /** The batteries of a list with one more device in front. */
  lemma BatteriesCons(d: UPower.Device, ds: seq<UPower.Device>)
    ensures UPower.Batteries([d] + ds) == (if UPower.IsBattery(d) then [d] else []) + UPower.Batteries(ds)
  {
    var one := [d];
    assert one[..|one| - 1] == [] && one[|one| - 1] == d;
    assert UPower.Batteries(one) == (if UPower.IsBattery(d) then [d] else []);
    UPower.BatteriesAppend(one, ds);
  }

  /** A walk without a `return` is followed by the walk of what comes after it. */
  lemma {:induction false} WalkAppend(a: seq<Probe>, b: seq<Probe>)
    requires Clean(a)
    ensures Walk(a + b) == Walked(Walk(a).watched + Walk(b).watched, Walk(b).code)
    decreases |a|
  {
    if a == [] {
      assert a + b == b;
    } else {
      assert (a + b)[0] == a[0];
      assert (a + b)[1..] == a[1..] + b;
      assert Clean(a[1..]) by {
        forall i | 0 <= i < |a[1..]| ensures Visit(a[1..][i]).Next? {
          assert a[1..][i] == a[i + 1];
        }
      }
      WalkAppend(a[1..], b);
    }
  }

  /**
   * The walk ends at the first device whose visit returns: the batteries
   * before it were watched once each, then that visit's runs, and its code
   * is returned; the devices after it are never visited.
   */
  lemma StopsAtFirstReturn(pre: seq<Probe>, p: Probe, post: seq<Probe>)
    requires Clean(pre) && Visit(p).Return?
    ensures Walk(pre + [p] + post) == Walked(UPower.Batteries(Devs(pre)) + Visit(p).watched, Visit(p).code)
  {
    WalkSucceeds(pre);
    WalkAppend(pre, [p] + post);
    assert pre + [p] + post == pre + ([p] + post);
    assert ([p] + post)[0] == p;
  }

  /**
   * A battery whose first `watch_battery` fails is watched three times, so
   * three records are pushed for it, and the third run's code ends the walk.
   * When that third run succeeds, the walk returns 0 although the devices
   * after it were never watched, and the third record holds a match slot.
   */
  lemma FailingBatteryWatchedThrice(pre: seq<Probe>, p: Probe, post: seq<Probe>)
    requires Clean(pre)
    requires UPower.IsBattery(p.dev) && !PowerMonBin.WatchSucceeds(p.dev)
    ensures Walk(pre + [p] + post) ==
      Walked(UPower.Batteries(Devs(pre)) + [p.dev, LogRun(p), ReturnRun(p)], WatchCode(ReturnRun(p)))
    ensures PowerMonBin.WatchSucceeds(ReturnRun(p)) ==>
      Walk(pre + [p] + post).code == 0 && WatchedSlot(ReturnRun(p)) == Some(p.dev.path)
  {
    StopsAtFirstReturn(pre, p, post);
  }

  /** EXIT_SUCCESS iff the last stored code is non-negative. */
  function ExitCode(r: int): (e: int)
    ensures e == EXIT_SUCCESS <==> r >= 0
    ensures e == EXIT_FAILURE <==> r < 0
  {
    if r < 0 then EXIT_FAILURE else EXIT_SUCCESS
  }

  /** The exit status expression of `main` as written. */
  function ExitCodeAsWritten(r: int): (e: int)
    ensures e == EXIT_FAILURE <==> ExitCode(r) == EXIT_SUCCESS
  {
    if r < 0 then EXIT_SUCCESS else EXIT_FAILURE
  }

  /**
   * As written, a run whose setup and enumeration both succeed (code 0, the
   * event loop's result is never stored) exits with EXIT_FAILURE, and a failed
   * setup exits with EXIT_SUCCESS.
   */
  lemma ExitCodeInverted(e: Errno)
    ensures ExitCodeAsWritten(0) == EXIT_FAILURE && ExitCode(0) == EXIT_SUCCESS
    ensures ExitCodeAsWritten(e) == EXIT_SUCCESS && ExitCode(e) == EXIT_FAILURE
  {
  }

  /** The level `main` hands to log_init as written: -1 for an unknown name, unchecked. */
  function LevelArgAsWritten(arg: string): (r: int)
    ensures r == -1 <==> Log.ParseLevel(arg).None?
    ensures r != -1 ==> r == Log.Ord(Log.ParseLevel(arg).value)
  {
    if Log.ParseLevel(arg).Some? then Log.Ord(Log.ParseLevel(arg).value) else -1
  }

  /** An unknown level name gives an index outside the five rows of `log_level_map`. */
  lemma UnknownLevelOutsideMap()
    ensures var r := LevelArgAsWritten("verbose"); !(0 <= r < |Log.LEVEL_NAMES|)
  {
  }

  /** The checked level: an unknown name is refused, as the aborting variant does. */
  function LevelArg(arg: string): (r: Option<Log.LogClass>)
    ensures r.None? <==> arg !in Log.LEVEL_NAMES
    ensures r.Some? ==> 0 <= Log.Ord(r.value) < |Log.LEVEL_NAMES| && Log.Name(r.value) == arg
  {
    Log.ParseName(if Log.ParseLevel(arg).Some? then Log.ParseLevel(arg).value else Log.NoneClass);
    Log.ParseLevel(arg)
  }

  /**
   * The releases of a list made of the records `olds` followed by those
   * `watch_battery` left for the runs `w`.
   */
  lemma ReleasesAfterWalk(olds: seq<Record>, bs: seq<Record>, w: seq<UPower.Device>)
    requires |bs| == |olds| + |w| && bs[..|olds|] == olds
    requires forall j :: 0 <= j < |w| ==>
      bs[|olds| + j].Snap() == WatchedSnapshot(w[j]) && bs[|olds| + j].slot == WatchedSlot(w[j])
    ensures PowerMonBin.Releases(bs) == PowerMonBin.Releases(olds) + SlotsReleased(w)
  {
    var added := bs[|olds|..];
    assert bs == olds + added;
    forall j | 0 <= j < |w| ensures added[j].slot == WatchedSlot(w[j]) {
      assert added[j] == bs[|olds| + j];
    }
    ReleasesAppend(olds, added);
    ReleasesOfRuns(added, w);
  }

  /** The releases of the records left for the runs `w` are the slots those runs set, in order. */
  lemma ReleasesOfRuns(rs: seq<Record>, w: seq<UPower.Device>)
    requires |rs| == |w| && forall j :: 0 <= j < |w| ==> rs[j].slot == WatchedSlot(w[j])
    ensures PowerMonBin.Releases(rs) == SlotsReleased(w)
  {
    PowerMonBin.ReleasesInOrder(rs);
  }

  /** Releasing two lists of records one after the other. */
  lemma {:induction false} ReleasesAppend(a: seq<Record>, b: seq<Record>)
    ensures PowerMonBin.Releases(a + b) == PowerMonBin.Releases(a) + PowerMonBin.Releases(b)
    decreases |a|
  {
    if a == [] {
      assert a + b == b;
    } else {
      assert (a + b)[0] == a[0] && (a + b)[1..] == a[1..] + b;
      ReleasesAppend(a[1..], b);
    }
  }

  /** `powermon_data` of the error-returning variant. */
  class PowerMon {
    var batteries: seq<Record>
    var notifId: uint32
    /** The outgoing bus calls made so far, in order. */
    ghost var actions: seq<Action>

    constructor ()
      ensures batteries == [] && notifId == 0 && actions == []
    {
      batteries := [];
      notifId := 0;
      actions := [];
    }

    /** on_battery_changed for the record `b`. */
    method OnBatteryChanged(b: Record, sig: Signal, server: Notify.Server, retry: Notify.Server, closeReply: Reply<nat>) returns (status: Status)
      modifies this, b
      ensures var st := HandleSignal(old(b.Snap()), old(notifId), sig, server, retry, closeReply);
        b.Snap() == st.snap && notifId == st.notifId && actions == old(actions) + st.calls && status == st.status
      ensures batteries == old(batteries) && b.slot == old(b.slot)
    {
      if sig.iface != DEVICE_IFACE {
        return Success;
      }
      var failedAt := b.ApplyEntries(sig.entries);
      if failedAt.Some? {
        return Failure(TYPE_MISMATCH);
      }
      if b.state == UPower.STATE_DISCHARGING {
        if b.level == UPower.LEVEL_LOW || b.percentage < 20.0 {
          var notif := LowBatteryNotification(APP, notifId);
          var r, sent, id := Notify.Notify(notif, server, Some(notifId));
          actions := actions + [Notified(sent)];
          if r < 0 {
            // The macro's log message evaluates the call a second time.
            r, sent, id := Notify.Notify(notif, retry, Some(notifId));
            actions := actions + [Notified(sent)];
            notifId := id.value;
            return Success;
          }
          notifId := id.value;
        }
      } else {
        if notifId != 0 {
          actions := actions + [Closed(notifId)];
          if closeReply.Fail? {
            actions := actions + [Closed(notifId)];
            return Success;
          }
        }
      }
      return Success;
    }

    /**
     * watch_battery: append a fresh record, fill it field by field, and on the
     * first failing read return its code with the record left as it is.
     */
    method WatchBattery(d: UPower.Device) returns (r: int)
      modifies this
      ensures r == WatchCode(d) && notifId == old(notifId)
      ensures |batteries| == |old(batteries)| + 1 && batteries[..|old(batteries)|] == old(batteries)
      ensures fresh(batteries[|old(batteries)|])
      ensures batteries[|old(batteries)|].Snap() == WatchedSnapshot(d)
      ensures batteries[|old(batteries)|].slot == WatchedSlot(d)
      ensures actions == old(actions) + (if PowerMonBin.WatchSucceeds(d) then [Matched(d.path, WatchedSnapshot(d))] else [])
    {
      var b := new Record();
      batteries := batteries + [b];
      if d.percentage.Fail? {
        return d.percentage.errno;
      }
      b.percentage := d.percentage.value;
      if d.level.Fail? {
        return d.level.errno;
      }
      b.level := d.level.value;
      if d.state.Fail? {
        return d.state.errno;
      }
      b.state := d.state.value;
      if d.watch.Fail? {
        return d.watch.errno;
      }
      b.slot := Some(d.path);
      actions := actions + [Matched(d.path, b.Snap())];
      return 0;
    }

    /**
     * for_all_batteries with watch_battery as the callback: one record per
     * callback run, in order, and the code of the walk.
     */
    method ForAllBatteries(upower: Service) returns (r: int)
      modifies this
      ensures r == EnumerationCode(upower) && notifId == old(notifId)
      ensures var w := Runs(upower);
        && |batteries| == |old(batteries)| + |w|
        && batteries[..|old(batteries)|] == old(batteries)
        && forall j :: 0 <= j < |w| ==>
             batteries[|old(batteries)| + j].Snap() == WatchedSnapshot(w[j])
             && batteries[|old(batteries)| + j].slot == WatchedSlot(w[j])
      ensures actions == old(actions) + Matches(Runs(upower))
    {
      if upower.enumerate.Fail? {
        return upower.enumerateReturn;
      }
      r := WalkAll(upower.enumerate.value);
    }

    /** The loop of for_all_batteries over the enumerated devices, up to the end or the first `return`. */
    method WalkAll(ps: seq<Probe>) returns (r: int)
      modifies this
      ensures r == Walk(ps).code && notifId == old(notifId)
      ensures |old(batteries)| <= |batteries| && batteries[..|old(batteries)|] == old(batteries)
      ensures RecordsFor(|old(batteries)|, Walk(ps).watched)
      ensures actions == old(actions) + Matches(Walk(ps).watched)
    {
      var n0 := |batteries|;
      var watched: seq<UPower.Device> := [];
      var i := 0;
      while i < |ps|
        invariant 0 <= i <= |ps|
        invariant notifId == old(notifId)
        invariant Walk(ps) == Walked(watched + Walk(ps[i..]).watched, Walk(ps[i..]).code)
        invariant |batteries| == n0 + |watched| && batteries[..n0] == old(batteries)
        invariant RecordsFor(n0, watched)
        invariant actions == old(actions) + Matches(watched)
      {
        ghost var before := actions;
        var v := VisitDevice(ps[i], n0, watched);
        WalkLoopStep(ps, i, watched);
        MatchesStep(old(actions), before, actions, watched, v.watched);
        watched := watched + v.watched;
        if v.Return? {
          ghost var all := Walk(ps).watched;
          assert all == watched;
          return v.code;
        }
        i := i + 1;
      }
      assert ps[|ps|..] == [];
      ghost var all := Walk(ps).watched;
      assert all == watched + [] == watched;
      return 0;
    }

    /** The records from position `n0` on are those `watch_battery` left for the runs `w`. */
    ghost predicate RecordsFor(n0: nat, w: seq<UPower.Device>)
      reads this, batteries
    {
      && |batteries| == n0 + |w|
      && forall j :: 0 <= j < |w| ==>
           batteries[n0 + j].Snap() == WatchedSnapshot(w[j]) && batteries[n0 + j].slot == WatchedSlot(w[j])
    }

    /** The loop body, keeping the records pushed for earlier devices as they are. */
    method VisitDevice(p: Probe, n0: nat, done: seq<UPower.Device>) returns (v: Visited)
      requires n0 <= |batteries| && RecordsFor(n0, done)
      modifies this
      ensures v == Visit(p) && notifId == old(notifId)
      ensures n0 <= |batteries| && batteries[..n0] == old(batteries)[..n0] && RecordsFor(n0, done + v.watched)
      ensures actions == old(actions) + Matches(v.watched)
    {
      ghost var before := batteries;
      v := VisitOnce(p);
      forall j | 0 <= j < |done + v.watched|
        ensures batteries[n0 + j].Snap() == WatchedSnapshot((done + v.watched)[j])
        ensures batteries[n0 + j].slot == WatchedSlot((done + v.watched)[j])
      {
        if j < |done| {
          assert batteries[n0 + j] == before[n0 + j];
        } else {
          assert batteries[n0 + j] == batteries[|before| + (j - |done|)];
        }
      }
      assert batteries[..n0] == before[..n0];
    }

    /** Read the device's Type and, for a battery, run the callback through SD_TRY. */
    method VisitOnce(p: Probe) returns (v: Visited)
      modifies this
      ensures v == Visit(p) && notifId == old(notifId)
      ensures |batteries| == |old(batteries)| + |v.watched| && batteries[..|old(batteries)|] == old(batteries)
      ensures forall j :: 0 <= j < |v.watched| ==>
        batteries[|old(batteries)| + j].Snap() == WatchedSnapshot(v.watched[j])
        && batteries[|old(batteries)| + j].slot == WatchedSlot(v.watched[j])
      ensures actions == old(actions) + Matches(v.watched)
    {
      var d := p.dev;
      if d.typ.Fail? {
        return Return([], p.typeReturn);
      }
      if d.typ.value != UPower.DEVICE_BATTERY {
        return Next([]);
      }
      var c := WatchBattery(d);
      if c < 0 {
        c := WatchAgain(p);
        MatchesAppend([d], [LogRun(p), ReturnRun(p)]);
        return Return([d, LogRun(p), ReturnRun(p)], c);
      }
      return Next([d]);
    }

    /**
     * The two further runs SD_TRY makes of a failing callback, for its log
     * message and for its return value, each on the replies it gets.
     */
    method WatchAgain(p: Probe) returns (r: int)
      modifies this
      ensures r == WatchCode(ReturnRun(p)) && notifId == old(notifId)
      ensures |batteries| == |old(batteries)| + 2 && batteries[..|old(batteries)|] == old(batteries)
      ensures batteries[|old(batteries)|].Snap() == WatchedSnapshot(LogRun(p))
      ensures batteries[|old(batteries)|].slot == WatchedSlot(LogRun(p))
      ensures batteries[|old(batteries)| + 1].Snap() == WatchedSnapshot(ReturnRun(p))
      ensures batteries[|old(batteries)| + 1].slot == WatchedSlot(ReturnRun(p))
      ensures actions == old(actions) + Matches([LogRun(p), ReturnRun(p)])
    {
      var n0 := |batteries|;
      r := WatchBattery(LogRun(p));
      ghost var b1 := batteries;
      r := WatchBattery(ReturnRun(p));
      assert batteries[..n0] == b1[..n0];
      assert batteries[n0] == b1[n0];
      MatchesAppend([LogRun(p)], [ReturnRun(p)]);
    }

    /** Clean-up: release every record's slot, free it and unlink it. */
    method ReleaseAll()
      modifies this
      ensures batteries == [] && notifId == old(notifId)
      ensures actions == old(actions) + PowerMonBin.Releases(old(batteries))
    {
      while batteries != []
        invariant notifId == old(notifId)
        invariant actions + PowerMonBin.Releases(batteries) == old(actions) + PowerMonBin.Releases(old(batteries))
        decreases |batteries|
      {
        var b := batteries[0];
        actions := actions + [SlotReleased(b.slot)];
        batteries := batteries[1..];
      }
    }

    /** The successful path of `main`: watch every battery, then release every slot. */
    method WatchThenRelease(upower: Service) returns (r: int)
      modifies this
      ensures r == EnumerationCode(upower)
      ensures batteries == [] && notifId == old(notifId)
      ensures actions == old(actions) + Matches(Runs(upower))
        + PowerMonBin.Releases(old(batteries)) + SlotsReleased(Runs(upower))
    {
      r := ForAllBatteries(upower);
      ghost var w := Runs(upower);
      ReleasesAfterWalk(old(batteries), batteries, w);
      ghost var walked := actions;
      ghost var released := PowerMonBin.Releases(old(batteries));
      ReleaseAll();
      assert PowerMonBin.Releases(old(batteries)) == released;
      assert actions == walked + (released + SlotsReleased(w));
    }

    /**
     * `main` after option parsing: set up the loop and buses (`setup`), watch
     * the batteries, then clean up and exit. The event loop's own result is
     * never stored, so it does not reach the exit status.
     */
    method Run(setup: Reply<()>, upower: Service) returns (exit: int)
      modifies this
      ensures exit == ExitCode(if setup.Fail? then setup.errno else EnumerationCode(upower))
      ensures batteries == [] && notifId == old(notifId)
      ensures var w := if setup.Ok? then Runs(upower) else [];
        actions == old(actions) + Matches(w) + PowerMonBin.Releases(old(batteries)) + SlotsReleased(w)
    {
      var r;
      if setup.Fail? {
        ReleaseAll();
        r := setup.errno;
      } else {
        r := WatchThenRelease(upower);
      }
      exit := ExitCode(r);
    }
  }
}
