/**
 * The UPower numberings and the battery enumeration of src/bin/powermon/upower.h
 * (src/daemon/powermon/upower.h is a byte-identical copy).
 */
module UPower {
  import opened Common

  /** `enum upower_state`. */
  datatype State = Unknown | Charging | Discharging | Empty | FullyCharged | PendingCharge | PendingDischarge

  function StateCode(s: State): (u: uint32)
    ensures u <= 6
  {
    match s
    case Unknown => 0
    case Charging => 1
    case Discharging => 2
    case Empty => 3
    case FullyCharged => 4
    case PendingCharge => 5
    case PendingDischarge => 6
  }

  /** Reading a `State` value off the bus: codes above 6 name no state. */
  function StateOf(u: uint32): (s: Option<State>)
    ensures s.Some? <==> u <= 6
  {
    if u == 0 then Some(Unknown) else if u == 1 then Some(Charging)
    else if u == 2 then Some(Discharging) else if u == 3 then Some(Empty)
    else if u == 4 then Some(FullyCharged) else if u == 5 then Some(PendingCharge)
    else if u == 6 then Some(PendingDischarge) else None
  }

  /** The state numbering is a bijection between the seven states and 0..6. */
  lemma StateNumbering(s: State, u: uint32)
    ensures StateOf(StateCode(s)) == Some(s)
    ensures StateOf(u).Some? ==> StateCode(StateOf(u).value) == u
  {
  }

  /** UPOWER_STATE_DISCHARGING. */
  const STATE_DISCHARGING: uint32 := StateCode(Discharging)

  /** UPOWER_DEVICE_BATTERY: the third entry of `enum upower_device_type`. */
  const DEVICE_BATTERY: uint32 := 2

  /** `enum upower_battery_level`. */
  datatype Level = LevelUnknown | LevelNone | Low | Critical | Normal | High | Full

  function LevelCode(l: Level): (u: uint32)
    ensures u <= 6
  {
    match l
    case LevelUnknown => 0
    case LevelNone => 1
    case Low => 2
    case Critical => 3
    case Normal => 4
    case High => 5
    case Full => 6
  }

  function LevelOf(u: uint32): (l: Option<Level>)
    ensures l.Some? <==> u <= 6
  {
    if u == 0 then Some(LevelUnknown) else if u == 1 then Some(LevelNone)
    else if u == 2 then Some(Low) else if u == 3 then Some(Critical)
    else if u == 4 then Some(Normal) else if u == 5 then Some(High)
    else if u == 6 then Some(Full) else None
  }

  lemma LevelNumbering(l: Level, u: uint32)
    ensures LevelOf(LevelCode(l)) == Some(l)
    ensures LevelOf(u).Some? ==> LevelCode(LevelOf(u).value) == u
  {
  }

  const LEVEL_LOW: uint32 := LevelCode(Low)
  const LEVEL_CRITICAL: uint32 := LevelCode(Critical)

  /** The named constants have the values UPower documents. */
  lemma Constants()
    ensures STATE_DISCHARGING == 2 && DEVICE_BATTERY == 2
    ensures LEVEL_LOW == 2 && LEVEL_CRITICAL == 3
  {
  }

  /**
   * One object path returned by UPower's EnumerateDevices, with the replies
   * the daemon gets when it reads that device's properties and subscribes to it.
   */
  datatype Device = Device(
    path: string,
    typ: Reply<uint32>,
    percentage: Reply<real>,
    level: Reply<uint32>,
    state: Reply<uint32>,
    watch: Reply<()>)

  /** The UPower service as the daemon sees it: the reply to EnumerateDevices. */
  datatype Service = Service(enumerate: Reply<seq<Device>>)

  function IsBattery(d: Device): (b: bool)
    ensures b ==> d.typ.Ok? && d.typ.value == DEVICE_BATTERY
    ensures d.typ.Fail? ==> !b
  {
    d.typ == Ok(DEVICE_BATTERY)
  }

  /** The devices whose Type reads as BATTERY, in enumeration order. */
  function Batteries(devs: seq<Device>): (bs: seq<Device>)
    ensures |bs| <= |devs|
    ensures forall d :: d in bs ==> d in devs && IsBattery(d)
  {
    if devs == [] then []
    else Batteries(devs[..|devs| - 1]) + (if IsBattery(devs[|devs| - 1]) then [devs[|devs| - 1]] else [])
  }

  /** Batteries distributes over concatenation: enumeration order is kept. */
  lemma {:induction false} BatteriesAppend(a: seq<Device>, b: seq<Device>)
    ensures Batteries(a + b) == Batteries(a) + Batteries(b)
    decreases |b|
  {
    if b == [] {
      assert a + b == a;
    } else {
      var b', x := b[..|b| - 1], b[|b| - 1];
      var tail := if IsBattery(x) then [x] else [];
      assert (a + b)[..|a + b| - 1] == a + b';
      assert (a + b)[|a + b| - 1] == x;
      assert Batteries(a + b) == Batteries(a + b') + tail;
      assert Batteries(b) == Batteries(b') + tail;
      BatteriesAppend(a, b');
      assert Batteries(a) + Batteries(b') + tail == Batteries(a) + (Batteries(b') + tail);
    }
  }

  /** Every battery of the list is kept exactly as often as it occurs. */
  lemma {:induction false} BatteriesCount(devs: seq<Device>, d: Device)
    ensures multiset(Batteries(devs))[d] == if IsBattery(d) then multiset(devs)[d] else 0
    decreases |devs|
  {
    if devs != [] {
      var init := devs[..|devs| - 1];
      assert devs == init + [devs[|devs| - 1]];
      BatteriesCount(init, d);
    }
  }

  /** A device that does not read as BATTERY adds no callback. */
  lemma NonBatterySkipped(devs: seq<Device>, d: Device)
    requires !IsBattery(d)
    ensures Batteries(devs + [d]) == Batteries(devs)
  {
    assert (devs + [d])[..|devs + [d]| - 1] == devs;
  }

  /** The outcome of the aborting `for_all_batteries`. */
  datatype Enumeration = Completed(calls: seq<Device>) | Aborted(calls: seq<Device>)

  /** Index of the first device whose Type read fails, or |devs| when none does. */
  function FirstTypeFailure(devs: seq<Device>): (k: nat)
    ensures k <= |devs|
    ensures forall j :: 0 <= j < k ==> devs[j].typ.Ok?
    ensures k < |devs| ==> devs[k].typ.Fail?
  {
    if devs == [] then 0
    else if devs[0].typ.Fail? then 0
    else 1 + FirstTypeFailure(devs[1..])
  }

  /**
   * for_all_batteries (bin variant): enumerate the devices, read each one's Type
   * and invoke the callback on the batteries, in order. A failing bus call aborts
   * the process; `calls` lists the callback invocations made before that.
   */
  method ForAllBatteries(upower: Service) returns (r: Enumeration)
    ensures upower.enumerate.Fail? ==> r == Aborted([])
    ensures upower.enumerate.Ok? ==>
      var devs := upower.enumerate.value;
      var k := FirstTypeFailure(devs);
      r == if k == |devs| then Completed(Batteries(devs)) else Aborted(Batteries(devs[..k]))
  {
    if upower.enumerate.Fail? {
      return Aborted([]);
    }
    var devs := upower.enumerate.value;
    var calls: seq<Device> := [];
    var i := 0;
    while i < |devs|
      invariant 0 <= i <= |devs|
      invariant forall j :: 0 <= j < i ==> devs[j].typ.Ok?
      invariant calls == Batteries(devs[..i])
    {
      var d := devs[i];
      if d.typ.Fail? {
        FirstFailureAt(devs, i);
        return Aborted(calls);
      }
      assert devs[..i + 1][..i] == devs[..i];
      if d.typ.value == DEVICE_BATTERY {
        calls := calls + [d];
      }
      i := i + 1;
    }
    FirstFailureAt(devs, |devs|);
    assert devs[..|devs|] == devs;
    return Completed(calls);
  }

  lemma {:induction false} FirstFailureAt(devs: seq<Device>, i: nat)
    requires i <= |devs|
    requires forall j :: 0 <= j < i ==> devs[j].typ.Ok?
    requires i < |devs| ==> devs[i].typ.Fail?
    ensures FirstTypeFailure(devs) == i
    decreases i
  {
    if i > 0 {
      FirstFailureAt(devs[1..], i - 1);
    }
  }
}
