/**
 * What src/daemon/usound/main.c and src/daemon/soundmon/main.c share: the
 * registry filter that decides which PipeWire globals are audio devices, the
 * `device_data` record, and how a Props parameter updates a device.
 */
module Audio {
  import opened Common

  /** `enum device_kind`. */
  datatype DeviceKind = KindUnknown | Source | Sink

  /** A `spa_dict` of global properties, in item order. */
  type Dict = seq<(string, string)>

  const KEY_MEDIA_CLASS: string := "media.class"
  const KEY_NODE_NAME: string := "node.name"
  const KEY_NODE_DESCRIPTION: string := "node.description"

  /** spa_dict_lookup on an unsorted dictionary: the value of the first item with that key. */
  function Lookup(props: Dict, key: string): (r: Option<string>)
    ensures r.None? <==> forall i :: 0 <= i < |props| ==> props[i].0 != key
    ensures r.Some? ==> exists i :: && 0 <= i < |props| && props[i] == (key, r.value)
                                    && forall j :: 0 <= j < i ==> props[j].0 != key
  {
    if props == [] then None
    else if props[0].0 == key then Some(props[0].1)
    else
      var r := Lookup(props[1..], key);
      if r.Some? then
        ghost var i :| && 0 <= i < |props[1..]| && props[1..][i] == (key, r.value)
                       && forall j :: 0 <= j < i ==> props[1..][j].0 != key;
        assert props[i + 1] == (key, r.value);
        assert forall j :: 0 < j < i + 1 ==> props[j] == props[1..][j - 1];
        r
      else r
  }

  /**
   * The device kind of a global: none for an empty dictionary or a missing
   * media class, Sink for "Audio/Sink", Source for "Audio/Source", none
   * otherwise.
   */
  function KindOf(props: Dict): (k: Option<DeviceKind>)
    ensures k.Some? ==> k.value != KindUnknown && props != []
    ensures k == Some(Sink) <==> props != [] && Lookup(props, KEY_MEDIA_CLASS) == Some("Audio/Sink")
    ensures k == Some(Source) <==> props != [] && Lookup(props, KEY_MEDIA_CLASS) == Some("Audio/Source")
  {
    if props == [] then None
    else match Lookup(props, KEY_MEDIA_CLASS)
      case None => None
      case Some(c) =>
        var kind := if c == "Audio/Sink" then Sink else if c == "Audio/Source" then Source else KindUnknown;
        if kind == KindUnknown then None else Some(kind)
  }

  /** Only the first media.class item counts: a later one changes nothing about the kind. */
  lemma FirstMediaClassDecides(props: Dict, later: string)
    requires props != [] && Lookup(props, KEY_MEDIA_CLASS).Some?
    ensures KindOf(props + [(KEY_MEDIA_CLASS, later)]) == KindOf(props)
  {
    LookupAppend(props, [(KEY_MEDIA_CLASS, later)], KEY_MEDIA_CLASS);
  }

  /** So a global whose first class is not an audio one stays out, whatever follows. */
  lemma VideoNodeStaysOut(props: Dict, later: string)
    requires Lookup(props, KEY_MEDIA_CLASS) == Some("Video/Source")
    ensures KindOf(props + [(KEY_MEDIA_CLASS, later)]) == None
  {
    FirstMediaClassDecides(props, later);
  }

  /** Appending items never changes a key the dictionary already holds. */
  lemma {:induction false} LookupAppend(a: Dict, b: Dict, key: string)
    requires Lookup(a, key).Some?
    ensures Lookup(a + b, key) == Lookup(a, key)
    decreases |a|
  {
    if a[0].0 != key {
      assert (a + b)[1..] == a[1..] + b;
      LookupAppend(a[1..], b, key);
    }
  }

  /** SPA_PARAM_Props, the parameter id the daemons subscribe to (from PipeWire's spa/param/param.h). */
  const PARAM_PROPS: uint32 := 2

  /** PW_NODE_CHANGE_MASK_PARAMS, bit 4 of a node info change mask (from PipeWire's pipewire/node.h). */
  const CHANGE_MASK_PARAMS: bv64 := 1 << 4

  /** on_info_changed: parameters are re-enumerated exactly when the PARAMS bit (bit 4) is set. */
  function RequestsParams(changeMask: bv64): (b: bool)
    ensures b <==> (changeMask >> 4) & 1 == 1
  {
    changeMask & CHANGE_MASK_PARAMS != 0
  }

  /** SPA_AUDIO_MAX_CHANNELS: the capacity of the channel buffer (from PipeWire's spa/param/audio/raw.h). */
  const MAX_CHANNELS: nat := 64

  /** One property of a Props object: channelVolumes, mute, or any other key (skipped). */
  datatype Prop = ChannelVolumes(values: seq<real>) | Mute(muted: bool) | OtherProp(key: uint32)

  /**
   * A device's volume, kept symbolically: zero as allocated, or the mean of
   * `cbrt(c) * 100` over the copied channels (a division by zero when none was copied).
   */
  datatype Volume = ZeroVolume | CubeRootMean(channels: seq<real>)

  /** The fields a Props parameter updates. */
  datatype Levels = Levels(volume: Volume, muted: bool)

  /** spa_pod_copy_array into the channel buffer: at most MAX_CHANNELS values are kept. */
  function CopiedChannels(values: seq<real>): (c: seq<real>)
    ensures |c| <= MAX_CHANNELS && c <= values
    ensures |values| <= MAX_CHANNELS ==> c == values
  {
    if |values| <= MAX_CHANNELS then values else values[..MAX_CHANNELS]
  }

  /** One iteration of SPA_POD_OBJECT_FOREACH: a property sets its own field and no other. */
  function ApplyProp(l: Levels, p: Prop): (r: Levels)
    ensures r.muted == if p.Mute? then p.muted else l.muted
    ensures r.volume == if p.ChannelVolumes? then CubeRootMean(CopiedChannels(p.values)) else l.volume
  {
    match p
    case ChannelVolumes(vs) => l.(volume := CubeRootMean(CopiedChannels(vs)))
    case Mute(m) => l.(muted := m)
    case OtherProp(_) => l
  }

  /** The whole property loop, in object order; an object of skipped keys changes nothing. */
  function ApplyProps(l: Levels, ps: seq<Prop>): (r: Levels)
    ensures (forall i :: 0 <= i < |ps| ==> ps[i].OtherProp?) ==> r == l
  {
    if ps == [] then l else ApplyProp(ApplyProps(l, ps[..|ps| - 1]), ps[|ps| - 1])
  }

  /** The property name a Prop adds to the changed list, if any. */
  function ChangedName(p: Prop, volumeName: string): Option<string> {
    match p
    case ChannelVolumes(_) => Some(volumeName)
    case Mute(_) => Some("Muted")
    case OtherProp(_) => None
  }

  predicate HasVolume(ps: seq<Prop>) {
    exists i :: 0 <= i < |ps| && ps[i].ChannelVolumes?
  }

  predicate HasMute(ps: seq<Prop>) {
    exists i :: 0 <= i < |ps| && ps[i].Mute?
  }

  /** The slots of `changed[2 + 1]` before its NULL sentinel. */
  const CHANGED_SLOTS: nat := 2

  /**
   * The names `changed[n_changed++] = ...` writes as written: one per
   * recognised property, in object order, with no bound and no check for a
   * name already listed. A name's position is the slot it is written to.
   */
  function ChangedNamesAsWritten(ps: seq<Prop>, volumeName: string): (w: seq<string>)
    ensures |w| <= |ps|
    ensures forall n :: n in w ==> n == volumeName || n == "Muted"
  {
    if ps == [] then []
    else
      var prev := ChangedNamesAsWritten(ps[..|ps| - 1], volumeName);
      match ChangedName(ps[|ps| - 1], volumeName)
      case None => prev
      case Some(n) => prev + [n]
  }

  /**
   * Three mute properties in one Props object write "Muted" three times: the
   * third write lands on the NULL sentinel (slot 2), and a fourth would land
   * past the three-slot array.
   */
  lemma ChangedOverflow(volumeName: string)
    ensures var w := ChangedNamesAsWritten([Mute(true), Mute(false), Mute(true)], volumeName);
      w == ["Muted", "Muted", "Muted"] && |w| > CHANGED_SLOTS
    ensures |ChangedNamesAsWritten([Mute(true), Mute(false), Mute(true), Mute(false)], volumeName)| == CHANGED_SLOTS + 2
  {
    var one, two, three := [Mute(true)], [Mute(true), Mute(false)], [Mute(true), Mute(false), Mute(true)];
    var four := [Mute(true), Mute(false), Mute(true), Mute(false)];
    assert one[..0] == [] && two[..1] == one && three[..2] == two && four[..3] == three;
    assert ChangedNamesAsWritten(one, volumeName) == ["Muted"];
    assert ChangedNamesAsWritten(two, volumeName) == ["Muted", "Muted"];
    assert ChangedNamesAsWritten(three, volumeName) == ["Muted", "Muted", "Muted"];
  }

  /** Without skipped properties, every property writes one slot. */
  lemma {:induction false} RecognisedAllWritten(ps: seq<Prop>, volumeName: string)
    requires forall i :: 0 <= i < |ps| ==> !ps[i].OtherProp?
    ensures |ChangedNamesAsWritten(ps, volumeName)| == |ps|
    decreases |ps|
  {
    if ps != [] {
      RecognisedAllWritten(ps[..|ps| - 1], volumeName);
    }
  }

  /** A Props object carrying each of channelVolumes and mute at most once, as PipeWire builds them. */
  predicate EachKeyOnce(ps: seq<Prop>) {
    forall i, j :: 0 <= i < j < |ps| ==>
      !(ps[i].ChannelVolumes? && ps[j].ChannelVolumes?) && !(ps[i].Mute? && ps[j].Mute?)
  }

  /** The names written so far are those of the recognised properties seen so far. */
  lemma {:induction false} AsWrittenNames(ps: seq<Prop>, volumeName: string, n: string)
    requires n in ChangedNamesAsWritten(ps, volumeName)
    ensures exists i :: 0 <= i < |ps| && ChangedName(ps[i], volumeName) == Some(n)
    decreases |ps|
  {
    var init := ps[..|ps| - 1];
    if n in ChangedNamesAsWritten(init, volumeName) {
      AsWrittenNames(init, volumeName, n);
      var i :| 0 <= i < |init| && ChangedName(init[i], volumeName) == Some(n);
      assert ps[i] == init[i];
    } else {
      assert ChangedName(ps[|ps| - 1], volumeName) == Some(n);
    }
  }

  /** On such an object the as-written names and the deduplicated list coincide. */
  lemma {:induction false} AsWrittenWhenEachKeyOnce(ps: seq<Prop>, volumeName: string)
    requires volumeName != "Muted" && EachKeyOnce(ps)
    ensures ChangedNamesAsWritten(ps, volumeName) == ChangedNames(ps, volumeName)
    ensures |ChangedNamesAsWritten(ps, volumeName)| <= CHANGED_SLOTS
    decreases |ps|
  {
    if ps != [] {
      var init := ps[..|ps| - 1];
      var last := ps[|ps| - 1];
      assert EachKeyOnce(init) by {
        forall i, j | 0 <= i < j < |init|
          ensures !(init[i].ChannelVolumes? && init[j].ChannelVolumes?) && !(init[i].Mute? && init[j].Mute?)
        {
          assert init[i] == ps[i] && init[j] == ps[j];
        }
      }
      AsWrittenWhenEachKeyOnce(init, volumeName);
      var n := ChangedName(last, volumeName);
      if n.Some? && n.value in ChangedNamesAsWritten(init, volumeName) {
        AsWrittenNames(init, volumeName, n.value);
        assert false;
      }
    }
  }

  /**
   * dedup: the first occurrence of each element, in the order first seen
   * (an independent reference for the corrected changed list).
   */
  function Dedup(s: seq<string>): (r: seq<string>)
    ensures forall x :: x in r <==> x in s
    ensures forall i, j :: 0 <= i < j < |r| ==> r[i] != r[j]
    ensures forall i, j :: 0 <= i < j < |r| ==> r[i] in s && r[j] in s && IndexOf(s, r[i]) < IndexOf(s, r[j])
  {
    if s == [] then []
    else
      var init := s[..|s| - 1];
      var prev := Dedup(init);
      var x := s[|s| - 1];
      assert forall y :: y in s <==> y in init || y == x by {
        assert s == init + [x];
      }
      assert forall i :: 0 <= i < |prev| ==> prev[i] in init && IndexOf(s, prev[i]) == IndexOf(init, prev[i]) by {
        forall i | 0 <= i < |prev| ensures prev[i] in init && IndexOf(s, prev[i]) == IndexOf(init, prev[i]) {
          assert prev[i] in prev;
          IndexOfSnoc(init, x, prev[i]);
          assert s == init + [x];
        }
      }
      if x in prev then prev
      else
        assert forall i :: 0 <= i < |prev| ==> prev[i] in prev;
        assert IndexOf(s, x) == |init| by {
          assert x !in init && s[|init|] == x && s[..|init|] == init;
        }
        prev + [x]
  }

  /** An element already present keeps its first position when another is appended. */
  lemma IndexOfSnoc<T>(s: seq<T>, y: T, x: T)
    requires x in s
    ensures x in s + [y] && IndexOf(s + [y], x) == IndexOf(s, x)
  {
    var k := IndexOf(s, x);
    assert (s + [y])[k] == x && (s + [y])[..k] == s[..k];
  }

  /** The corrected changed list is the as-written one with every repeated name dropped. */
  lemma {:induction false} ChangedNamesDedup(ps: seq<Prop>, volumeName: string)
    requires volumeName != "Muted"
    ensures ChangedNames(ps, volumeName) == Dedup(ChangedNamesAsWritten(ps, volumeName))
    decreases |ps|
  {
    if ps != [] {
      var init := ps[..|ps| - 1];
      ChangedNamesDedup(init, volumeName);
      var w := ChangedNamesAsWritten(init, volumeName);
      match ChangedName(ps[|ps| - 1], volumeName)
      case None =>
      case Some(n) =>
        assert (w + [n])[..|w + [n]| - 1] == w;
    }
  }

  /**
   * The changed list the signal is meant to carry: each changed property
   * named once, in the order first seen (the volume first exactly when a
   * channelVolumes item comes before every mute item).
   */
  function ChangedNames(ps: seq<Prop>, volumeName: string): (r: seq<string>)
    requires volumeName != "Muted"
    ensures |r| <= CHANGED_SLOTS
    ensures forall i, j :: 0 <= i < j < |r| ==> r[i] != r[j]
    ensures forall n :: n in r ==> n == volumeName || n == "Muted"
  {
    if ps == [] then []
    else
      var prev := ChangedNames(ps[..|ps| - 1], volumeName);
      match ChangedName(ps[|ps| - 1], volumeName)
      case None => prev
      case Some(n) =>
        // Two distinct names already listed are both names there are.
        assert |prev| >= 2 ==> prev[0] in prev && prev[1] in prev && prev[0] != prev[1];
        assert n == volumeName || n == "Muted";
        if n in prev then prev else prev + [n]
  }

  /** A name is in the changed list exactly when a property of that kind occurs. */
  lemma {:induction false} ChangedNamesExact(ps: seq<Prop>, volumeName: string)
    requires volumeName != "Muted"
    ensures volumeName in ChangedNames(ps, volumeName) <==> HasVolume(ps)
    ensures "Muted" in ChangedNames(ps, volumeName) <==> HasMute(ps)
    decreases |ps|
  {
    if ps != [] {
      var init := ps[..|ps| - 1];
      ChangedNamesExact(init, volumeName);
      if HasVolume(init) {
        var i :| 0 <= i < |init| && init[i].ChannelVolumes?;
        assert ps[i] == init[i];
      }
      if HasMute(init) {
        var i :| 0 <= i < |init| && init[i].Mute?;
        assert ps[i] == init[i];
      }
      if HasVolume(ps) && !ps[|ps| - 1].ChannelVolumes? {
        var i :| 0 <= i < |ps| && ps[i].ChannelVolumes?;
        assert init[i] == ps[i];
      }
      if HasMute(ps) && !ps[|ps| - 1].Mute? {
        var i :| 0 <= i < |ps| && ps[i].Mute?;
        assert init[i] == ps[i];
      }
    }
  }

  /** The value of the last mute property, if any. */
  function LastMute(ps: seq<Prop>): Option<bool> {
    if ps == [] then None
    else if ps[|ps| - 1].Mute? then Some(ps[|ps| - 1].muted)
    else LastMute(ps[..|ps| - 1])
  }

  /** The channels of the last channelVolumes property, if any. */
  function LastChannels(ps: seq<Prop>): Option<seq<real>> {
    if ps == [] then None
    else if ps[|ps| - 1].ChannelVolumes? then Some(ps[|ps| - 1].values)
    else LastChannels(ps[..|ps| - 1])
  }

  /**
   * The last occurrence of each property wins, and a field no property
   * names keeps its value.
   */
  lemma {:induction false} LastPropWins(l: Levels, ps: seq<Prop>)
    ensures ApplyProps(l, ps).muted == if LastMute(ps).Some? then LastMute(ps).value else l.muted
    ensures ApplyProps(l, ps).volume ==
      if LastChannels(ps).Some? then CubeRootMean(CopiedChannels(LastChannels(ps).value)) else l.volume
    decreases |ps|
  {
    if ps != [] {
      LastPropWins(l, ps[..|ps| - 1]);
    }
  }

  /** The property loop is a fold: a Props object split in two is applied part after part. */
  lemma {:induction false} ApplyPropsAppend(l: Levels, a: seq<Prop>, b: seq<Prop>)
    ensures ApplyProps(l, a + b) == ApplyProps(ApplyProps(l, a), b)
    decreases |b|
  {
    if b == [] {
      assert a + b == a;
    } else {
      assert (a + b)[..|a + b| - 1] == a + b[..|b| - 1];
      ApplyPropsAppend(l, a, b[..|b| - 1]);
    }
  }

  /** No element occurs twice. */
  predicate Distinct<T(==)>(s: seq<T>) {
    forall i, j :: 0 <= i < j < |s| ==> s[i] != s[j]
  }

  /** Appending an element not yet listed keeps a list without repetitions. */
  lemma DistinctSnoc<T>(s: seq<T>, x: T)
    requires Distinct(s) && x !in s
    ensures Distinct(s + [x])
  {
    forall i, j | 0 <= i < j < |s + [x]| ensures (s + [x])[i] != (s + [x])[j] {
      if j == |s| { assert s[i] in s; }
    }
  }

  /** The position of the first occurrence of `x`. */
  function IndexOf<T(==)>(s: seq<T>, x: T): (k: nat)
    requires x in s
    ensures k < |s| && s[k] == x && x !in s[..k]
  {
    if s[0] == x then 0
    else
      assert x in s[1..] by {
        var j :| 0 <= j < |s| && s[j] == x;
        assert s[1..][j - 1] == x;
      }
      var k := IndexOf(s[1..], x);
      assert s[..k + 1] == [s[0]] + s[1..][..k];
      k + 1
  }

  /** spa_list_remove: the list without the first occurrence of `x`. */
  function Without<T(==)>(s: seq<T>, x: T): (r: seq<T>)
    ensures x in s ==> |r| == |s| - 1
    ensures x !in s ==> r == s
    ensures multiset(r) == multiset(s) - multiset{x}
  {
    if x in s then
      var k := IndexOf(s, x);
      assert s == s[..k] + [x] + s[k + 1..];
      s[..k] + s[k + 1..]
    else
      assert multiset(s)[x] == 0;
      s
  }

  /**
   * Removing an element of a list without repetitions drops exactly that
   * element, keeps the others in order, and keeps them distinct.
   */
  lemma WithoutDistinct<T>(s: seq<T>, x: T)
    requires Distinct(s) && x in s
    ensures var r := Without(s, x);
      && Distinct(r)
      && (forall y :: y in r <==> y in s && y != x)
      && r == s[..IndexOf(s, x)] + s[IndexOf(s, x) + 1..]
  {
    RemoveAtDistinct(s, IndexOf(s, x));
  }

  /** Dropping the element at `k` from a list without repetitions. */
  lemma RemoveAtDistinct<T>(s: seq<T>, k: nat)
    requires Distinct(s) && k < |s|
    ensures var r := s[..k] + s[k + 1..];
      && Distinct(r)
      && (forall y :: y in r <==> y in s && y != s[k])
  {
    var r := s[..k] + s[k + 1..];
    assert |r| == |s| - 1;
    forall i, j | 0 <= i < j < |r| ensures r[i] != r[j] {
      var i', j' := if i < k then i else i + 1, if j < k then j else j + 1;
      assert r[i] == s[i'] && r[j] == s[j'] && i' < j';
    }
    forall y ensures y in r <==> y in s && y != s[k] {
      if y in r {
        var i :| 0 <= i < |r| && r[i] == y;
        var i' := if i < k then i else i + 1;
        assert r[i] == s[i'] && i' != k;
      }
      if y in s && y != s[k] {
        var j :| 0 <= j < |s| && s[j] == y;
        if j < k { assert r[j] == y; } else { assert r[j - 1] == y; }
      }
    }
  }

  /** `device_data`: a bound audio node and the D-Bus object it is exported as. */
  class Device {
    const id: uint32
    const name: string
    const desc: string
    const kind: DeviceKind
    const objPath: string
    var volume: Volume
    var muted: bool

    /** calloc, then the fields registry_event_global sets; volume and mute start zeroed. */
    constructor (id: uint32, name: string, desc: string, kind: DeviceKind, objPath: string)
      ensures this.id == id && this.name == name && this.desc == desc
      ensures this.kind == kind && this.objPath == objPath
      ensures State() == Levels(ZeroVolume, false)
    {
      this.id := id;
      this.name := name;
      this.desc := desc;
      this.kind := kind;
      this.objPath := objPath;
      volume := ZeroVolume;
      muted := false;
    }

    function State(): Levels
      reads this
    {
      Levels(volume, muted)
    }

    /**
     * The property loop of handle_node_param: update volume and mute in
     * object order and collect the names of the changed properties, each once.
     */
    method ApplyParam(ps: seq<Prop>, volumeName: string) returns (changed: seq<string>)
      requires volumeName != "Muted"
      modifies this
      ensures State() == ApplyProps(old(State()), ps)
      ensures changed == ChangedNames(ps, volumeName)
    {
      ghost var l0 := State();
      changed := [];
      var i := 0;
      while i < |ps|
        invariant 0 <= i <= |ps|
        invariant State() == ApplyProps(l0, ps[..i])
        invariant changed == ChangedNames(ps[..i], volumeName)
      {
        assert ps[..i + 1][..i] == ps[..i];
        var p := ps[i];
        if p.ChannelVolumes? {
          volume := CubeRootMean(CopiedChannels(p.values));
          if volumeName !in changed {
            changed := changed + [volumeName];
          }
        } else if p.Mute? {
          muted := p.muted;
          if "Muted" !in changed {
            changed := changed + ["Muted"];
          }
        }
        i := i + 1;
      }
      assert ps[..|ps|] == ps;
    }
  }
}
