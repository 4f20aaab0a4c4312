/**
 * The soundmon daemon of src/daemon/soundmon/main.c, the earlier sibling of
 * USound. It differs in the details the model keeps:
 * - a failed bind frees the device and goes on;
 * - the device is listed before it is exported, and a failed export is not
 *   checked;
 * - removal sends no object-removed signal;
 * - the volume property is named VolumePercentage;
 * - there is no EnumerateDevices method.
 */
module SoundMon {
  import opened Common
  import opened Audio
  import ObjectPath
  import USound

  const DBUS_PATH: string := "/dev/negrel/desk/soundmon"
  const DEVICE_IFACE: string := "dev.negrel.desk.soundmon.Device"
  const VOLUME_PROPERTY: string := "VolumePercentage"

  /** The outgoing PipeWire and D-Bus calls, in the order they are made. */
  datatype Event =
    | Bound(id: uint32)
    | ParamsRequested(id: uint32)
    | ObjectExported(path: string)
    | PropertiesChanged(path: string, iface: string, names: seq<string>)
    | ProxyDestroyed(id: uint32)

  /** How registry_event_global ends. */
  datatype Outcome = Ignored | BindFailed | Added | Aborted

  /**
   * registry_event_global's verdict: a global that is no audio device is
   * ignored, a failed bind is dropped, a missing name or description (strdup
   * of NULL) aborts, and otherwise the device is added whatever the export
   * call replies.
   */
  function Admit(props: Dict, bind: Reply<()>): (o: Outcome)
    ensures o == Added <==>
      KindOf(props).Some? && bind.Ok? && Lookup(props, KEY_NODE_NAME).Some? && Lookup(props, KEY_NODE_DESCRIPTION).Some?
    ensures o == Ignored <==> KindOf(props).None?
    ensures o == BindFailed <==> KindOf(props).Some? && bind.Fail?
  {
    if KindOf(props).None? then Ignored
    else if bind.Fail? then BindFailed
    else if Lookup(props, KEY_NODE_NAME).None? || Lookup(props, KEY_NODE_DESCRIPTION).None? then Aborted
    else Added
  }

  /** `soundmon_data`: the tracked devices, in the order they were added. */
  class Registry {
    var devices: seq<Device>
    ghost var events: seq<Event>

    /** Each device is listed once and carries the path derived from its name. */
    ghost predicate Valid()
      reads this
    {
      && Distinct(devices)
      && forall i :: 0 <= i < |devices| ==> devices[i].objPath == ObjectPath.DevicePath(DBUS_PATH, devices[i].name)
    }

    constructor ()
      ensures Valid() && devices == [] && events == []
    {
      devices := [];
      events := [];
    }

    /** spa_list_append of a device that is not tracked yet. */
    method Track(d: Device)
      requires Valid() && d !in devices
      requires d.objPath == ObjectPath.DevicePath(DBUS_PATH, d.name)
      modifies this
      ensures Valid() && devices == old(devices) + [d] && events == old(events)
    {
      DistinctSnoc(devices, d);
      devices := devices + [d];
    }

    /** registry_event_global for the global `id`; `vtable` is the ignored reply of the export call. */
    method RegistryGlobal(id: uint32, props: Dict, bind: Reply<()>, vtable: Reply<()>) returns (o: Outcome)
      requires Valid()
      modifies this
      ensures Valid() && o == Admit(props, bind)
      ensures o != Added ==> devices == old(devices)
      ensures o == Ignored ==> events == old(events)
      ensures o == BindFailed ==> events == old(events) + [Bound(id)]
      ensures o == Added ==>
        var name := Lookup(props, KEY_NODE_NAME).value;
        var path := ObjectPath.DevicePath(DBUS_PATH, name);
        && |devices| == |old(devices)| + 1 && devices[..|old(devices)|] == old(devices)
        && var d := devices[|old(devices)|];
        && fresh(d) && d.id == id && d.kind == KindOf(props).value
        && d.name == name && d.desc == Lookup(props, KEY_NODE_DESCRIPTION).value
        && d.objPath == path && d.State() == Levels(ZeroVolume, false)
        && events == old(events) + [Bound(id), ParamsRequested(id)] + (if vtable.Ok? then [ObjectExported(path)] else [])
    {
      var kind := KindOf(props);
      if kind.None? {
        return Ignored;
      }
      events := events + [Bound(id)];
      if bind.Fail? {
        return BindFailed;
      }
      var name := Lookup(props, KEY_NODE_NAME);
      var desc := Lookup(props, KEY_NODE_DESCRIPTION);
      if name.None? || desc.None? {
        return Aborted;
      }
      events := events + [ParamsRequested(id)];
      var path := ObjectPath.DevicePath(DBUS_PATH, name.value);
      var d := new Device(id, name.value, desc.value, kind.value, path);
      Track(d);
      assert devices[..|old(devices)|] == old(devices) && devices[|old(devices)|] == d;
      if vtable.Ok? {
        events := events + [ObjectExported(path)];
      }
      assert events == old(events) + [Bound(id), ParamsRequested(id)] + (if vtable.Ok? then [ObjectExported(path)] else []);
      return Added;
    }

    /** handle_node_param, with the volume reported as VolumePercentage. */
    method HandleNodeParam(dev: Device, paramId: uint32, param: Option<seq<Prop>>)
      modifies this, dev
      ensures devices == old(devices)
      ensures paramId != PARAM_PROPS || param.None? ==> dev.State() == old(dev.State()) && events == old(events)
      ensures paramId == PARAM_PROPS && param.Some? ==>
        && dev.State() == ApplyProps(old(dev.State()), param.value)
        && events == old(events) + [PropertiesChanged(dev.objPath, DEVICE_IFACE, ChangedNames(param.value, VOLUME_PROPERTY))]
    {
      if paramId != PARAM_PROPS || param.None? {
        return;
      }
      var changed := dev.ApplyParam(param.value, VOLUME_PROPERTY);
      events := events + [PropertiesChanged(dev.objPath, DEVICE_IFACE, changed)];
    }

    /** on_info_changed: re-enumerate the Props parameters when the PARAMS bit is set. */
    method OnInfoChanged(dev: Device, changeMask: bv64)
      modifies this
      ensures devices == old(devices)
      ensures events == old(events) + (if RequestsParams(changeMask) then [ParamsRequested(dev.id)] else [])
    {
      if changeMask & CHANGE_MASK_PARAMS != 0 {
        events := events + [ParamsRequested(dev.id)];
      }
    }

    /**
     * proxy_removed and device_free: unlink the device and destroy its proxy.
     * There is no NULL check and no D-Bus removal signal.
     */
    method ProxyRemoved(dev: Device)
      requires Valid() && dev in devices
      modifies this
      ensures Valid() && dev !in devices
      ensures devices == Without(old(devices), dev)
      ensures events == old(events) + [ProxyDestroyed(dev.id)]
    {
      WithoutDistinct(devices, dev);
      ghost var k := IndexOf(devices, dev);
      devices := Without(devices, dev);
      forall i | 0 <= i < |devices|
        ensures devices[i].objPath == ObjectPath.DevicePath(DBUS_PATH, devices[i].name)
      {
        assert devices[i] == old(devices)[if i < k then i else i + 1];
      }
      events := events + [ProxyDestroyed(dev.id)];
    }
  }

  /**
   * Both daemons admit the same globals as devices when every call succeeds,
   * and a failed bind aborts USound but only drops the global here.
   */
  lemma SameDevicesAsUSound(props: Dict, bind: Reply<()>, e: USound.Export)
    requires e.vtable.Ok? && e.manager.Ok? && e.added.Ok?
    ensures Admit(props, bind) == Added <==> USound.Admit(props, bind, e) == USound.Added
    ensures KindOf(props).Some? && bind.Fail? ==> Admit(props, bind) == BindFailed && USound.Admit(props, bind, e) == USound.Aborted
  {
  }
}
