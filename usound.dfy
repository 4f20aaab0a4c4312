/**
 * The USound daemon of src/daemon/usound/main.c: it binds every PipeWire
 * audio sink and source, exports each one as a D-Bus object below
 * /dev/negrel/desk/USound/devices, relays volume and mute changes as
 * PropertiesChanged signals and answers EnumerateDevices. A failure while
 * binding or exporting a device aborts the process; a failed signal emission
 * in handle_node_param or proxy_removed is only logged.
 */
module USound {
  import opened Common
  import opened Audio
  import ObjectPath

  const DBUS_PATH: string := "/dev/negrel/desk/USound"
  const DEVICE_IFACE: string := "dev.negrel.desk.USound.Device"
  const VOLUME_PROPERTY: string := "Percentage"

  /** The outgoing PipeWire and D-Bus calls, in the order they are made. */
  datatype Event =
    | Bound(id: uint32)
    | ParamsRequested(id: uint32)
    | ObjectExported(path: string)
    | ManagerAdded(path: string)
    | ObjectAdded(path: string)
    | PropertiesChanged(path: string, iface: string, names: seq<string>)
    | ObjectRemoved(path: string)
    | ProxyDestroyed(id: uint32)

  /** The replies to the D-Bus calls that export a new device. */
  datatype Export = Export(vtable: Reply<()>, manager: Reply<()>, added: Reply<()>)

  /** How registry_event_global ends. */
  datatype Outcome = Ignored | Added | Aborted

  /**
   * registry_event_global's verdict: a global that is no audio device is
   * ignored; a failing bind, a missing name or description (strdup of NULL)
   * or a failing export call aborts; otherwise the device is added.
   */
  function Admit(props: Dict, bind: Reply<()>, exporting: Export): (o: Outcome)
    ensures o == Added <==>
      && KindOf(props).Some? && bind.Ok?
      && Lookup(props, KEY_NODE_NAME).Some? && Lookup(props, KEY_NODE_DESCRIPTION).Some?
      && exporting.vtable.Ok? && exporting.manager.Ok? && exporting.added.Ok?
    ensures o == Ignored <==> KindOf(props).None?
  {
    if KindOf(props).None? then Ignored
    else if bind.Fail? then Aborted
    else if Lookup(props, KEY_NODE_NAME).None? || Lookup(props, KEY_NODE_DESCRIPTION).None? then Aborted
    else if exporting.vtable.Fail? || exporting.manager.Fail? || exporting.added.Fail? then Aborted
    else Added
  }

  /**
   * The daemon's own path needs no encoding, so every device path starts with
   * it; the path is a valid object path exactly when the node name is a
   * non-empty sequence of slash-separated elements.
   */
  lemma DevicePathsUnderService(name: string)
    ensures ObjectPath.DevicePath(DBUS_PATH, name) == DBUS_PATH + "/devices/" + ObjectPath.Encoded(name)
    ensures ObjectPath.AllAllowed(ObjectPath.DevicePath(DBUS_PATH, name))
    ensures ObjectPath.ValidObjectPath(ObjectPath.DevicePath(DBUS_PATH, name)) <==> ObjectPath.ValidElements(name)
  {
    assert ObjectPath.ValidObjectPath(DBUS_PATH) by {
      assert ObjectPath.NoDoubleSlash(DBUS_PATH);
    }
    ObjectPath.DevicePathKeepsPrefix(DBUS_PATH, name);
    ObjectPath.DevicePathValid(DBUS_PATH, name);
  }

  /** `usound_data`: the tracked devices, in the order they were added. */
  class Registry {
    var devices: seq<Device>
    ghost var events: seq<Event>

    /** Each device is listed once and is exported under the path derived from its name. */
    ghost predicate Valid()
      reads this
    {
      && Distinct(devices)
      && forall i :: 0 <= i < |devices| ==> devices[i].objPath == ObjectPath.DevicePath(DBUS_PATH, devices[i].name)
    }

    constructor ()
      ensures Valid() && devices == [] && events == []
    {
      devices := [];
      events := [];
    }

    /** spa_list_append of a device that is not tracked yet. */
    method Track(d: Device)
      requires Valid() && d !in devices
      requires d.objPath == ObjectPath.DevicePath(DBUS_PATH, d.name)
      modifies this
      ensures Valid() && devices == old(devices) + [d] && events == old(events)
    {
      DistinctSnoc(devices, d);
      devices := devices + [d];
    }

    /** registry_event_global for the global `id` with properties `props`. */
    method RegistryGlobal(id: uint32, props: Dict, bind: Reply<()>, exporting: Export) returns (o: Outcome)
      requires Valid()
      modifies this
      ensures Valid() && o == Admit(props, bind, exporting)
      ensures o != Added ==> devices == old(devices)
      ensures o == Ignored ==> events == old(events)
      ensures o == Added ==>
        var name := Lookup(props, KEY_NODE_NAME).value;
        var path := ObjectPath.DevicePath(DBUS_PATH, name);
        && |devices| == |old(devices)| + 1 && devices[..|old(devices)|] == old(devices)
        && var d := devices[|old(devices)|];
        && fresh(d) && d.id == id && d.kind == KindOf(props).value
        && d.name == name && d.desc == Lookup(props, KEY_NODE_DESCRIPTION).value
        && d.objPath == path && d.State() == Levels(ZeroVolume, false)
        && events == old(events) + [Bound(id), ParamsRequested(id), ObjectExported(path), ManagerAdded(path), ObjectAdded(path)]
    {
      var kind := KindOf(props);
      if kind.None? {
        return Ignored;
      }
      events := events + [Bound(id)];
      if bind.Fail? {
        return Aborted;
      }
      var name := Lookup(props, KEY_NODE_NAME);
      var desc := Lookup(props, KEY_NODE_DESCRIPTION);
      if name.None? || desc.None? {
        return Aborted;
      }
      events := events + [ParamsRequested(id)];
      var path := ObjectPath.DevicePath(DBUS_PATH, name.value);
      var d := new Device(id, name.value, desc.value, kind.value, path);
      if exporting.vtable.Fail? {
        return Aborted;
      }
      events := events + [ObjectExported(path)];
      if exporting.manager.Fail? {
        return Aborted;
      }
      events := events + [ManagerAdded(path)];
      if exporting.added.Fail? {
        return Aborted;
      }
      events := events + [ObjectAdded(path)];
      assert events == old(events) + [Bound(id), ParamsRequested(id), ObjectExported(path), ManagerAdded(path), ObjectAdded(path)];
      Track(d);
      assert devices[..|old(devices)|] == old(devices) && devices[|old(devices)|] == d;
      return Added;
    }

    /**
     * handle_node_param: a Props parameter updates volume and mute and is
     * always followed by one PropertiesChanged signal, even when no property
     * changed; any other parameter, or none, is ignored.
     */
    method HandleNodeParam(dev: Device, paramId: uint32, param: Option<seq<Prop>>)
      modifies this, dev
      ensures devices == old(devices)
      ensures paramId != PARAM_PROPS || param.None? ==> dev.State() == old(dev.State()) && events == old(events)
      ensures paramId == PARAM_PROPS && param.Some? ==>
        && dev.State() == ApplyProps(old(dev.State()), param.value)
        && events == old(events) + [PropertiesChanged(dev.objPath, DEVICE_IFACE, ChangedNames(param.value, VOLUME_PROPERTY))]
    {
      if paramId != PARAM_PROPS || param.None? {
        return;
      }
      var changed := dev.ApplyParam(param.value, VOLUME_PROPERTY);
      events := events + [PropertiesChanged(dev.objPath, DEVICE_IFACE, changed)];
    }

    /** on_info_changed: re-enumerate the Props parameters when the PARAMS bit is set. */
    method OnInfoChanged(dev: Device, changeMask: bv64)
      modifies this
      ensures devices == old(devices)
      ensures events == old(events) + (if RequestsParams(changeMask) then [ParamsRequested(dev.id)] else [])
    {
      if changeMask & CHANGE_MASK_PARAMS != 0 {
        events := events + [ParamsRequested(dev.id)];
      }
    }

    /** device_free: nothing for NULL; otherwise unlink the device and destroy its proxy. */
    method DeviceFree(dev: Device?)
      requires Valid() && (dev == null || dev in devices)
      modifies this
      ensures Valid()
      ensures dev == null ==> devices == old(devices) && events == old(events)
      ensures dev != null ==> devices == Without(old(devices), dev) && events == old(events) + [ProxyDestroyed(dev.id)]
      ensures dev != null ==> dev !in devices
    {
      if dev == null {
        return;
      }
      WithoutDistinct(devices, dev);
      ghost var k := IndexOf(devices, dev);
      devices := Without(devices, dev);
      forall i | 0 <= i < |devices|
        ensures devices[i].objPath == ObjectPath.DevicePath(DBUS_PATH, devices[i].name)
      {
        assert devices[i] == old(devices)[if i < k then i else i + 1];
      }
      events := events + [ProxyDestroyed(dev.id)];
    }

    /** proxy_removed: announce the object's removal on D-Bus, then free the device. */
    method ProxyRemoved(dev: Device)
      requires Valid() && dev in devices
      modifies this
      ensures Valid() && dev !in devices
      ensures devices == Without(old(devices), dev)
      ensures events == old(events) + [ObjectRemoved(dev.objPath), ProxyDestroyed(dev.id)]
    {
      events := events + [ObjectRemoved(dev.objPath)];
      DeviceFree(dev);
    }

    /** dbus_enumerate_devices: the object paths of the tracked devices, in list order. */
    method EnumerateDevices() returns (paths: seq<string>)
      requires Valid()
      ensures |paths| == |devices|
      ensures forall i :: 0 <= i < |paths| ==> paths[i] == devices[i].objPath
      ensures forall i :: 0 <= i < |paths| ==> ObjectPath.AllAllowed(paths[i])
      ensures forall i :: 0 <= i < |paths| ==>
        (ObjectPath.ValidObjectPath(paths[i]) <==> ObjectPath.ValidElements(devices[i].name))
    {
      paths := [];
      var i := 0;
      while i < |devices|
        invariant 0 <= i <= |devices|
        invariant |paths| == i
        invariant forall j :: 0 <= j < i ==> paths[j] == devices[j].objPath
        invariant forall j :: 0 <= j < i ==> ObjectPath.AllAllowed(paths[j])
        invariant forall j :: 0 <= j < i ==>
          (ObjectPath.ValidObjectPath(paths[j]) <==> ObjectPath.ValidElements(devices[j].name))
      {
        DevicePathsUnderService(devices[i].name);
        paths := paths + [devices[i].objPath];
        i := i + 1;
      }
    }
  }
}
