/** The D-Bus signal decoder of WaitForDBusSignal (dbus/events.go:16-86):
    each signal is translated into a message of the update loop, or dropped,
    in which case the next signal is read. The signal channel is modelled as
    the sequence of signals still to come. */
module Events {
  import opened Types

  /** The Go values a signal body can hold, by their dynamic type. */
  datatype BodyValue =
    | BObjectPath(p: ObjectPath)
    | BString(s: string)
    | BInterfaces(ifs: Interfaces)
    | BProps(props: Props)
    | BOther

  datatype Signal = Signal(name: string, path: ObjectPath, body: seq<BodyValue>)

  const InterfacesAddedName := ObjectManagerIF + ".InterfacesAdded"
  const InterfacesRemovedName := ObjectManagerIF + ".InterfacesRemoved"
  const PropertiesChangedName := PropsIF + ".PropertiesChanged"

  /** The interfaces whose property changes reach the device store. */
  predicate Watched(iface: string) {
    iface == AdapterIF || iface == DeviceIF || iface == BatteryIF
  }

  /** The message one signal decodes to, or None when it is dropped. */
  function Decode(s: Signal): (r: Option<Msg>)
    ensures r.Some? ==> r.value.DeviceAdded? || r.value.DeviceRemoved? || r.value.DevicePropertiesChanged?
    ensures r.Some? && r.value.DevicePropertiesChanged? ==>
              r.value.changedPath == s.path && r.value.changes != map[]
    ensures s.name != InterfacesAddedName && s.name != InterfacesRemovedName && s.name != PropertiesChangedName ==>
              r.None?
  {
    if s.name == InterfacesAddedName then
      if |s.body| < 2 || !s.body[0].BObjectPath? || !s.body[1].BInterfaces? then None
      else Some(DeviceAdded(s.body[0].p, s.body[1].ifs))
    else if s.name == InterfacesRemovedName then
      if |s.body| < 1 || !s.body[0].BObjectPath? then None
      else Some(DeviceRemoved(s.body[0].p))
    else if s.name == PropertiesChangedName then
      if |s.body| < 2 || !s.body[0].BString? || !s.body[1].BProps? || |s.body[1].props| == 0 then None
      else if Watched(s.body[0].s) then Some(DevicePropertiesChanged(s.path, s.body[1].props))
      else None
    else None
  }

  /** InterfacesAdded: the first two body elements decide, whatever the
      interfaces hold (there is no Device1 check here). */
  lemma DecodeInterfacesAdded(s: Signal)
    requires s.name == InterfacesAddedName
    ensures Decode(s).Some? <==> |s.body| >= 2 && s.body[0].BObjectPath? && s.body[1].BInterfaces?
    ensures Decode(s).Some? ==> Decode(s).value == DeviceAdded(s.body[0].p, s.body[1].ifs)
  {
    assert InterfacesAddedName != InterfacesRemovedName;
  }

  /** InterfacesRemoved: only the object path is read; the list of removed
      interfaces is ignored. */
  lemma DecodeInterfacesRemoved(s: Signal)
    requires s.name == InterfacesRemovedName
    ensures Decode(s).Some? <==> |s.body| >= 1 && s.body[0].BObjectPath?
    ensures Decode(s).Some? ==> Decode(s).value == DeviceRemoved(s.body[0].p)
  {
    assert InterfacesAddedName[45] != InterfacesRemovedName[45];
  }

  /** PropertiesChanged: decoded, with the signal's own path, exactly when the
      interface is Adapter1, Device1 or Battery1 and the change map is not
      empty; it never becomes an adapter message. */
  lemma DecodePropertiesChanged(s: Signal)
    requires s.name == PropertiesChangedName
    ensures Decode(s).Some? <==>
              |s.body| >= 2 && s.body[0].BString? && s.body[1].BProps? && s.body[1].props != map[] &&
              Watched(s.body[0].s)
    ensures Decode(s).Some? ==> Decode(s).value == DevicePropertiesChanged(s.path, s.body[1].props)
  {
    assert PropertiesChangedName[21] != InterfacesAddedName[21];
    assert PropertiesChangedName[21] != InterfacesRemovedName[21];
  }

  /** The signal each decodable message comes from. */
  function Encode(m: Msg): (s: Signal)
    requires m.DeviceAdded? || m.DeviceRemoved? || (m.DevicePropertiesChanged? && m.changes != map[])
  {
    match m
    case DeviceAdded(p, ifs) => Signal(InterfacesAddedName, p, [BObjectPath(p), BInterfaces(ifs)])
    case DeviceRemoved(p) => Signal(InterfacesRemovedName, p, [BObjectPath(p), BOther])
    case DevicePropertiesChanged(p, changes) => Signal(PropertiesChangedName, p, [BString(DeviceIF), BProps(changes)])
  }

  /** Every message the decoder can produce comes back from its signal. */
  lemma DecodeEncode(m: Msg)
    requires m.DeviceAdded? || m.DeviceRemoved? || (m.DevicePropertiesChanged? && m.changes != map[])
    ensures Decode(Encode(m)) == Some(m)
  {
    match m
    case DeviceAdded(_, _) =>
    case DeviceRemoved(_) =>
      DecodeInterfacesRemoved(Encode(m));
    case DevicePropertiesChanged(_, _) =>
      DecodePropertiesChanged(Encode(m));
  }

  /** One run of WaitForDBusSignal over the signals still to come: the message
      of the first decodable signal and how many signals were consumed, or
      None when no signal in the stream decodes (the source keeps waiting). */
  function NextMessage(stream: seq<Signal>): (r: Option<(Msg, nat)>)
    ensures r.Some? ==>
              var (m, consumed) := r.value;
              1 <= consumed <= |stream| && Decode(stream[consumed - 1]) == Some(m) &&
              forall k :: 0 <= k < consumed - 1 ==> Decode(stream[k]).None?
    ensures r.None? ==> forall k :: 0 <= k < |stream| ==> Decode(stream[k]).None?
  {
    if stream == [] then None
    else match Decode(stream[0])
      case Some(m) => Some((m, 1))
      case None =>
        match NextMessage(stream[1..])
        case None => None
        case Some((m, consumed)) => Some((m, consumed + 1))
  }

  /** Signals that decode to nothing only delay the next message: after a
      prefix of them the same message arrives, that many signals later. */
  lemma {:induction false} NextMessageSkipsDropped(dropped: seq<Signal>, rest: seq<Signal>)
    requires forall k :: 0 <= k < |dropped| ==> Decode(dropped[k]).None?
    ensures NextMessage(rest).None? ==> NextMessage(dropped + rest).None?
    ensures NextMessage(rest).Some? ==>
              NextMessage(dropped + rest) == Some((NextMessage(rest).value.0, NextMessage(rest).value.1 + |dropped|))
  {
    if dropped == [] {
      assert dropped + rest == rest;
    } else {
      var s := dropped + rest;
      assert s[0] == dropped[0];
      assert s[1..] == dropped[1..] + rest;
      NextMessageSkipsDropped(dropped[1..], rest);
      assert Decode(s[0]).None?;
    }
  }
}
