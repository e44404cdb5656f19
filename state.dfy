/** Reading BlueZ objects into Adapter and Device records
    (bluetooth/state.go): ParseAdapter, ParseDevice, NormalizeIcon,
    IsUsableDevice with its MAC-address pattern and allow-lists, and the
    object-selection loop of GetInitialState. */
module BluezState {
  import opened Types
  import opened Text

  // ---------------------------------------------------------------------
  // NormalizeIcon (bluetooth/state.go:187-214)

  /** The icon names BlueZ reports that get their own label. */
  const IconLabels: map<string, string> := map[
    "audio-card" := "Audio", "audio-headset" := "Audio",
    "audio-headphones" := "Audio", "audio-speaker" := "Audio",
    "input-keyboard" := "Keyboard", "input-mouse" := "Mouse",
    "input-tablet" := "Tablet", "input-gaming" := "Controller",
    "phone" := "Phone", "computer" := "Computer", "computer-laptop" := "Computer",
    "camera" := "Camera", "printer" := "Printer", "network-wireless" := "Net Adapter"]

  function NormalizeIcon(icon: string): (r: string)
    ensures icon in IconLabels ==> r == IconLabels[icon]
    ensures icon !in IconLabels ==> r == "Unknown"
  {
    match icon
    case "audio-card" => "Audio"
    case "audio-headset" => "Audio"
    case "audio-headphones" => "Audio"
    case "audio-speaker" => "Audio"
    case "input-keyboard" => "Keyboard"
    case "input-mouse" => "Mouse"
    case "input-tablet" => "Tablet"
    case "input-gaming" => "Controller"
    case "phone" => "Phone"
    case "computer" => "Computer"
    case "computer-laptop" => "Computer"
    case "camera" => "Camera"
    case "printer" => "Printer"
    case "network-wireless" => "Net Adapter"
    case "other" => "Unknown"
    case _ => "Unknown"
  }

  /** Every icon name, listed or not, gets one of eleven labels. */
  lemma NormalizeIconRange(icon: string)
    ensures NormalizeIcon(icon) in {"Audio", "Keyboard", "Mouse", "Tablet", "Controller", "Phone",
                                    "Computer", "Camera", "Printer", "Net Adapter", "Unknown"}
  {
  }

  // ---------------------------------------------------------------------
  // The MAC-address pattern (bluetooth/state.go:226)

  predicate IsSeparator(c: char) { c == '-' || c == ':' }

  predicate IsHexPair(s: string) {
    |s| == 2 && IsHexDigit(s[0]) && IsHexDigit(s[1])
  }

  /** The pattern read as a grammar: `groups` hex pairs, consecutive pairs
      joined by one separator each, and nothing else. */
  predicate MatchesPairs(s: string, groups: nat)
    requires groups >= 1
    decreases groups
  {
    if groups == 1 then IsHexPair(s)
    else |s| >= 3 && IsHexPair(s[..2]) && IsSeparator(s[2]) && MatchesPairs(s[3..], groups - 1)
  }

  /** `^[0-9A-Fa-f]{2}([-:][0-9A-Fa-f]{2}){5}$` */
  predicate IsMacAddress(s: string) {
    MatchesPairs(s, 6)
  }

  /** The same pattern character by character: 3*groups-1 characters, a
      separator at every position 2 mod 3 and a hex digit at every other. */
  predicate PositionwiseMac(s: string, groups: nat) {
    |s| == 3 * groups - 1 &&
    forall i :: 0 <= i < |s| ==> if i % 3 == 2 then IsSeparator(s[i]) else IsHexDigit(s[i])
  }

  lemma {:induction false} MatchesPairsPositionwise(s: string, groups: nat)
    requires groups >= 1
    ensures MatchesPairs(s, groups) <==> PositionwiseMac(s, groups)
    decreases groups
  {
    if groups > 1 && |s| >= 3 {
      MatchesPairsPositionwise(s[3..], groups - 1);
      if PositionwiseMac(s, groups) {
        assert forall i :: 0 <= i < |s[3..]| ==> s[3..][i] == s[i + 3] && (i + 3) % 3 == i % 3;
      }
      if MatchesPairs(s, groups) {
        forall i | 0 <= i < |s|
          ensures if i % 3 == 2 then IsSeparator(s[i]) else IsHexDigit(s[i])
        {
          if i >= 3 {
            assert s[i] == s[3..][i - 3] && (i - 3) % 3 == i % 3;
          } else {
            assert s[..2][0] == s[0] && s[..2][1] == s[1];
          }
        }
      }
    }
  }

  /** A MAC-shaped string is exactly 17 characters of six hex pairs and five
      separators, each separator independently '-' or ':'. */
  lemma MacAddressShape(s: string)
    ensures IsMacAddress(s) <==>
              |s| == 17 &&
              (forall i :: 0 <= i < 17 && i % 3 == 2 ==> IsSeparator(s[i])) &&
              (forall i :: 0 <= i < 17 && i % 3 != 2 ==> IsHexDigit(s[i]))
  {
    MatchesPairsPositionwise(s, 6);
  }

  // ---------------------------------------------------------------------
  // IsUsableDevice (bluetooth/state.go:216-273)

  /** Appearance codes: computer, phone, headphones, headset, car, clock, wearable. */
  const WantedAppearances: set<int> := {0x0040, 0x0140, 0x0440, 0x0441, 0x0408, 0x0540, 0x04C0}

  /** The useful services (A2DP source and sink, HSP, HFP, HID, AVRCP,
      battery, device information) are the UUIDs 0000xxxx-0000-1000-8000-
      00805f9b34fb of the Bluetooth base UUID, for these 16-bit ids xxxx. */
  const UsefulShortIds: set<string> := {"110a", "110b", "1108", "111e", "1112", "1124", "180f", "180a"}

  function ServiceUuid(id: string): (u: string)
    ensures |u| == |id| + 32
  {
    "0000" + id + "-0000-1000-8000-00805f9b34fb"
  }

  /** Membership in the allow-list of service UUIDs. */
  predicate UsefulService(u: string) {
    |u| == 36 && u[4..8] in UsefulShortIds && u == ServiceUuid(u[4..8])
  }

  /** The allow-list holds exactly the UUIDs of the listed ids (compared
      case-sensitively, as the Go map lookup does). */
  lemma UsefulServiceIds(id: string)
    requires |id| == 4
    ensures UsefulService(ServiceUuid(id)) <==> id in UsefulShortIds
  {
    assert ServiceUuid(id)[4..8] == id;
  }

  /** A non-empty name that is not a MAC address. */
  predicate NameUsable(props: Props) {
    "Name" in props && props["Name"].VString? && props["Name"].s != "" && !IsMacAddress(props["Name"].s)
  }

  /** A non-zero appearance among the wanted ones. */
  predicate AppearanceUsable(props: Props) {
    "Appearance" in props && props["Appearance"].VUint16? && props["Appearance"].n in WantedAppearances
  }

  /** Some advertised service UUID among the useful ones. */
  predicate UuidsUsable(props: Props) {
    "UUIDs" in props && props["UUIDs"].VStrings? &&
    exists i :: 0 <= i < |props["UUIDs"].ss| && UsefulService(props["UUIDs"].ss[i])
  }

  /** Whether the interfaces describe a device worth listing. */
  predicate Usable(interfaces: Interfaces) {
    DeviceIF in interfaces &&
    (NameUsable(interfaces[DeviceIF]) || AppearanceUsable(interfaces[DeviceIF]) || UuidsUsable(interfaces[DeviceIF]))
  }

  /** The unchecked type assertions IsUsableDevice reaches do not fail: the
      Name is checked always, the Appearance only when the name did not
      decide, the UUIDs only when neither did. */
  predicate UsableTyped(interfaces: Interfaces) {
    DeviceIF in interfaces ==>
      var props := interfaces[DeviceIF];
      ("Name" in props ==> props["Name"].VString?) &&
      (!NameUsable(props) && "Appearance" in props ==> props["Appearance"].VUint16?) &&
      (!NameUsable(props) && !AppearanceUsable(props) && "UUIDs" in props ==> props["UUIDs"].VStrings?)
  }

  method IsUsableDevice(interfaces: Interfaces) returns (usable: bool)
    requires UsableTyped(interfaces)
    ensures usable == Usable(interfaces)
    ensures DeviceIF !in interfaces ==> !usable
  {
    if DeviceIF !in interfaces {
      return false;
    }
    var props := interfaces[DeviceIF];
    if "Name" in props {
      var name := props["Name"].s;
      if name != "" {
        if !IsMacAddress(name) {
          return true;
        }
      }
    }
    if "Appearance" in props {
      var appearance := props["Appearance"].n;
      if appearance != 0 {
        if appearance in WantedAppearances {
          return true;
        }
      }
    }
    if "UUIDs" in props {
      var uuids := props["UUIDs"].ss;
      if |uuids| > 0 {
        for i := 0 to |uuids|
          invariant forall k :: 0 <= k < i ==> !UsefulService(uuids[k])
        {
          if UsefulService(uuids[i]) {
            return true;
          }
        }
      }
    }
    return false;
  }

  /** A device whose only evidence is a MAC-shaped name is spam. */
  lemma MacNamedDeviceUnusable(name: string)
    requires IsMacAddress(name)
    ensures !Usable(map[DeviceIF := map["Name" := VString(name)]])
  {
    var props: Props := map["Name" := VString(name)];
    assert "Appearance" !in props && "UUIDs" !in props;
  }

  // ---------------------------------------------------------------------
  // ParseAdapter and ParseDevice (bluetooth/state.go:83-162)

  /** A string property; the empty string when absent or not a string. */
  function StringProp(props: Props, key: string): (r: string)
    ensures key in props && props[key].VString? ==> r == props[key].s
    ensures !(key in props && props[key].VString?) ==> r == ""
  {
    if key in props && props[key].VString? then props[key].s else ""
  }

  /** A boolean property; false when absent or not a boolean. */
  function BoolProp(props: Props, key: string): (r: bool)
    ensures r <==> key in props && props[key] == VBool(true)
  {
    if key in props && props[key].VBool? then props[key].b else false
  }

  /** The adapter record; a failed Discoverable lookup (None) leaves it false. */
  function AdapterOf(path: ObjectPath, props: Props, discoverable: Option<bool>): (r: Adapter)
    ensures r.Path == path
    ensures r.Discoverable <==> discoverable == Some(true)
  {
    Adapter(path, StringProp(props, "Name"), StringProp(props, "Address"), BoolProp(props, "Powered"),
            BoolProp(props, "Discovering"), StringProp(props, "Modalias"),
            if discoverable.Some? then discoverable.value else false)
  }

  /** The unchecked type assertions of ParseDevice: Name, Alias and Icon must
      be strings and RSSI an int16 when present. */
  predicate ParseTyped(props: Props) {
    ("Name" in props ==> props["Name"].VString?) &&
    ("Alias" in props ==> props["Alias"].VString?) &&
    ("Icon" in props ==> props["Icon"].VString?) &&
    ("RSSI" in props ==> props["RSSI"].VInt16?)
  }

  /** The display name: the alias when there is one, else the name, each with
      its emoji runs replaced by "[?]". */
  function DisplayName(props: Props): string
    requires ParseTyped(props)
  {
    if "Alias" in props then SanitizeEmojis(props["Alias"].s, "[?]")
    else if "Name" in props then SanitizeEmojis(props["Name"].s, "[?]")
    else ""
  }

  /** The battery level: the Percentage byte reinterpreted as int8, or -1. */
  function BatteryLevel(batteryProps: Option<Props>): int8 {
    if batteryProps.Some? && "Percentage" in batteryProps.value && batteryProps.value["Percentage"].VByte?
    then ByteToInt8(batteryProps.value["Percentage"].u)
    else -1
  }

  /** The device record ParseDevice builds; batteryProps is None when the
      object carries no Battery1 interface. The alias wins over the name,
      every other field comes from its own key only, with the zero value when
      the key is absent, and the battery is -1 unless a Percentage byte is
      there (or that byte is 255). */
  function DeviceOf(path: ObjectPath, props: Props, batteryProps: Option<Props>): (r: Device)
    requires ParseTyped(props)
    ensures r.Path == path
    ensures "Alias" in props ==> r.Name == SanitizeEmojis(props["Alias"].s, "[?]")
    ensures "Alias" !in props && "Name" in props ==> r.Name == SanitizeEmojis(props["Name"].s, "[?]")
    ensures "Alias" !in props && "Name" !in props ==> r.Name == ""
    ensures "Address" in props && props["Address"].VString? ==> r.Address == props["Address"].s
    ensures !("Address" in props && props["Address"].VString?) ==> r.Address == ""
    ensures "AddressType" in props && props["AddressType"].VString? ==> r.AddressType == props["AddressType"].s
    ensures !("AddressType" in props && props["AddressType"].VString?) ==> r.AddressType == ""
    ensures "Icon" in props ==> r.Icon == NormalizeIcon(props["Icon"].s)
    ensures "Icon" !in props ==> r.Icon == ""
    ensures "RSSI" in props ==> r.RSSI == props["RSSI"].i
    ensures "RSSI" !in props ==> r.RSSI == 0
    ensures r.Paired <==> "Paired" in props && props["Paired"] == VBool(true)
    ensures r.Trusted <==> "Trusted" in props && props["Trusted"] == VBool(true)
    ensures r.Connected <==> "Connected" in props && props["Connected"] == VBool(true)
    ensures r.Connectable <==> "Connectable" in props && props["Connectable"] == VBool(true)
    ensures r.Battery == -1 <==>
              !(batteryProps.Some? && "Percentage" in batteryProps.value && batteryProps.value["Percentage"].VByte?)
              || batteryProps.value["Percentage"].u == 255
    ensures batteryProps.Some? && "Percentage" in batteryProps.value && batteryProps.value["Percentage"].VByte? ==>
              r.Battery == ByteToInt8(batteryProps.value["Percentage"].u)
  {
    Device(
      Path := path,
      Name := DisplayName(props),
      Address := StringProp(props, "Address"),
      Icon := if "Icon" in props then NormalizeIcon(props["Icon"].s) else "",
      AddressType := StringProp(props, "AddressType"),
      Paired := BoolProp(props, "Paired"),
      Trusted := BoolProp(props, "Trusted"),
      Connected := BoolProp(props, "Connected"),
      Battery := BatteryLevel(batteryProps),
      Connectable := BoolProp(props, "Connectable"),
      RSSI := if "RSSI" in props then props["RSSI"].i else 0)
  }

  /** ParseDevice: start from the defaults and read each property in turn. */
  method ParseDevice(path: ObjectPath, props: Props, batteryProps: Option<Props>) returns (device: Device)
    requires ParseTyped(props)
    ensures device == DeviceOf(path, props, batteryProps)
  {
    var name, address, icon, addressType := "", "", "", "";
    var paired, trusted, connected, connectable := false, false, false, false;
    var battery: int8, rssi: int16 := -1, 0;
    if "Name" in props {
      name := SanitizeEmojis(props["Name"].s, "[?]");
    }
    if "Alias" in props {
      name := SanitizeEmojis(props["Alias"].s, "[?]");
    }
    if "Address" in props {
      address := if props["Address"].VString? then props["Address"].s else "";
    }
    if "AddressType" in props {
      addressType := if props["AddressType"].VString? then props["AddressType"].s else "";
    }
    if "Icon" in props {
      icon := NormalizeIcon(props["Icon"].s);
    }
    if "Paired" in props {
      paired := if props["Paired"].VBool? then props["Paired"].b else false;
    }
    if "Trusted" in props {
      trusted := if props["Trusted"].VBool? then props["Trusted"].b else false;
    }
    if "Connected" in props {
      connected := if props["Connected"].VBool? then props["Connected"].b else false;
    }
    if "Connectable" in props {
      connectable := if props["Connectable"].VBool? then props["Connectable"].b else false;
    }
    if "RSSI" in props {
      rssi := props["RSSI"].i;
    }
    if batteryProps.Some? {
      if "Percentage" in batteryProps.value {
        var percent := batteryProps.value["Percentage"];
        if percent.VByte? {
          battery := ByteToInt8(percent.u);
        }
      }
    }
    assert name == DisplayName(props) && battery == BatteryLevel(batteryProps);
    assert address == StringProp(props, "Address") && addressType == StringProp(props, "AddressType");
    assert paired == BoolProp(props, "Paired") && trusted == BoolProp(props, "Trusted");
    assert connected == BoolProp(props, "Connected") && connectable == BoolProp(props, "Connectable");
    device := Device(path, name, address, icon, addressType, paired, trusted, connected, battery, connectable, rssi);
  }

  /** With no properties at all, every field keeps its zero value and the
      battery its "unavailable" marker. */
  lemma ParseDeviceEmpty(path: ObjectPath)
    ensures DeviceOf(path, map[], None) == Device(path, "", "", "", "", false, false, false, -1, false, 0)
  {
  }

  // ---------------------------------------------------------------------
  // GetInitialState: which objects become adapters and devices
  // (bluetooth/state.go:57-75)

  /** One entry of GetManagedObjects, with the answer IsAdapterDiscoverable
      gives for it (None when that lookup fails). */
  datatype ManagedObject = ManagedObject(path: ObjectPath, interfaces: Interfaces, discoverable: Option<bool>)

  /** The interfaces of an object that are accessed without a type check. */
  predicate ObjectTyped(o: ManagedObject) {
    DeviceIF in o.interfaces ==> ParseTyped(o.interfaces[DeviceIF]) && UsableTyped(o.interfaces)
  }

  function BatteryOf(o: ManagedObject): Option<Props> {
    if BatteryIF in o.interfaces then Some(o.interfaces[BatteryIF]) else None
  }

  /** The entries f gives for the objects, concatenated in visiting order. */
  function Collect<T, U>(xs: seq<T>, f: T --> seq<U>): (r: seq<U>)
    requires forall i :: 0 <= i < |xs| ==> f.requires(xs[i])
  {
    if xs == [] then [] else Collect(xs[..|xs| - 1], f) + f(xs[|xs| - 1])
  }

  /** The adapters, in the order the objects are visited. */
  function AdaptersOf(objects: seq<ManagedObject>): (r: seq<Adapter>)
    ensures |r| <= |objects|
  {
    CollectLength(objects, AdapterEntry);
    Collect(objects, AdapterEntry)
  }

  /** The adapter one object contributes when it carries Adapter1. */
  function AdapterEntry(o: ManagedObject): (r: seq<Adapter>)
    ensures |r| <= 1
  {
    if AdapterIF in o.interfaces then [AdapterOf(o.path, o.interfaces[AdapterIF], o.discoverable)] else []
  }

  /** The usable devices, in the order the objects are visited. */
  function DevicesOf(objects: seq<ManagedObject>): (r: seq<Device>)
    requires forall i :: 0 <= i < |objects| ==> ObjectTyped(objects[i])
    ensures |r| <= |objects|
  {
    CollectLength(objects, DeviceEntry);
    Collect(objects, DeviceEntry)
  }

  /** The device one object contributes: its parsed Device1 when usable. */
  function DeviceEntry(o: ManagedObject): (r: seq<Device>)
    requires ObjectTyped(o)
    ensures |r| <= 1
  {
    if DeviceIF in o.interfaces && Usable(o.interfaces)
    then [DeviceOf(o.path, o.interfaces[DeviceIF], BatteryOf(o))] else []
  }

  /** GetInitialState after the GetManagedObjects call: the objects arrive in
      the map's iteration order, which the caller fixes. */
  method GetInitialState(objects: seq<ManagedObject>) returns (adapters: seq<Adapter>, devices: seq<Device>)
    requires forall i :: 0 <= i < |objects| ==> ObjectTyped(objects[i])
    ensures adapters == AdaptersOf(objects)
    ensures devices == DevicesOf(objects)
  {
    adapters, devices := [], [];
    for i := 0 to |objects|
      invariant adapters == AdaptersOf(objects[..i])
      invariant devices == DevicesOf(objects[..i])
    {
      assert objects[..i + 1][..i] == objects[..i];
      var o := objects[i];
      if AdapterIF in o.interfaces {
        var adapter := AdapterOf(o.path, o.interfaces[AdapterIF], o.discoverable);
        adapters := adapters + [adapter];
      }
      if DeviceIF in o.interfaces {
        var batteryProps := if BatteryIF in o.interfaces then Some(o.interfaces[BatteryIF]) else None;
        var device := ParseDevice(o.path, o.interfaces[DeviceIF], batteryProps);
        var usable := IsUsableDevice(o.interfaces);
        if usable {
          devices := devices + [device];
        }
      }
    }
    assert objects[..|objects|] == objects;
  }

  /** Every object carrying Adapter1 yields its adapter, and every adapter
      comes from such an object. */
  lemma AdaptersOfMembers(objects: seq<ManagedObject>)
    ensures forall i :: 0 <= i < |objects| && AdapterIF in objects[i].interfaces ==>
              AdapterOf(objects[i].path, objects[i].interfaces[AdapterIF], objects[i].discoverable) in AdaptersOf(objects)
    ensures forall a :: a in AdaptersOf(objects) ==>
              exists i :: 0 <= i < |objects| && AdapterIF in objects[i].interfaces &&
                a == AdapterOf(objects[i].path, objects[i].interfaces[AdapterIF], objects[i].discoverable)
  {
    forall i | 0 <= i < |objects| && AdapterIF in objects[i].interfaces
      ensures AdapterOf(objects[i].path, objects[i].interfaces[AdapterIF], objects[i].discoverable) in AdaptersOf(objects)
    {
      CollectHas(objects, AdapterEntry, i);
    }
    CollectFrom(objects, AdapterEntry);
    forall a | a in AdaptersOf(objects)
      ensures exists i :: 0 <= i < |objects| && AdapterIF in objects[i].interfaces &&
                a == AdapterOf(objects[i].path, objects[i].interfaces[AdapterIF], objects[i].discoverable)
    {
      var i :| 0 <= i < |objects| && a in AdapterEntry(objects[i]);
    }
  }

  /** Every usable object carrying Device1 yields its device, an object
      carrying both interfaces yields an adapter and a device, and every
      device comes from a usable Device1 object. */
  lemma DevicesOfMembers(objects: seq<ManagedObject>)
    requires forall i :: 0 <= i < |objects| ==> ObjectTyped(objects[i])
    ensures forall i :: 0 <= i < |objects| && ObjectTyped(objects[i]) && DeviceIF in objects[i].interfaces && Usable(objects[i].interfaces) ==>
              DeviceOf(objects[i].path, objects[i].interfaces[DeviceIF], BatteryOf(objects[i])) in DevicesOf(objects)
    ensures forall d :: d in DevicesOf(objects) ==>
              exists i :: 0 <= i < |objects| && DeviceIF in objects[i].interfaces && Usable(objects[i].interfaces) &&
                d == DeviceOf(objects[i].path, objects[i].interfaces[DeviceIF], BatteryOf(objects[i]))
  {
    DevicesOfComplete(objects);
    DevicesOfSound(objects);
  }

  lemma DevicesOfComplete(objects: seq<ManagedObject>)
    requires forall i :: 0 <= i < |objects| ==> ObjectTyped(objects[i])
    ensures forall i :: 0 <= i < |objects| && ObjectTyped(objects[i]) && DeviceIF in objects[i].interfaces && Usable(objects[i].interfaces) ==>
              DeviceOf(objects[i].path, objects[i].interfaces[DeviceIF], BatteryOf(objects[i])) in DevicesOf(objects)
  {
    forall i | 0 <= i < |objects| && DeviceIF in objects[i].interfaces && Usable(objects[i].interfaces)
      ensures DeviceOf(objects[i].path, objects[i].interfaces[DeviceIF], BatteryOf(objects[i])) in DevicesOf(objects)
    {
      CollectHas(objects, DeviceEntry, i);
      assert DeviceEntry(objects[i]) == [DeviceOf(objects[i].path, objects[i].interfaces[DeviceIF], BatteryOf(objects[i]))];
    }
  }

  /** When every entry has at most one element there are at most as many
      elements as objects. */
  lemma {:induction false} CollectLength<T, U>(xs: seq<T>, f: T --> seq<U>)
    requires forall i :: 0 <= i < |xs| ==> f.requires(xs[i]) && |f(xs[i])| <= 1
    ensures |Collect(xs, f)| <= |xs|
  {
    if xs != [] {
      var n := |xs| - 1;
      assert forall i :: 0 <= i < n ==> xs[..n][i] == xs[i];
      CollectLength(xs[..n], f);
    }
  }

  /** The entry of the object at index i is part of the collection. */
  lemma {:induction false} CollectHas<T, U>(xs: seq<T>, f: T --> seq<U>, i: nat)
    requires forall k :: 0 <= k < |xs| ==> f.requires(xs[k])
    requires i < |xs|
    ensures forall u :: u in f(xs[i]) ==> u in Collect(xs, f)
  {
    var n := |xs| - 1;
    if i < n {
      assert xs[..n][i] == xs[i];
      CollectHas(xs[..n], f, i);
    }
  }

  /** Every element of the collection comes from the entry of some object. */
  lemma {:induction false} CollectFrom<T, U>(xs: seq<T>, f: T --> seq<U>)
    requires forall k :: 0 <= k < |xs| ==> f.requires(xs[k])
    ensures forall u :: u in Collect(xs, f) ==> exists i :: 0 <= i < |xs| && u in f(xs[i])
  {
    if xs != [] {
      var n := |xs| - 1;
      assert forall k :: 0 <= k < n ==> xs[..n][k] == xs[k];
      CollectFrom(xs[..n], f);
    }
  }

  lemma DevicesOfSound(objects: seq<ManagedObject>)
    requires forall i :: 0 <= i < |objects| ==> ObjectTyped(objects[i])
    ensures forall d :: d in DevicesOf(objects) ==>
              exists i :: 0 <= i < |objects| && DeviceIF in objects[i].interfaces && Usable(objects[i].interfaces) &&
                d == DeviceOf(objects[i].path, objects[i].interfaces[DeviceIF], BatteryOf(objects[i]))
  {
    CollectFrom(objects, DeviceEntry);
    forall d | d in DevicesOf(objects)
      ensures exists i :: 0 <= i < |objects| && DeviceIF in objects[i].interfaces && Usable(objects[i].interfaces) &&
                d == DeviceOf(objects[i].path, objects[i].interfaces[DeviceIF], BatteryOf(objects[i]))
    {
      var i :| 0 <= i < |objects| && d in DeviceEntry(objects[i]);
    }
  }
}
