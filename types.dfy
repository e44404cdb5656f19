/** Shared data model: D-Bus values, the Adapter and Device records of
    common/types.go, and the abstract commands the update loop emits. */
module Types {

  datatype Option<+T> = None | Some(value: T)

  type int8 = x: int | -128 <= x < 128
  type int16 = x: int | -32768 <= x < 32768
  type uint8 = x: int | 0 <= x < 256
  type uint16 = x: int | 0 <= x < 65536
  type uint32 = x: int | 0 <= x < 0x1_0000_0000

  type ObjectPath = string

  /** A D-Bus variant, by the Go type its value has after decoding. */
  datatype Variant =
    | VString(s: string)
    | VBool(b: bool)
    | VInt16(i: int16)
    | VByte(u: uint8)
    | VUint16(n: uint16)
    | VStrings(ss: seq<string>)
    | VOther

  /** property name -> value, as in map[string]dbus.Variant */
  type Props = map<string, Variant>
  /** interface name -> properties, as in map[string]map[string]dbus.Variant */
  type Interfaces = map<string, Props>

  const AdapterIF := "org.bluez.Adapter1"
  const DeviceIF := "org.bluez.Device1"
  const BatteryIF := "org.bluez.Battery1"
  const ObjectManagerIF := "org.freedesktop.DBus.ObjectManager"
  const PropsIF := "org.freedesktop.DBus.Properties"

  datatype Adapter = Adapter(
    Path: ObjectPath,
    Name: string,
    Address: string,
    Powered: bool,
    Scanning: bool,
    Modalias: string,
    Discoverable: bool)

  datatype Device = Device(
    Path: ObjectPath,
    Name: string,
    Address: string,
    Icon: string,
    AddressType: string,
    Paired: bool,
    Trusted: bool,
    Connected: bool,
    Battery: int8,
    Connectable: bool,
    RSSI: int16)

  /** Go's int8(b) conversion of a byte: the same bits read in two's
      complement, so the value is congruent to the byte modulo 256 and
      negative exactly when the top bit is set. */
  function ByteToInt8(b: uint8): (r: int8)
    ensures (b as int - r as int) % 256 == 0
    ensures r < 0 <==> b >= 128
  {
    if b < 128 then b else b - 256
  }

  /** The messages the update loop receives (common/types.go, plus the two
      Bubbletea messages it handles: window size and key press). */
  datatype Msg =
    | WindowSize(width: int, height: int)
    | Key(key: string)
    | PeriodicRefresh(refreshAdapters: seq<Adapter>)
    | ShowPinModal(pinPath: ObjectPath)
    | ShowConfirmModal(deviceName: string, confirmPath: ObjectPath, passkey: uint32)
    | SubmitPin(pin: string)
    | SubmitConfirm(confirmed: bool)
    | DevicePropertiesChanged(changedPath: ObjectPath, changes: Props)
    | AdapterUpdate(adapters: seq<Adapter>)
    | DeviceAdded(addedPath: ObjectPath, interfaces: Interfaces)
    | DeviceRemoved(removedPath: ObjectPath)
    | DeviceUpdate(devices: seq<Device>)
    | DeviceSelected(selected: Option<Device>)
    | ScanToggle
    | ErrMsg(err: string)

  /** The commands (tea.Cmd closures) the update loop hands to the runtime,
      and the agent replies it sends on the agent's channel. */
  datatype Cmd =
    | Trust(path: ObjectPath)
    | Connect(path: ObjectPath)
    | WaitSignal
    | SelectDevice(device: Option<Device>)
    | StartScan(adapter: ObjectPath)
    | StopScan(adapter: ObjectPath)
    | Refresh
    | AgentReply(answer: string)
    | ModalInput(input: Msg)

  /** Number of Trust commands, whatever their path. */
  function CountTrust(cmds: seq<Cmd>): (n: nat)
    ensures n <= |cmds|
  {
    if cmds == [] then 0
    else (if cmds[0].Trust? then 1 else 0) + CountTrust(cmds[1..])
  }

  /** Number of Connect commands, whatever their path. */
  function CountConnect(cmds: seq<Cmd>): (n: nat)
    ensures n <= |cmds|
  {
    if cmds == [] then 0
    else (if cmds[0].Connect? then 1 else 0) + CountConnect(cmds[1..])
  }

  lemma {:induction false} CountsAppend(a: seq<Cmd>, b: seq<Cmd>)
    ensures CountTrust(a + b) == CountTrust(a) + CountTrust(b)
    ensures CountConnect(a + b) == CountConnect(a) + CountConnect(b)
  {
    if a == [] {
      assert a + b == b;
    } else {
      assert (a + b)[1..] == a[1..] + b;
      CountsAppend(a[1..], b);
    }
  }
}
