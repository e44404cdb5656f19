/** The update loop of the application model BluepalaData (bluepala.go):
    how each message changes the adapter list, the two device lists (paired
    and nearby), the four tables and the confirmation modal, and which
    commands it hands back to the runtime. The device lists are Go slices,
    so each is kept as its whole backing array together with the length in
    use: appends that write into spare capacity, removals that shift inside
    the array and pointers into the array are modelled as the source has
    them. */
module Bluepala {
  import opened Types
  import opened Utils
  import opened BluezState
  import Table

  // ---------------------------------------------------------------------
  // The state

  /** Every field of BluepalaData that Update reads or writes. The
      confirmation modal is represented by its message and value. */
  datatype State = State(
    Width: int,
    Height: int,
    SelectedTable: int,
    IsScanning: bool,
    IsModalActive: bool,
    ConfirmMessage: string,
    ConfirmValue: bool,
    Err: Option<string>,
    Adapters: seq<Adapter>,
    PairedArr: seq<Device>,
    PairedLen: nat,
    UnpairedArr: seq<Device>,
    UnpairedLen: nat,
    AdapterTable: Table.TableState,
    DevicesTable: Table.TableState,
    DetailsTable: Table.TableState,
    ScannedTable: Table.TableState)

  /** The lengths fit the backing arrays, one of the three tables tab cycles
      through is selected, and no cursor is negative. */
  predicate Wf(s: State) {
    s.PairedLen <= |s.PairedArr| && s.UnpairedLen <= |s.UnpairedArr| &&
    0 <= s.SelectedTable < 3 &&
    s.AdapterTable.SelectedRow >= 0 && s.DevicesTable.SelectedRow >= 0 &&
    s.DetailsTable.SelectedRow >= 0 && s.ScannedTable.SelectedRow >= 0
  }

  /** The paired devices as the program sees them. */
  function PairedList(s: State): seq<Device>
    requires s.PairedLen <= |s.PairedArr|
  {
    s.PairedArr[..s.PairedLen]
  }

  /** The nearby (unpaired) devices as the program sees them. */
  function UnpairedList(s: State): seq<Device>
    requires s.UnpairedLen <= |s.UnpairedArr|
  {
    s.UnpairedArr[..s.UnpairedLen]
  }

  /** The state bluepalaModel builds (bluepala.go:57-89). */
  function Initial(): (s: State)
    ensures Wf(s) && PairedList(s) == [] && UnpairedList(s) == []
    ensures s.AdapterTable.IsTableSelected && !s.DevicesTable.IsTableSelected && !s.ScannedTable.IsTableSelected
  {
    State(
      Width := 0, Height := 0, SelectedTable := 0, IsScanning := false, IsModalActive := false,
      ConfirmMessage := "", ConfirmValue := false, Err := None, Adapters := [],
      PairedArr := [], PairedLen := 0, UnpairedArr := [], UnpairedLen := 0,
      AdapterTable := Table.TableState(true, 0, 0, 0, None, None, None, None),
      DevicesTable := Table.TableState(false, 0, 11, 0, None, Some([]), None, None),
      DetailsTable := Table.TableState(false, 0, 12, 30, None, None, None, None),
      ScannedTable := Table.TableState(false, 0, 15, 0, None, None, None, Some([])))
  }

  // ---------------------------------------------------------------------
  // The commands of one update

  /** A pointer to a device that a command dereferences only when it runs:
      to a slot of the current paired or nearby array, or into an array
      that an append has since replaced, whose slot can no longer change. */
  datatype Ptr = NoPtr | InPaired(idx: nat) | InUnpaired(idx: nat) | Detached(value: Device)

  /** The commands of a handler: those before the connect command, the slot
      the connect command will read, and those after it. */
  datatype Pending = Pending(before: seq<Cmd>, connect: Ptr, after: seq<Cmd>)

  function Plain(cmds: seq<Cmd>): Pending {
    Pending(cmds, NoPtr, [])
  }

  predicate PtrOk(s: State, p: Ptr) {
    (p.InPaired? ==> p.idx < |s.PairedArr|) && (p.InUnpaired? ==> p.idx < |s.UnpairedArr|)
  }

  /** The connect command, reading the device its slot reference names. */
  function ConnectCmds(s: State, p: Ptr): (r: seq<Cmd>)
    requires PtrOk(s, p)
    ensures |r| == (if p.NoPtr? then 0 else 1) && (r != [] ==> r[0].Connect?)
  {
    match p
    case NoPtr => []
    case InPaired(i) => [Connect(s.PairedArr[i].Path)]
    case InUnpaired(i) => [Connect(s.UnpairedArr[i].Path)]
    case Detached(d) => [Connect(d.Path)]
  }

  /** The adapter, paired and nearby tables are given the current lists. */
  function SyncTables(s: State): (r: State)
    requires Wf(s)
    ensures Wf(r)
  {
    s.(AdapterTable := s.AdapterTable.(Adapters := Some(s.Adapters)),
       DevicesTable := s.DevicesTable.(PairedDevices := Some(PairedList(s))),
       ScannedTable := s.ScannedTable.(ScannedDevices := Some(UnpairedList(s))))
  }

  /** The end of every update that does not return early
      (bluepala.go:492-500): the nearby devices are sorted in place and the
      three list tables are given the current lists. */
  function Finish(s: State, p: Pending): (r: (State, seq<Cmd>))
    requires Wf(s) && PtrOk(s, p.connect)
    ensures Wf(r.0)
    ensures PairedList(r.0) == PairedList(s) && UnpairedList(r.0) == SortByRssi(UnpairedList(s))
    ensures r.0.UnpairedArr[r.0.UnpairedLen..] == s.UnpairedArr[s.UnpairedLen..]
    ensures r.0.DevicesTable.PairedDevices == Some(PairedList(r.0))
    ensures r.0.ScannedTable.ScannedDevices == Some(UnpairedList(r.0))
    ensures r.0.AdapterTable.Adapters == Some(r.0.Adapters)
  {
    var sorted := SortByRssi(UnpairedList(s));
    var s1 := s.(UnpairedArr := sorted + s.UnpairedArr[s.UnpairedLen..]);
    assert UnpairedList(s1) == sorted;
    var s' := SyncTables(s1);
    (s', p.before + ConnectCmds(s', p.connect) + p.after)
  }

  // ---------------------------------------------------------------------
  // DevicePropertiesChanged (bluepala.go:193-296)

  function VariantBool(v: Variant): bool {
    if v.VBool? then v.b else false
  }

  function Int16Or0(v: Variant): int16 {
    if v.VInt16? then v.i else 0
  }

  /** A string property after the change: a string value wins, any other
      value is skipped. */
  function StringChange(changes: Props, key: string, current: string): string {
    if key in changes && changes[key].VString? then changes[key].s else current
  }

  /** A boolean property after the change: a present key always sets it,
      to false when its value is not a boolean. */
  function BoolChange(changes: Props, key: string, current: bool): bool {
    if key in changes then VariantBool(changes[key]) else current
  }

  /** The pairing state after the change: a boolean Paired value wins. */
  function PairedAfter(d: Device, changes: Props): bool {
    if "Paired" in changes && changes["Paired"].VBool? then changes["Paired"].b else d.Paired
  }

  /** The device after updateDevice applied the change map to it. Path,
      address and address type never change. */
  function ApplyChanges(d: Device, changes: Props): (r: Device)
    ensures r.Path == d.Path && r.Address == d.Address && r.AddressType == d.AddressType
  {
    var name := StringChange(changes, "Alias", StringChange(changes, "Name", d.Name));
    var icon := if "Icon" in changes && changes["Icon"].VString? then NormalizeIcon(changes["Icon"].s) else d.Icon;
    var trusted := BoolChange(changes, "Trusted", d.Trusted);
    var connected := BoolChange(changes, "Connected", d.Connected);
    var connectable := BoolChange(changes, "Connectable", d.Connectable);
    var rssi: int16 := if "RSSI" in changes then Int16Or0(changes["RSSI"]) else d.RSSI;
    var battery: int8 :=
      if "Percentage" in changes && changes["Percentage"].VByte? then ByteToInt8(changes["Percentage"].u) else d.Battery;
    Device(d.Path, name, d.Address, icon, d.AddressType, PairedAfter(d, changes), trusted, connected,
           battery, connectable, rssi)
  }

  /** The change sets Paired to `to` on a device whose pairing was not `to`. */
  predicate Flips(d: Device, changes: Props, to: bool) {
    "Paired" in changes && changes["Paired"] == VBool(to) && d.Paired != to
  }

  /** The change makes an untrusted device trusted while it is paired (after
      this change) and not connected (before it). */
  predicate WantsConnect(d: Device, changes: Props) {
    "Trusted" in changes && changes["Trusted"] == VBool(true) && !d.Trusted &&
    PairedAfter(d, changes) && !d.Connected
  }

  /** The backing array after updateDevice: the first device with the path
      gets the change, nothing else is touched. */
  function UpdateSlot(a: seq<Device>, len: nat, path: ObjectPath, changes: Props): (r: seq<Device>)
    requires len <= |a|
    ensures |r| == |a|
  {
    match FirstIndex(a[..len], path)
    case None => a
    case Some(k) => a[k := ApplyChanges(a[k], changes)]
  }

  /** RemoveDeviceByPath on the paired list. */
  function RemovePaired(s: State, path: ObjectPath): (r: State)
    requires Wf(s)
    ensures Wf(r) && |r.PairedArr| == |s.PairedArr| && PairedList(r) == RemoveFirst(PairedList(s), path)
  {
    var (a, len) := RemoveSpec(s.PairedArr, s.PairedLen, path);
    s.(PairedArr := a, PairedLen := len)
  }

  /** RemoveDeviceByPath on the nearby list. */
  function RemoveUnpaired(s: State, path: ObjectPath): (r: State)
    requires Wf(s)
    ensures Wf(r) && |r.UnpairedArr| == |s.UnpairedArr| && UnpairedList(r) == RemoveFirst(UnpairedList(s), path)
  {
    var (a, len) := RemoveSpec(s.UnpairedArr, s.UnpairedLen, path);
    s.(UnpairedArr := a, UnpairedLen := len)
  }

  /** append on the paired list. */
  function AppendPaired(s: State, d: Device): (r: State)
    requires Wf(s)
    ensures Wf(r) && PairedList(r) == PairedList(s) + [d]
  {
    s.(PairedArr := AppendSpec(s.PairedArr, s.PairedLen, d), PairedLen := s.PairedLen + 1)
  }

  /** append on the nearby list. */
  function AppendUnpaired(s: State, d: Device): (r: State)
    requires Wf(s)
    ensures Wf(r) && UnpairedList(r) == UnpairedList(s) + [d]
  {
    s.(UnpairedArr := AppendSpec(s.UnpairedArr, s.UnpairedLen, d), UnpairedLen := s.UnpairedLen + 1)
  }

  /** The slot the connect command will read: a nearby device that asks for
      it wins over a paired one, because the nearby list is updated second. */
  function ConnectPtr(s: State, path: ObjectPath, changes: Props): (p: Ptr)
    requires Wf(s)
    ensures PtrOk(s, p) && !p.Detached?
  {
    var P, U := PairedList(s), UnpairedList(s);
    var kp, ku := FirstIndex(P, path), FirstIndex(U, path);
    if ku.Some? && WantsConnect(U[ku.value], changes) then InUnpaired(ku.value)
    else if kp.Some? && WantsConnect(P[kp.value], changes) then InPaired(kp.value)
    else NoPtr
  }

  /** Both lists after updateDevice ran on each. */
  function UpdateLists(s: State, path: ObjectPath, changes: Props): (r: State)
    requires Wf(s)
    ensures Wf(r) && |r.PairedArr| == |s.PairedArr| && |r.UnpairedArr| == |s.UnpairedArr|
  {
    s.(PairedArr := UpdateSlot(s.PairedArr, s.PairedLen, path, changes),
       UnpairedArr := UpdateSlot(s.UnpairedArr, s.UnpairedLen, path, changes))
  }

  /** A nearby device at index k that just got paired (bluepala.go:277-284):
      it is removed by its path, the record its slot now holds
      is appended to the paired list, and that record's path is trusted. */
  function ToPaired(s: State, k: nat, p: Ptr): (r: (State, Pending))
    requires Wf(s) && k < s.UnpairedLen && PtrOk(s, p)
    ensures Wf(r.0) && PtrOk(r.0, r.1.connect) && r.1.after == [WaitSignal]
  {
    var s1 := RemoveUnpaired(s, s.UnpairedArr[k].Path);
    var moved := s1.UnpairedArr[k];
    var p' := if p.InPaired? && s.PairedLen == |s.PairedArr| then Detached(s.PairedArr[p.idx]) else p;
    (AppendPaired(s1, moved), Pending([Trust(moved.Path)], p', [WaitSignal]))
  }

  /** A paired device at index k that just got unpaired (bluepala.go:286-289):
      the converse move, without a command. */
  function ToUnpaired(s: State, k: nat, p: Ptr): (r: (State, Pending))
    requires Wf(s) && k < s.PairedLen && PtrOk(s, p)
    ensures Wf(r.0) && PtrOk(r.0, r.1.connect) && r.1.after == [WaitSignal]
  {
    var s1 := RemovePaired(s, s.PairedArr[k].Path);
    var moved := s1.PairedArr[k];
    var p' := if p.InUnpaired? && s.UnpairedLen == |s.UnpairedArr| then Detached(s.UnpairedArr[p.idx]) else p;
    (AppendUnpaired(s1, moved), Pending([], p', [WaitSignal]))
  }

  /** The handler up to the final sort: update both lists, move a device
      whose pairing flipped to the other list, and remember which slot the
      connect command will read. */
  function PropsChanged(s: State, path: ObjectPath, changes: Props): (r: (State, Pending))
    requires Wf(s)
    ensures Wf(r.0) && PtrOk(r.0, r.1.connect) && r.1.after == [WaitSignal]
  {
    var kp, ku := FirstIndex(PairedList(s), path), FirstIndex(UnpairedList(s), path);
    var uMoved := ku.Some? && Flips(s.UnpairedArr[ku.value], changes, true);
    var pMoved := kp.Some? && Flips(s.PairedArr[kp.value], changes, false);
    Relocate(UpdateLists(s, path, changes), uMoved, if ku.Some? then ku.value else 0,
             pMoved, if kp.Some? then kp.value else 0, ConnectPtr(s, path, changes))
  }

  /** The move, if any, of the device whose pairing flipped: at most one of
      the lists loses a device, and every path waits for the next signal. */
  function Relocate(s: State, uMoved: bool, uIdx: nat, pMoved: bool, pIdx: nat, p: Ptr): (r: (State, Pending))
    requires Wf(s) && PtrOk(s, p)
    requires uMoved ==> uIdx < s.UnpairedLen
    requires pMoved ==> pIdx < s.PairedLen
    ensures Wf(r.0) && PtrOk(r.0, r.1.connect) && r.1.after == [WaitSignal]
    ensures !uMoved && !pMoved ==> r == (s, Pending([], p, [WaitSignal]))
  {
    if uMoved then ToPaired(s, uIdx, p)
    else if pMoved then ToUnpaired(s, pIdx, p)
    else (s, Pending([], p, [WaitSignal]))
  }

  // ---------------------------------------------------------------------
  // DeviceAdded, DeviceRemoved (bluepala.go:303-363)

  /** The Battery1 properties, None when the object has no such interface. */
  function BatteryProps(ifs: Interfaces): Option<Props> {
    if BatteryIF in ifs then Some(ifs[BatteryIF]) else None
  }

  /** A parsed device replaces the first paired device with its path, else
      the first nearby one, else it is appended to the list its Paired flag
      names. */
  function AddDevice(s: State, d: Device): (r: State)
    requires Wf(s)
    ensures Wf(r)
    ensures r.(PairedArr := s.PairedArr, PairedLen := s.PairedLen, UnpairedArr := s.UnpairedArr, UnpairedLen := s.UnpairedLen) == s
  {
    match FirstIndex(PairedList(s), d.Path)
    case Some(i) => s.(PairedArr := s.PairedArr[i := d])
    case None =>
      match FirstIndex(UnpairedList(s), d.Path)
      case Some(i) => s.(UnpairedArr := s.UnpairedArr[i := d])
      case None => if d.Paired then AppendPaired(s, d) else AppendUnpaired(s, d)
  }

  /** The device leaves both lists, and the details table forgets it. */
  function RemoveDevice(s: State, path: ObjectPath): (r: State)
    requires Wf(s)
    ensures Wf(r)
    ensures r.(PairedArr := s.PairedArr, PairedLen := s.PairedLen, UnpairedArr := s.UnpairedArr, UnpairedLen := s.UnpairedLen,
               DetailsTable := s.DetailsTable) == s
  {
    var s1 := RemoveUnpaired(RemovePaired(s, path), path);
    var sel := s.DetailsTable.SelectedPaired;
    if sel.Some? && sel.value.Path == path then s1.(DetailsTable := s1.DetailsTable.(SelectedPaired := None))
    else s1
  }

  /** The lists a full device update installs, in fresh arrays. */
  function Repartition(s: State, devices: seq<Device>): (r: State)
    requires Wf(s)
    ensures Wf(r)
    ensures r.(PairedArr := s.PairedArr, PairedLen := s.PairedLen, UnpairedArr := s.UnpairedArr, UnpairedLen := s.UnpairedLen) == s
  {
    var P, U := PairedOnly(devices), UnpairedOnly(devices);
    s.(PairedArr := P, PairedLen := |P|, UnpairedArr := U, UnpairedLen := |U|)
  }

  /** The command that announces the first paired device, if any. */
  function SelectFirst(s: State): Cmd
    requires Wf(s)
  {
    SelectDevice(if s.PairedLen > 0 then Some(s.PairedArr[0]) else None)
  }

  // ---------------------------------------------------------------------
  // Key presses (bluepala.go:394-489)

  /** The keys the model handles: the action keys (enter, space) and the
      quit keys need the D-Bus calls and the program exit left out of it. */
  predicate KeyHandled(key: string) {
    key != "enter" && key != " " && key != "ctrl+c" && key != "ctrl+q" && key != "q" && key != "ctrl+w"
  }

  /** The selected table gets the key first; on the paired table a
      horizontal key also goes to the details table, whose command wins. */
  function ForwardKey(s: State, key: string): (r: (State, Option<Cmd>))
    requires Wf(s)
    ensures Wf(r.0)
    ensures r.0.(AdapterTable := s.AdapterTable, DevicesTable := s.DevicesTable,
                 DetailsTable := s.DetailsTable, ScannedTable := s.ScannedTable) == s
  {
    var msg := Key(key);
    if s.SelectedTable == 0 then
      var (t, c) := Table.Step(s.AdapterTable, msg); (s.(AdapterTable := t), c)
    else if s.SelectedTable == 1 then
      var (t, c) := Table.Step(s.DevicesTable, msg);
      if Table.IsLeft(key) || Table.IsRight(key) then
        var (t2, c2) := Table.Step(s.DetailsTable, msg); (s.(DevicesTable := t, DetailsTable := t2), c2)
      else (s.(DevicesTable := t), c)
    else
      var (t, c) := Table.Step(s.ScannedTable, msg); (s.(ScannedTable := t), c)
  }

  /** tab moves the focus forward, shift+tab back, through the adapter, paired
      and nearby tables; the details table is focused with the paired one. */
  function FocusTable(s: State, sel: int): (r: State)
    requires 0 <= sel < 3
  {
    s.(SelectedTable := sel,
       AdapterTable := s.AdapterTable.(IsTableSelected := sel == 0),
       DevicesTable := s.DevicesTable.(IsTableSelected := sel == 1),
       ScannedTable := s.ScannedTable.(IsTableSelected := sel == 2),
       DetailsTable := s.DetailsTable.(IsTableSelected := sel == 1))
  }

  /** What the key itself does after the table saw it: tab and shift+tab
      move the focus, and s starts or stops a scan on the first adapter. */
  function KeyAction(s: State, key: string, cmds: seq<Cmd>): (r: (State, seq<Cmd>))
    requires Wf(s)
    ensures Wf(r.0)
  {
    if key == "tab" then (FocusTable(s, (s.SelectedTable + 1) % 3), cmds)
    else if key == "shift+tab" then (FocusTable(s, (s.SelectedTable - 1 + 3) % 3), cmds)
    else if key == "s" && |s.Adapters| > 0 then
      (s, cmds + [if !s.IsScanning then StartScan(s.Adapters[0].Path) else StopScan(s.Adapters[0].Path)])
    else (s, cmds)
  }

  function KeyStep(s: State, key: string): (r: (State, Pending))
    requires Wf(s)
    ensures Wf(r.0) && r.1.connect.NoPtr? && r.1.after == []
  {
    var (s1, cmd) := ForwardKey(s, key);
    var (s2, cmds) := KeyAction(s1, key, if cmd.Some? then [cmd.value] else []);
    (SyncTables(s2), Plain(cmds))
  }

  // ---------------------------------------------------------------------
  // Update (bluepala.go:108-501)

  /** The answer the agent receives for a confirmation. */
  function ConfirmAnswer(confirmed: bool): string {
    if confirmed then "yes" else "no"
  }

  /** What each window resize sets (bluepala.go:138-145). */
  function Resize(s: State, w: int, h: int): State {
    s.(Width := w, Height := h,
       AdapterTable := s.AdapterTable.(Width := w),
       DevicesTable := s.DevicesTable.(Width := w - 36),
       DetailsTable := s.DetailsTable.(Width := 36),
       ScannedTable := s.ScannedTable.(Width := w))
  }

  /** The unchecked type assertions the handlers reach do not fail, and the
      key is one the model handles. While the modal is open a message other
      than a resize or a confirmation goes to the modal and demands nothing. */
  predicate Accepted(s: State, msg: Msg) {
    (s.IsModalActive && !msg.WindowSize? && !msg.SubmitConfirm?) ||
    match msg
    case Key(key) => KeyHandled(key)
    case DeviceAdded(_, ifs) => UsableTyped(ifs) && (Usable(ifs) ==> ParseTyped(ifs[DeviceIF]))
    case _ => true
  }

  /** The cases that return before the final sort: everything but a resize
      while the modal is open, opening the modal, a device selection, and an
      added object that is not a usable device. */
  predicate ReturnsEarly(s: State, msg: Msg) {
    (s.IsModalActive && !msg.WindowSize?) || msg.ShowConfirmModal? || msg.DeviceSelected? ||
    (msg.DeviceAdded? && !Usable(msg.interfaces))
  }

  function Early(s: State, msg: Msg): (r: (State, seq<Cmd>))
    requires Wf(s) && ReturnsEarly(s, msg)
    ensures Wf(r.0)
  {
    if s.IsModalActive && !msg.WindowSize? then
      if msg.SubmitConfirm? then (s.(IsModalActive := false), [AgentReply(ConfirmAnswer(msg.confirmed))])
      else (s, [ModalInput(msg)])
    else
      match msg
      case ShowConfirmModal(name, _, _) =>
        (s.(IsModalActive := true, ConfirmMessage := "Confirm pairing to " + name + "?", ConfirmValue := false), [])
      case DeviceSelected(d) => (s.(DetailsTable := s.DetailsTable.(SelectedPaired := d)), [])
      case DeviceAdded(_, _) => (s, [WaitSignal])
  }

  /** The messages of the agent, the refresh tick, the scan toggle and
      errors, which touch neither the lists nor the tables. */
  predicate RuntimeMsg(msg: Msg) {
    msg.PeriodicRefresh? || msg.ShowPinModal? || msg.SubmitPin? || msg.SubmitConfirm? || msg.ScanToggle? || msg.ErrMsg?
  }

  /** Their cases of the switch (bluepala.go:147-180 and 387-392): the agent
      gets the PIN or the yes/no answer, the scan flag flips, the error is
      kept. */
  function Runtime(s: State, msg: Msg): (r: (State, Pending))
    requires RuntimeMsg(msg)
    ensures r.1.connect.NoPtr? && r.0.(IsModalActive := s.IsModalActive, IsScanning := s.IsScanning, Err := s.Err) == s
  {
    match msg
    case PeriodicRefresh(_) => (s, Plain([Refresh]))
    case ShowPinModal(_) => (s, Plain([]))
    case SubmitPin(pin) => (s, Plain([AgentReply(pin)]))
    case SubmitConfirm(c) => (s.(IsModalActive := false), Plain([AgentReply(ConfirmAnswer(c))]))
    case ScanToggle => (s.(IsScanning := !s.IsScanning), Plain([WaitSignal]))
    case ErrMsg(e) => (s.(Err := Some(e)), Plain([]))
  }

  /** The messages that replace the adapters or add, remove or replace
      devices wholesale. */
  predicate ListMsg(msg: Msg) {
    msg.AdapterUpdate? || msg.DeviceAdded? || msg.DeviceRemoved? || msg.DeviceUpdate?
  }

  /** Their cases of the switch (bluepala.go:298-380): only the
      adapters, the two lists and the details table change, and every case
      but the adapter update waits for the next signal. */
  function Lists(s: State, msg: Msg): (r: (State, Pending))
    requires Wf(s) && ListMsg(msg) && Accepted(s, msg) && !ReturnsEarly(s, msg)
    ensures Wf(r.0) && r.1.connect.NoPtr? && r.1.after == []
    ensures (WaitSignal in r.1.before) <==> !msg.AdapterUpdate?
    ensures r.0.(Adapters := s.Adapters, AdapterTable := s.AdapterTable, DetailsTable := s.DetailsTable,
                 PairedArr := s.PairedArr, PairedLen := s.PairedLen,
                 UnpairedArr := s.UnpairedArr, UnpairedLen := s.UnpairedLen) == s
  {
    match msg
    case AdapterUpdate(adapters) =>
      (s.(Adapters := adapters, AdapterTable := s.AdapterTable.(Adapters := Some(adapters))), Plain([]))
    case DeviceAdded(path, ifs) =>
      (AddDevice(s, DeviceOf(path, ifs[DeviceIF], BatteryProps(ifs))), Plain([WaitSignal]))
    case DeviceRemoved(path) => (RemoveDevice(s, path), Plain([WaitSignal]))
    case DeviceUpdate(devices) =>
      var s1 := Repartition(s, devices); (s1, Plain([SelectFirst(s1), WaitSignal]))
  }

  /** The case of the switch on the message, for the cases that go on to the
      final sort. */
  function Handle(s: State, msg: Msg): (r: (State, Pending))
    requires Wf(s) && Accepted(s, msg) && !ReturnsEarly(s, msg)
    ensures Wf(r.0) && PtrOk(r.0, r.1.connect)
  {
    match msg
    case WindowSize(w, h) => (Resize(s, w, h), Plain([]))
    case PeriodicRefresh(_) => Runtime(s, msg)
    case ShowPinModal(_) => Runtime(s, msg)
    case SubmitPin(_) => Runtime(s, msg)
    case SubmitConfirm(_) => Runtime(s, msg)
    case DevicePropertiesChanged(path, changes) => PropsChanged(s, path, changes)
    case AdapterUpdate(_) => Lists(s, msg)
    case DeviceAdded(_, _) => Lists(s, msg)
    case DeviceRemoved(_) => Lists(s, msg)
    case DeviceUpdate(_) => Lists(s, msg)
    case ScanToggle => Runtime(s, msg)
    case ErrMsg(_) => Runtime(s, msg)
    case Key(key) => KeyStep(s, key)
  }

  /** Which group of cases a message falls in, and the function that
      handles that group. */
  lemma HandleByKind(s: State, msg: Msg)
    requires Wf(s) && Accepted(s, msg) && !ReturnsEarly(s, msg)
    ensures msg.Key? ==> Handle(s, msg) == KeyStep(s, msg.key)
    ensures msg.DevicePropertiesChanged? ==> Handle(s, msg) == PropsChanged(s, msg.changedPath, msg.changes)
    ensures ListMsg(msg) ==> Handle(s, msg) == Lists(s, msg)
  {
  }

  /** BluepalaData.Update: the new state and the commands, in order. Agent
      replies stand for the values sent on the agent's channels. */
  function Step(s: State, msg: Msg): (r: (State, seq<Cmd>))
    requires Wf(s) && Accepted(s, msg)
    ensures Wf(r.0)
  {
    if ReturnsEarly(s, msg) then Early(s, msg)
    else
      var (s1, p) := Handle(s, msg);
      Finish(s1, p)
  }

  // ---------------------------------------------------------------------
  // The imperative model

  /** The body of updateDevice for the matching device (bluepala.go:205-264):
      the pairing and trust checks on the old record, then the field rules. */
  method ChangeDevice(d: Device, changes: Props, isPairedList: bool) returns (r: Device, moved: bool, connect: bool)
    ensures r == ApplyChanges(d, changes)
    ensures moved <==> Flips(d, changes, !isPairedList)
    ensures connect <==> WantsConnect(d, changes)
  {
    moved, connect := false, false;
    var paired := d.Paired;
    if "Paired" in changes && changes["Paired"].VBool? && changes["Paired"].b != d.Paired {
      paired := changes["Paired"].b;
      if (paired && !isPairedList) || (!paired && isPairedList) {
        moved := true;
      }
    }
    assert paired == PairedAfter(d, changes);
    if "Trusted" in changes && changes["Trusted"].VBool? && changes["Trusted"].b && !d.Trusted {
      if paired && !d.Connected {
        connect := true;
      }
    }
    var name, icon := d.Name, d.Icon;
    var trusted, connected, connectable := d.Trusted, d.Connected, d.Connectable;
    var rssi, battery := d.RSSI, d.Battery;
    if "Name" in changes && changes["Name"].VString? {
      name := changes["Name"].s;
    }
    if "Alias" in changes && changes["Alias"].VString? {
      name := changes["Alias"].s;
    }
    assert name == StringChange(changes, "Alias", StringChange(changes, "Name", d.Name));
    if "Icon" in changes && changes["Icon"].VString? {
      icon := NormalizeIcon(changes["Icon"].s);
    }
    if "Trusted" in changes {
      trusted := VariantBool(changes["Trusted"]);
    }
    assert trusted == BoolChange(changes, "Trusted", d.Trusted);
    if "Connected" in changes {
      connected := VariantBool(changes["Connected"]);
    }
    assert connected == BoolChange(changes, "Connected", d.Connected);
    if "Connectable" in changes {
      connectable := VariantBool(changes["Connectable"]);
    }
    assert connectable == BoolChange(changes, "Connectable", d.Connectable);
    if "RSSI" in changes {
      rssi := Int16Or0(changes["RSSI"]);
    }
    if "Percentage" in changes && changes["Percentage"].VByte? {
      battery := ByteToInt8(changes["Percentage"].u);
    }
    r := Device(d.Path, name, d.Address, icon, d.AddressType, paired, trusted, connected,
                battery, connectable, rssi);
  }

  /** updateDevice (bluepala.go:199-270) on one list: find the first device
      with the path, apply the change to it in place, and report whether its
      pairing flipped away from the list it is in and whether it asks to be
      connected. */
  method UpdateDevice(a: array<Device>, len: nat, path: ObjectPath, changes: Props, isPairedList: bool)
    returns (found: bool, idx: nat, moved: bool, connect: bool)
    requires len <= a.Length
    modifies a
    ensures found <==> FirstIndex(old(a[..len]), path).Some?
    ensures found ==> FirstIndex(old(a[..len]), path) == Some(idx)
    ensures a[..] == UpdateSlot(old(a[..]), len, path, changes)
    ensures moved <==> found && Flips(old(a[idx]), changes, !isPairedList)
    ensures connect <==> found && WantsConnect(old(a[idx]), changes)
  {
    found, idx, moved, connect := false, 0, false, false;
    ghost var s := a[..len];
    FirstIndexIsFirst(s, path);
    var i := 0;
    while i < len
      invariant 0 <= i <= len
      invariant forall k :: 0 <= k < i ==> s[k].Path != path
    {
      if a[i].Path == path {
        assert FirstIndex(s, path) == Some(i);
        var d;
        d, moved, connect := ChangeDevice(a[i], changes, isPairedList);
        a[i] := d;
        found, idx := true, i;
        return;
      }
      i := i + 1;
    }
    assert FirstIndex(s, path).None?;
  }

  class BluepalaData {
    var Width: int
    var Height: int
    var SelectedTable: int
    var IsScanning: bool
    var IsModalActive: bool
    var ConfirmMessage: string
    var ConfirmValue: bool
    var Err: Option<string>
    var Adapters: seq<Adapter>
    var PairedDevices: array<Device>
    var PairedLen: nat
    var UnpairedDevices: array<Device>
    var UnpairedLen: nat
    const AdapterTable: Table.TableData
    const DevicesTable: Table.TableData
    const DetailsTable: Table.TableData
    const ScannedTable: Table.TableData

    /** The two lists have separate backing arrays and the four tables are
      separate objects; the snapshot is well formed. */
    predicate Valid()
      reads this, PairedDevices, UnpairedDevices, AdapterTable, DevicesTable, DetailsTable, ScannedTable
    {
      PairedDevices != UnpairedDevices &&
      AdapterTable != DevicesTable && AdapterTable != DetailsTable && AdapterTable != ScannedTable &&
      DevicesTable != DetailsTable && DevicesTable != ScannedTable && DetailsTable != ScannedTable &&
      Wf(Snapshot())
    }

    function Snapshot(): State
      reads this, PairedDevices, UnpairedDevices, AdapterTable, DevicesTable, DetailsTable, ScannedTable
    {
      State(Width, Height, SelectedTable, IsScanning, IsModalActive, ConfirmMessage, ConfirmValue, Err,
            Adapters, PairedDevices[..], PairedLen, UnpairedDevices[..], UnpairedLen,
            AdapterTable.State(), DevicesTable.State(), DetailsTable.State(), ScannedTable.State())
    }

    /** bluepalaModel (bluepala.go:57-89), without the D-Bus connection and
        the agent. */
    constructor ()
      ensures Valid() && Snapshot() == Initial()
      ensures fresh(PairedDevices) && fresh(UnpairedDevices)
    {
      Width, Height, SelectedTable, IsScanning, IsModalActive := 0, 0, 0, false, false;
      ConfirmMessage, ConfirmValue, Err, Adapters := "", false, None, [];
      PairedDevices, PairedLen := new Device[0], 0;
      UnpairedDevices, UnpairedLen := new Device[0], 0;
      AdapterTable := new Table.TableData(Table.TableState(true, 0, 0, 0, None, None, None, None));
      DevicesTable := new Table.TableData(Table.TableState(false, 0, 11, 0, None, Some([]), None, None));
      DetailsTable := new Table.TableData(Table.TableState(false, 0, 12, 30, None, None, None, None));
      ScannedTable := new Table.TableData(Table.TableState(false, 0, 15, 0, None, None, None, Some([])));
    }

    /** The slot a pending connect command reads is the one its slot
        reference names. */
    predicate Tracks(p: Ptr, arr: array?<Device>, idx: nat)
      reads this, arr
    {
      match p
      case NoPtr => arr == null
      case InPaired(i) => arr == PairedDevices && idx == i
      case InUnpaired(i) => arr == UnpairedDevices && idx == i
      case Detached(d) => arr != null && arr != PairedDevices && arr != UnpairedDevices && idx < arr.Length && arr[idx] == d
    }

    /** The end of Update (bluepala.go:492-500), then the command batch with
        the connect command reading its device now. */
    method SortAndSync(before: seq<Cmd>, arr: array?<Device>, idx: nat, after: seq<Cmd>, ghost p: Pending)
      returns (cmds: seq<Cmd>)
      requires Valid() && p.before == before && p.after == after
      requires PtrOk(Snapshot(), p.connect) && Tracks(p.connect, arr, idx)
      modifies UnpairedDevices, AdapterTable, DevicesTable, ScannedTable
      ensures Valid()
      ensures (Snapshot(), cmds) == Finish(old(Snapshot()), p)
    {
      SortDevicesByRSSI(UnpairedDevices, UnpairedLen);
      assert UnpairedDevices[..] == UnpairedDevices[..UnpairedLen] + UnpairedDevices[UnpairedLen..];
      SyncLists();
      var connect: seq<Cmd> := [];
      if arr != null {
        connect := [Connect(arr[idx].Path)];
      }
      cmds := before + connect + after;
    }
  
    /** updateDevice on both lists (bluepala.go:273-274), and the connect
        pointer it leaves behind. */
    method UpdateBoth(path: ObjectPath, changes: Props)
      returns (uMoved: bool, uIdx: nat, pMoved: bool, pIdx: nat, arr: array?<Device>, idx: nat)
      requires Valid()
      modifies PairedDevices, UnpairedDevices
      ensures Valid()
      ensures Snapshot() == UpdateLists(old(Snapshot()), path, changes)
      ensures Tracks(ConnectPtr(old(Snapshot()), path, changes), arr, idx)
      ensures var ku := FirstIndex(UnpairedList(old(Snapshot())), path);
              uMoved <==> ku.Some? && Flips(old(Snapshot()).UnpairedArr[ku.value], changes, true)
      ensures uMoved ==> FirstIndex(UnpairedList(old(Snapshot())), path) == Some(uIdx)
      ensures var kp := FirstIndex(PairedList(old(Snapshot())), path);
              pMoved <==> kp.Some? && Flips(old(Snapshot()).PairedArr[kp.value], changes, false)
      ensures pMoved ==> FirstIndex(PairedList(old(Snapshot())), path) == Some(pIdx)
      ensures !(uMoved && pMoved)
    {
      var pFound, pConnect, uFound, uConnect;
      pFound, pIdx, pMoved, pConnect := UpdateDevice(PairedDevices, PairedLen, path, changes, true);
      uFound, uIdx, uMoved, uConnect := UpdateDevice(UnpairedDevices, UnpairedLen, path, changes, false);
      arr, idx := null, 0;
      if pConnect {
        arr, idx := PairedDevices, pIdx;
      }
      if uConnect {
        arr, idx := UnpairedDevices, uIdx;
      }
    }

    /** RemoveDeviceByPath on the paired list. */
    method RemoveFromPaired(path: ObjectPath)
      requires Valid()
      modifies this, PairedDevices
      ensures Valid() && Snapshot() == RemovePaired(old(Snapshot()), path)
      ensures PairedDevices == old(PairedDevices) && UnpairedDevices == old(UnpairedDevices)
    {
      ghost var before := PairedDevices[..];
      var oldLen := PairedLen;
      PairedLen := RemoveDeviceByPath(PairedDevices, PairedLen, path);
      RemoveSpecOfArray(before, PairedDevices[..], oldLen, PairedLen, path);
    }

    /** RemoveDeviceByPath on the nearby list. */
    method RemoveFromUnpaired(path: ObjectPath)
      requires Valid()
      modifies this, UnpairedDevices
      ensures Valid() && Snapshot() == RemoveUnpaired(old(Snapshot()), path)
      ensures PairedDevices == old(PairedDevices) && UnpairedDevices == old(UnpairedDevices)
    {
      ghost var before := UnpairedDevices[..];
      var oldLen := UnpairedLen;
      UnpairedLen := RemoveDeviceByPath(UnpairedDevices, UnpairedLen, path);
      RemoveSpecOfArray(before, UnpairedDevices[..], oldLen, UnpairedLen, path);
    }

    /** append on the paired list: in place when there is room, otherwise
        into a fresh array, leaving the old one as it was. */
    method AppendToPaired(d: Device)
      requires Valid()
      modifies this, PairedDevices
      ensures Valid() && Snapshot() == AppendPaired(old(Snapshot()), d)
      ensures UnpairedDevices == old(UnpairedDevices)
      ensures PairedDevices == old(PairedDevices) <==> old(PairedLen) < old(PairedDevices.Length)
      ensures PairedDevices != old(PairedDevices) ==> fresh(PairedDevices) && old(PairedDevices)[..] == old(PairedDevices[..])
    {
      PairedDevices, PairedLen := Append(PairedDevices, PairedLen, d);
    }

    /** append on the nearby list. */
    method AppendToUnpaired(d: Device)
      requires Valid()
      modifies this, UnpairedDevices
      ensures Valid() && Snapshot() == AppendUnpaired(old(Snapshot()), d)
      ensures PairedDevices == old(PairedDevices)
      ensures UnpairedDevices == old(UnpairedDevices) <==> old(UnpairedLen) < old(UnpairedDevices.Length)
      ensures UnpairedDevices != old(UnpairedDevices) ==> fresh(UnpairedDevices) && old(UnpairedDevices)[..] == old(UnpairedDevices[..])
    {
      UnpairedDevices, UnpairedLen := Append(UnpairedDevices, UnpairedLen, d);
    }

    /** The move of a newly paired device (bluepala.go:277-284). */
    method MoveToPaired(k: nat, arr: array?<Device>, idx: nat, ghost p: Ptr) returns (trust: seq<Cmd>)
      requires Valid() && k < UnpairedLen && PtrOk(Snapshot(), p) && Tracks(p, arr, idx)
      modifies this, PairedDevices, UnpairedDevices
      ensures Valid()
      ensures var (s, q) := ToPaired(old(Snapshot()), k, p);
              Snapshot() == s && trust == q.before && Tracks(q.connect, arr, idx)
      ensures PairedDevices == old(PairedDevices) || fresh(PairedDevices)
      ensures UnpairedDevices == old(UnpairedDevices) || fresh(UnpairedDevices)
    {
      RemoveFromUnpaired(UnpairedDevices[k].Path);
      var moved := UnpairedDevices[k];
      AppendToPaired(moved);
      trust := [Trust(moved.Path)];
    }

    /** The move of a newly unpaired device (bluepala.go:286-289). */
    method MoveToUnpaired(k: nat, arr: array?<Device>, idx: nat, ghost p: Ptr)
      requires Valid() && k < PairedLen && PtrOk(Snapshot(), p) && Tracks(p, arr, idx)
      modifies this, PairedDevices, UnpairedDevices
      ensures Valid()
      ensures var (s, q) := ToUnpaired(old(Snapshot()), k, p);
              Snapshot() == s && Tracks(q.connect, arr, idx)
      ensures PairedDevices == old(PairedDevices) || fresh(PairedDevices)
      ensures UnpairedDevices == old(UnpairedDevices) || fresh(UnpairedDevices)
    {
      RemoveFromPaired(PairedDevices[k].Path);
      var moved := PairedDevices[k];
      AppendToUnpaired(moved);
    }

    /** The devices-changed handler (bluepala.go:193-296) up to the final
        sort: the Trust command, and the slot the connect command will read. */
    method PropertiesChanged(path: ObjectPath, changes: Props)
      returns (trust: seq<Cmd>, arr: array?<Device>, idx: nat)
      requires Valid()
      modifies this, PairedDevices, UnpairedDevices
      ensures Valid()
      ensures var (s, p) := PropsChanged(old(Snapshot()), path, changes);
              Snapshot() == s && trust == p.before && Tracks(p.connect, arr, idx)
      ensures PairedDevices == old(PairedDevices) || fresh(PairedDevices)
      ensures UnpairedDevices == old(UnpairedDevices) || fresh(UnpairedDevices)
    {
      ghost var s0 := Snapshot();
      ghost var p := ConnectPtr(s0, path, changes);
      var uMoved, uIdx, pMoved, pIdx;
      uMoved, uIdx, pMoved, pIdx, arr, idx := UpdateBoth(path, changes);
      assert Snapshot() == UpdateLists(s0, path, changes);
      trust := MoveFlipped(uMoved, uIdx, pMoved, pIdx, arr, idx, p);
    }

    /** The moves of bluepala.go:276-289: a device the change paired leaves
        the nearby list, one it unpaired leaves the paired list. */
    method MoveFlipped(uMoved: bool, uIdx: nat, pMoved: bool, pIdx: nat, arr: array?<Device>, idx: nat, ghost p: Ptr)
      returns (trust: seq<Cmd>)
      requires Valid() && !(uMoved && pMoved) && PtrOk(Snapshot(), p) && Tracks(p, arr, idx)
      requires uMoved ==> uIdx < UnpairedLen
      requires pMoved ==> pIdx < PairedLen
      modifies this, PairedDevices, UnpairedDevices
      ensures Valid()
      ensures var (s, q) := Relocate(old(Snapshot()), uMoved, uIdx, pMoved, pIdx, p);
              Snapshot() == s && trust == q.before && Tracks(q.connect, arr, idx)
      ensures PairedDevices == old(PairedDevices) || fresh(PairedDevices)
      ensures UnpairedDevices == old(UnpairedDevices) || fresh(UnpairedDevices)
    {
      trust := [];
      if uMoved {
        trust := MoveToPaired(uIdx, arr, idx, p);
      }
      if pMoved {
        MoveToUnpaired(pIdx, arr, idx, p);
      }
    }

    /** The first slot of a list holding the path, as the range loops of
        the device-added handler find it. */
    static method FindSlot(a: array<Device>, len: nat, path: ObjectPath) returns (found: bool, i: nat)
      requires len <= a.Length
      ensures found <==> FirstIndex(a[..len], path).Some?
      ensures found ==> FirstIndex(a[..len], path) == Some(i)
    {
      FirstIndexIsFirst(a[..len], path);
      i := 0;
      while i < len
        invariant i <= len
        invariant forall k :: 0 <= k < i ==> a[k].Path != path
      {
        if a[i].Path == path {
          return true, i;
        }
        i := i + 1;
      }
      return false, 0;
    }

    /** The device-added handler after the parse (bluepala.go:314-342). */
    method InsertDevice(d: Device)
      requires Valid()
      modifies this, PairedDevices, UnpairedDevices
      ensures Valid() && Snapshot() == AddDevice(old(Snapshot()), d)
      ensures PairedDevices == old(PairedDevices) || fresh(PairedDevices)
      ensures UnpairedDevices == old(UnpairedDevices) || fresh(UnpairedDevices)
    {
      var found, i := FindSlot(PairedDevices, PairedLen, d.Path);
      if found {
        PairedDevices[i] := d;
      } else {
        InsertNotPaired(d);
      }
    }

    /** The rest of the handler when no paired device has the path: replace
        the nearby one that has it, else append to the list Paired names. */
    method InsertNotPaired(d: Device)
      requires Valid() && FirstIndex(PairedList(Snapshot()), d.Path).None?
      modifies this, PairedDevices, UnpairedDevices
      ensures Valid() && Snapshot() == AddDevice(old(Snapshot()), d)
      ensures PairedDevices == old(PairedDevices) || fresh(PairedDevices)
      ensures UnpairedDevices == old(UnpairedDevices) || fresh(UnpairedDevices)
    {
      var found, i := FindSlot(UnpairedDevices, UnpairedLen, d.Path);
      if found {
        UnpairedDevices[i] := d;
      } else if d.Paired {
        AppendToPaired(d);
      } else {
        AppendToUnpaired(d);
      }
    }

    /** The device-removed handler (bluepala.go:346-361); its removeDevice
        closure is RemoveDeviceByPath. */
    method DeleteDevice(path: ObjectPath)
      requires Valid()
      modifies this, PairedDevices, UnpairedDevices, DetailsTable
      ensures Valid() && Snapshot() == RemoveDevice(old(Snapshot()), path)
      ensures PairedDevices == old(PairedDevices) && UnpairedDevices == old(UnpairedDevices)
    {
      RemoveFromPaired(path);
      RemoveFromUnpaired(path);
      if DetailsTable.SelectedPaired.Some? && DetailsTable.SelectedPaired.value.Path == path {
        DetailsTable.SelectedPaired := None;
      }
    }

    /** The full device update (bluepala.go:368-370). */
    method ReplaceDevices(devices: seq<Device>)
      requires Valid()
      modifies this
      ensures Valid() && Snapshot() == Repartition(old(Snapshot()), devices)
      ensures fresh(PairedDevices) && fresh(UnpairedDevices)
    {
      var paired, unpaired := FilterDevicesByPaired(devices);
      var pa := NewBacking(paired);
      var ua := NewBacking(unpaired);
      SetLists(pa, ua);
    }

    /** Both lists take new backing arrays, each used in full. */
    method SetLists(pa: array<Device>, ua: array<Device>)
      requires Valid() && pa != ua
      modifies this
      ensures Valid() && PairedDevices == pa && UnpairedDevices == ua
      ensures Snapshot() == old(Snapshot()).(PairedArr := pa[..], PairedLen := pa.Length,
                                             UnpairedArr := ua[..], UnpairedLen := ua.Length)
    {
      PairedDevices, PairedLen := pa, pa.Length;
      UnpairedDevices, UnpairedLen := ua, ua.Length;
    }

    /** A fresh backing array holding exactly the given devices. */
    static method NewBacking(s: seq<Device>) returns (a: array<Device>)
      ensures fresh(a) && a[..] == s
    {
      a := new Device[|s|](k requires 0 <= k < |s| => s[k]);
      assert a[..] == s;
    }

    /** The focus loop of tab and shift+tab (bluepala.go:461-470). */
    method FocusTables()
      requires Valid()
      modifies AdapterTable, DevicesTable, DetailsTable, ScannedTable
      ensures Valid() && Snapshot() == FocusTable(old(Snapshot()), SelectedTable)
    {
      FocusLoop(AdapterTable, DevicesTable, ScannedTable, DetailsTable, SelectedTable);
    }

    /** The loop over the three tables tab cycles through; the details table
        follows the devices table. */
    static method FocusLoop(adapter: Table.TableData, devices: Table.TableData, scanned: Table.TableData,
                            details: Table.TableData, sel: int)
      requires adapter != devices && adapter != scanned && adapter != details
      requires devices != scanned && devices != details && scanned != details
      requires 0 <= sel < 3
      modifies adapter, devices, scanned, details
      ensures adapter.State() == old(adapter.State()).(IsTableSelected := sel == 0)
      ensures devices.State() == old(devices.State()).(IsTableSelected := sel == 1)
      ensures scanned.State() == old(scanned.State()).(IsTableSelected := sel == 2)
      ensures details.State() == old(details.State()).(IsTableSelected := sel == 1)
    {
      ghost var a0, d0, s0, t0 := adapter.State(), devices.State(), scanned.State(), details.State();
      var tables := [adapter, devices, scanned];
      for i := 0 to 3
        invariant adapter.State() == a0.(IsTableSelected := if 0 < i then sel == 0 else a0.IsTableSelected)
        invariant devices.State() == d0.(IsTableSelected := if 1 < i then sel == 1 else d0.IsTableSelected)
        invariant scanned.State() == s0.(IsTableSelected := if 2 < i then sel == 2 else s0.IsTableSelected)
        invariant details.State() == t0.(IsTableSelected := if sel < i then sel == 1 else t0.IsTableSelected)
      {
        var table := tables[i];
        table.IsTableSelected := false;
        if i == sel {
          table.IsTableSelected := true;
          details.IsTableSelected := i == 1;
        }
      }
    }

    /** The key goes to the selected table (bluepala.go:396-408). */
    method ForwardToTable(key: string) returns (cmd: Option<Cmd>)
      requires Valid()
      modifies AdapterTable, DevicesTable, DetailsTable, ScannedTable
      ensures Valid()
      ensures (Snapshot(), cmd) == ForwardKey(old(Snapshot()), key)
    {
      if SelectedTable == 0 {
        cmd := AdapterTable.Update(Key(key));
      } else if SelectedTable == 1 {
        cmd := DevicesTable.Update(Key(key));
        if Table.IsLeft(key) || Table.IsRight(key) {
          cmd := DetailsTable.Update(Key(key));
        }
      } else {
        cmd := ScannedTable.Update(Key(key));
      }
    }

    /** The switch on the key (bluepala.go:411-484). */
    method KeyActions(key: string, cmds0: seq<Cmd>) returns (cmds: seq<Cmd>)
      requires Valid()
      modifies this, AdapterTable, DevicesTable, DetailsTable, ScannedTable
      ensures Valid()
      ensures (Snapshot(), cmds) == KeyAction(old(Snapshot()), key, cmds0)
      ensures PairedDevices == old(PairedDevices) && UnpairedDevices == old(UnpairedDevices)
    {
      cmds := cmds0;
      if key == "tab" || key == "shift+tab" {
        if key == "tab" {
          SelectedTable := (SelectedTable + 1) % 3;
        } else {
          SelectedTable := (SelectedTable - 1 + 3) % 3;
        }
        FocusTables();
      } else if key == "s" {
        if |Adapters| > 0 {
          if !IsScanning {
            cmds := cmds + [StartScan(Adapters[0].Path)];
          } else {
            cmds := cmds + [StopScan(Adapters[0].Path)];
          }
        }
      }
    }

    /** The tables are given the current lists (bluepala.go:487-489 and
        496-498). */
    method SyncLists()
      requires Valid()
      modifies AdapterTable, DevicesTable, ScannedTable
      ensures Valid() && Snapshot() == SyncTables(old(Snapshot()))
    {
      AdapterTable.Adapters := Some(Adapters);
      DevicesTable.PairedDevices := Some(PairedDevices[..PairedLen]);
      ScannedTable.ScannedDevices := Some(UnpairedDevices[..UnpairedLen]);
    }

    /** The key handler (bluepala.go:394-489) for the keys the model handles. */
    method KeyPress(key: string) returns (cmds: seq<Cmd>)
      requires Valid()
      modifies this, AdapterTable, DevicesTable, DetailsTable, ScannedTable
      ensures Valid()
      ensures Snapshot() == KeyStep(old(Snapshot()), key).0 && cmds == KeyStep(old(Snapshot()), key).1.before
      ensures PairedDevices == old(PairedDevices) && UnpairedDevices == old(UnpairedDevices)
    {
      var cmd := ForwardToTable(key);
      cmds := [];
      if cmd.Some? {
        cmds := [cmd.value];
      }
      cmds := KeyActions(key, cmds);
      SyncLists();
    }

    /** A new terminal size (bluepala.go:138-145): the details table keeps
        36 columns and the paired table gets the rest. */
    method ResizeTables(w: int, h: int)
      requires Valid()
      modifies this, AdapterTable, DevicesTable, DetailsTable, ScannedTable
      ensures Valid() && Snapshot() == Resize(old(Snapshot()), w, h)
      ensures PairedDevices == old(PairedDevices) && UnpairedDevices == old(UnpairedDevices)
    {
      Width, Height := w, h;
      AdapterTable.Width := w;
      DevicesTable.Width := w - 36;
      DetailsTable.Width := 36;
      ScannedTable.Width := w;
    }

    /** The cases of the window, the agent and the runtime
        (bluepala.go:138-180 and 387-392). */
    method HandleUi(msg: Msg) returns (before: seq<Cmd>)
      requires Valid() && !ReturnsEarly(Snapshot(), msg)
      requires msg.WindowSize? || msg.PeriodicRefresh? || msg.ShowPinModal? || msg.SubmitPin? ||
               msg.SubmitConfirm? || msg.ScanToggle? || msg.ErrMsg?
      modifies this, AdapterTable, DevicesTable, DetailsTable, ScannedTable
      ensures Valid() && (Snapshot(), Plain(before)) == Handle(old(Snapshot()), msg)
      ensures PairedDevices == old(PairedDevices) && UnpairedDevices == old(UnpairedDevices)
    {
      if msg.WindowSize? {
        ResizeTables(msg.width, msg.height);
        return [];
      }
      before := HandleRuntime(msg);
    }

    /** The agent replies, the refresh tick, the scan toggle and the error
        (bluepala.go:147-180 and 387-392), which change no table. */
    method HandleRuntime(msg: Msg) returns (before: seq<Cmd>)
      requires Valid() && RuntimeMsg(msg)
      modifies this
      ensures Valid() && (Snapshot(), Plain(before)) == Runtime(old(Snapshot()), msg)
      ensures PairedDevices == old(PairedDevices) && UnpairedDevices == old(UnpairedDevices)
    {
      match msg {
        case PeriodicRefresh(_) =>
          before := [Refresh];
        case ShowPinModal(_) =>
          before := [];
        case SubmitPin(pin) =>
          before := [AgentReply(pin)];
        case SubmitConfirm(c) =>
          before := [AgentReply(ConfirmAnswer(c))];
          IsModalActive := false;
        case ScanToggle =>
          IsScanning := !IsScanning;
          before := [WaitSignal];
        case ErrMsg(e) =>
          Err := Some(e);
          before := [];
      }
    }

    /** The cases that change the adapter and device lists
        (bluepala.go:193-380), after the usability check of an added device. */
    method HandleLists(msg: Msg) returns (before: seq<Cmd>, arr: array?<Device>, idx: nat, ghost p: Pending)
      requires Valid() && Accepted(Snapshot(), msg) && !ReturnsEarly(Snapshot(), msg)
      requires msg.DevicePropertiesChanged? || ListMsg(msg)
      modifies this, PairedDevices, UnpairedDevices, AdapterTable, DetailsTable
      ensures Valid()
      ensures (Snapshot(), p) == if msg.DevicePropertiesChanged?
                                 then PropsChanged(old(Snapshot()), msg.changedPath, msg.changes)
                                 else Lists(old(Snapshot()), msg)
      ensures before == p.before && Tracks(p.connect, arr, idx)
      ensures PairedDevices == old(PairedDevices) || fresh(PairedDevices)
      ensures UnpairedDevices == old(UnpairedDevices) || fresh(UnpairedDevices)
    {
      if msg.DevicePropertiesChanged? {
        p := PropsChanged(Snapshot(), msg.changedPath, msg.changes).1;
        before, arr, idx := PropertiesChanged(msg.changedPath, msg.changes);
      } else {
        before := HandleDevices(msg);
        arr, idx, p := null, 0, Plain(before);
      }
    }

    /** The adapter update and the device added, removed and full update
        handlers. */
    method HandleDevices(msg: Msg) returns (before: seq<Cmd>)
      requires Valid() && ListMsg(msg) && Accepted(Snapshot(), msg) && !ReturnsEarly(Snapshot(), msg)
      modifies this, PairedDevices, UnpairedDevices, AdapterTable, DetailsTable
      ensures Valid() && (Snapshot(), Plain(before)) == Lists(old(Snapshot()), msg)
      ensures PairedDevices == old(PairedDevices) || fresh(PairedDevices)
      ensures UnpairedDevices == old(UnpairedDevices) || fresh(UnpairedDevices)
    {
      match msg {
        case AdapterUpdate(adapters) =>
          Adapters := adapters;
          AdapterTable.Adapters := Some(Adapters);
          before := [];
        case DeviceAdded(path, ifs) =>
          var battery: Option<Props> := None;
          if BatteryIF in ifs {
            battery := Some(ifs[BatteryIF]);
          }
          var d := ParseDevice(path, ifs[DeviceIF], battery);
          InsertDevice(d);
          before := [WaitSignal];
        case DeviceRemoved(path) =>
          DeleteDevice(path);
          before := [WaitSignal];
        case DeviceUpdate(devices) =>
          ReplaceDevices(devices);
          var first: Option<Device> := None;
          if PairedLen > 0 {
            first := Some(PairedDevices[0]);
          }
          before := [SelectDevice(first), WaitSignal];
      }
    }

    /** BluepalaData.Update (bluepala.go:108-501): the early returns, then
        the case of the message, then the final sort. */
    method Update(msg: Msg) returns (cmds: seq<Cmd>)
      requires Valid() && Accepted(Snapshot(), msg)
      modifies this, PairedDevices, UnpairedDevices, AdapterTable, DevicesTable, DetailsTable, ScannedTable
      ensures Valid()
      ensures (Snapshot(), cmds) == Step(old(Snapshot()), msg)
    {
      if (IsModalActive && !msg.WindowSize?) || msg.ShowConfirmModal? || msg.DeviceSelected? {
        cmds := ReturnEarly(msg);
        return;
      }
      if msg.DeviceAdded? {
        var usable := IsUsableDevice(msg.interfaces);
        if !usable {
          return [WaitSignal];
        }
      }
      var before, arr, idx, after, p := Dispatch(msg);
      cmds := SortAndSync(before, arr, idx, after, p);
    }

    /** The cases that return before the final sort: the open modal
        (bluepala.go:111-134), opening it (160-165) and a device selection
        (382-385). */
    method ReturnEarly(msg: Msg) returns (cmds: seq<Cmd>)
      requires Valid() && ((IsModalActive && !msg.WindowSize?) || msg.ShowConfirmModal? || msg.DeviceSelected?)
      modifies this, DetailsTable
      ensures Valid() && (Snapshot(), cmds) == Early(old(Snapshot()), msg)
      ensures PairedDevices == old(PairedDevices) && UnpairedDevices == old(UnpairedDevices)
    {
      if IsModalActive && !msg.WindowSize? {
        if msg.SubmitConfirm? {
          cmds := [AgentReply(ConfirmAnswer(msg.confirmed))];
          IsModalActive := false;
          return;
        }
        return [ModalInput(msg)];
      }
      if msg.ShowConfirmModal? {
        IsModalActive := true;
        ConfirmMessage := "Confirm pairing to " + msg.deviceName + "?";
        ConfirmValue := false;
        return [];
      }
      DetailsTable.SelectedPaired := msg.selected;
      return [];
    }

    /** The switch on the message (bluepala.go:137-491) for the cases that
        go on to the final sort. */
    method Dispatch(msg: Msg) returns (before: seq<Cmd>, arr: array?<Device>, idx: nat, after: seq<Cmd>, ghost p: Pending)
      requires Valid() && Accepted(Snapshot(), msg) && !ReturnsEarly(Snapshot(), msg)
      modifies this, PairedDevices, UnpairedDevices, AdapterTable, DevicesTable, DetailsTable, ScannedTable
      ensures Valid() && (Snapshot(), p) == Handle(old(Snapshot()), msg)
      ensures before == p.before && after == p.after && Tracks(p.connect, arr, idx)
      ensures PairedDevices == old(PairedDevices) || fresh(PairedDevices)
      ensures UnpairedDevices == old(UnpairedDevices) || fresh(UnpairedDevices)
    {
      HandleByKind(Snapshot(), msg);
      if msg.Key? {
        before := KeyPress(msg.key);
        arr, idx, p := null, 0, Plain(before);
      } else if msg.DevicePropertiesChanged? || msg.AdapterUpdate? || msg.DeviceAdded? || msg.DeviceRemoved? || msg.DeviceUpdate? {
        before, arr, idx, p := HandleLists(msg);
      } else {
        before := HandleUi(msg);
        arr, idx, p := null, 0, Plain(before);
      }
      after := [];
      if msg.DevicePropertiesChanged? {
        after := [WaitSignal];
      }
    }
  }
}
