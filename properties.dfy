/** What one call of BluepalaData.Update does to the device lists and the
    commands it returns, stated about the lists the program sees (the used
    part of each backing array) rather than the arrays. */
module BluepalaProperties {
  import opened Types
  import opened Utils
  import opened BluezState
  import opened Bluepala

  // ---------------------------------------------------------------------
  // List views of the array operations

  /** The list after updateDevice: its first device with the path gets the
      change. */
  function UpdateFirst(l: seq<Device>, path: ObjectPath, changes: Props): (r: seq<Device>)
    ensures |r| == |l|
  {
    match FirstIndex(l, path)
    case None => l
    case Some(k) => l[k := ApplyChanges(l[k], changes)]
  }

  /** The first match depends only on the paths. */
  lemma {:induction false} FirstIndexSamePaths(s: seq<Device>, t: seq<Device>, path: ObjectPath)
    requires |s| == |t| && forall i :: 0 <= i < |s| ==> s[i].Path == t[i].Path
    ensures FirstIndex(s, path) == FirstIndex(t, path)
  {
    if s != [] {
      FirstIndexSamePaths(s[1..], t[1..], path);
    }
  }

  /** Updating a device keeps the first match of its path and what removing
      that match leaves. */
  lemma UpdateFirstFacts(l: seq<Device>, path: ObjectPath, changes: Props)
    ensures FirstIndex(UpdateFirst(l, path, changes), path) == FirstIndex(l, path)
    ensures RemoveFirst(UpdateFirst(l, path, changes), path) == RemoveFirst(l, path)
  {
    var l' := UpdateFirst(l, path, changes);
    FirstIndexSamePaths(l, l', path);
    if FirstIndex(l, path).Some? {
      var k := FirstIndex(l, path).value;
      assert l'[..k] == l[..k] && l'[k + 1..] == l[k + 1..];
    }
  }

  lemma UpdateSlotList(a: seq<Device>, len: nat, path: ObjectPath, changes: Props)
    requires len <= |a|
    ensures UpdateSlot(a, len, path, changes)[..len] == UpdateFirst(a[..len], path, changes)
  {
    if FirstIndex(a[..len], path).Some? {
      var k := FirstIndex(a[..len], path).value;
      assert a[k := ApplyChanges(a[k], changes)][..len] == a[..len][k := ApplyChanges(a[k], changes)];
    }
  }

  lemma UpdateListsLists(s: State, path: ObjectPath, changes: Props)
    requires Wf(s)
    ensures PairedList(UpdateLists(s, path, changes)) == UpdateFirst(PairedList(s), path, changes)
    ensures UnpairedList(UpdateLists(s, path, changes)) == UpdateFirst(UnpairedList(s), path, changes)
  {
    UpdateSlotList(s.PairedArr, s.PairedLen, path, changes);
    UpdateSlotList(s.UnpairedArr, s.UnpairedLen, path, changes);
  }

  /** The move to the paired list: the device at k leaves the nearby list,
      and the record its slot holds after the in-place shift (the next
      device, unless it was the last one) joins the paired list and is
      trusted. */
  lemma ToPairedLists(s: State, k: nat, p: Ptr)
    requires Wf(s) && k < s.UnpairedLen && PtrOk(s, p)
    requires FirstIndex(UnpairedList(s), s.UnpairedArr[k].Path) == Some(k)
    ensures var (s', q) := ToPaired(s, k, p);
            var U := UnpairedList(s);
            var moved := if k + 1 < |U| then U[k + 1] else U[k];
            PairedList(s') == PairedList(s) + [moved] &&
            UnpairedList(s') == RemoveFirst(U, U[k].Path) &&
            q.before == [Trust(moved.Path)] && q.connect.NoPtr? == p.NoPtr?
  {
    var U := UnpairedList(s);
    var (a, len) := RemoveSpec(s.UnpairedArr, s.UnpairedLen, U[k].Path);
    assert a == a[..len] + a[len..];
    SlotAfterRemove(U, k, a, a[len..]);
  }

  /** The converse move to the nearby list, without a command. */
  lemma ToUnpairedLists(s: State, k: nat, p: Ptr)
    requires Wf(s) && k < s.PairedLen && PtrOk(s, p)
    requires FirstIndex(PairedList(s), s.PairedArr[k].Path) == Some(k)
    ensures var (s', q) := ToUnpaired(s, k, p);
            var P := PairedList(s);
            var moved := if k + 1 < |P| then P[k + 1] else P[k];
            UnpairedList(s') == UnpairedList(s) + [moved] &&
            PairedList(s') == RemoveFirst(P, P[k].Path) &&
            q.before == [] && q.connect.NoPtr? == p.NoPtr?
  {
    var P := PairedList(s);
    var (a, len) := RemoveSpec(s.PairedArr, s.PairedLen, P[k].Path);
    assert a == a[..len] + a[len..];
    SlotAfterRemove(P, k, a, a[len..]);
  }

  /** The commands of a finished handler, counted. */
  lemma PendingCounts(s: State, p: Pending)
    requires PtrOk(s, p.connect)
    ensures var cmds := p.before + ConnectCmds(s, p.connect) + p.after;
            CountTrust(cmds) == CountTrust(p.before) + CountTrust(p.after) &&
            CountConnect(cmds) == CountConnect(p.before) + (if p.connect.NoPtr? then 0 else 1) + CountConnect(p.after)
  {
    var c := ConnectCmds(s, p.connect);
    CountsAppend(p.before, c);
    CountsAppend(p.before + c, p.after);
    if c != [] {
      assert c[1..] == [];
    }
  }

  /** A single trust command first, the signal wait last. */
  lemma PendingOneTrust(s: State, p: Pending, path: ObjectPath)
    requires PtrOk(s, p.connect) && p.before == [Trust(path)] && p.after == [WaitSignal]
    ensures var cmds := p.before + ConnectCmds(s, p.connect) + p.after;
            CountTrust(cmds) == 1 && cmds[0] == Trust(path)
  {
    PendingCounts(s, p);
  }

  // ---------------------------------------------------------------------
  // Update in two halves: the case of the message, then the final sort

  /** A message that does not return early: the handler's state with the
      nearby list sorted and the tables given the lists, and the handler's
      commands with the connect command reading its slot after the sort. */
  lemma StepFinishes(s: State, msg: Msg)
    requires Wf(s) && Accepted(s, msg) && !ReturnsEarly(s, msg)
    ensures var (s1, p) := Handle(s, msg);
            var (s', cmds) := Step(s, msg);
            PtrOk(s', p.connect) &&
            PairedList(s') == PairedList(s1) && UnpairedList(s') == SortByRssi(UnpairedList(s1)) &&
            cmds == p.before + ConnectCmds(s', p.connect) + p.after &&
            s'.(UnpairedArr := s1.UnpairedArr, AdapterTable := s1.AdapterTable, DevicesTable := s1.DevicesTable,
                ScannedTable := s1.ScannedTable) == s1 &&
            s'.AdapterTable == s1.AdapterTable.(Adapters := Some(s1.Adapters)) &&
            s'.DevicesTable == s1.DevicesTable.(PairedDevices := Some(PairedList(s1))) &&
            s'.ScannedTable == s1.ScannedTable.(ScannedDevices := Some(UnpairedList(s')))
  {
  }

  lemma StepReturnsEarly(s: State, msg: Msg)
    requires Wf(s) && Accepted(s, msg) && ReturnsEarly(s, msg)
    ensures Step(s, msg) == Early(s, msg)
  {
  }

  lemma HandlePropsChanged(s: State, path: ObjectPath, changes: Props)
    requires Wf(s) && !s.IsModalActive
    ensures Handle(s, DevicePropertiesChanged(path, changes)) == PropsChanged(s, path, changes)
  {
  }

  lemma HandleDeviceAdded(s: State, path: ObjectPath, ifs: Interfaces)
    requires Wf(s) && !s.IsModalActive && UsableTyped(ifs) && Usable(ifs) && ParseTyped(ifs[DeviceIF])
    ensures Handle(s, DeviceAdded(path, ifs)) ==
            (AddDevice(s, DeviceOf(path, ifs[DeviceIF], BatteryProps(ifs))), Plain([WaitSignal]))
  {
  }

  lemma HandleDeviceRemoved(s: State, path: ObjectPath)
    requires Wf(s) && !s.IsModalActive
    ensures Handle(s, DeviceRemoved(path)) == (RemoveDevice(s, path), Plain([WaitSignal]))
  {
  }

  lemma HandleDeviceUpdate(s: State, devices: seq<Device>)
    requires Wf(s) && !s.IsModalActive
    ensures var s1 := Repartition(s, devices);
            Handle(s, DeviceUpdate(devices)) == (s1, Plain([SelectFirst(s1), WaitSignal]))
  {
  }

  lemma HandleKey(s: State, key: string)
    requires Wf(s) && !s.IsModalActive && KeyHandled(key)
    ensures Handle(s, Key(key)) == KeyStep(s, key)
  {
  }

  /** The Step-level form of the handlers, one per message, so that the
      lemmas below need not unfold Update themselves. */
  lemma StepOfPropsChanged(s: State, path: ObjectPath, changes: Props)
    requires Wf(s) && !s.IsModalActive
    ensures var (s1, p) := PropsChanged(s, path, changes);
            var r := Step(s, DevicePropertiesChanged(path, changes));
            PtrOk(r.0, p.connect) &&
            PairedList(r.0) == PairedList(s1) && UnpairedList(r.0) == SortByRssi(UnpairedList(s1)) &&
            r.1 == p.before + ConnectCmds(r.0, p.connect) + p.after &&
            r.0.(UnpairedArr := s1.UnpairedArr, AdapterTable := s1.AdapterTable, DevicesTable := s1.DevicesTable,
                 ScannedTable := s1.ScannedTable) == s1
  {
    HandlePropsChanged(s, path, changes);
    StepFinishes(s, DevicePropertiesChanged(path, changes));
  }

  lemma StepOfDeviceAdded(s: State, path: ObjectPath, ifs: Interfaces)
    requires Wf(s) && !s.IsModalActive && UsableTyped(ifs) && Usable(ifs) && ParseTyped(ifs[DeviceIF])
    ensures var s1 := AddDevice(s, DeviceOf(path, ifs[DeviceIF], BatteryProps(ifs)));
            var r := Step(s, DeviceAdded(path, ifs));
            PairedList(r.0) == PairedList(s1) && UnpairedList(r.0) == SortByRssi(UnpairedList(s1)) &&
            r.1 == [WaitSignal]
  {
    HandleDeviceAdded(s, path, ifs);
    StepFinishes(s, DeviceAdded(path, ifs));
  }

  lemma StepOfDeviceRemoved(s: State, path: ObjectPath)
    requires Wf(s) && !s.IsModalActive
    ensures var s1 := RemoveDevice(s, path);
            var r := Step(s, DeviceRemoved(path));
            PairedList(r.0) == PairedList(s1) && UnpairedList(r.0) == SortByRssi(UnpairedList(s1)) &&
            r.0.DetailsTable == s1.DetailsTable && r.1 == [WaitSignal]
  {
    HandleDeviceRemoved(s, path);
    StepFinishes(s, DeviceRemoved(path));
  }

  lemma StepOfDeviceUpdate(s: State, devices: seq<Device>)
    requires Wf(s) && !s.IsModalActive
    ensures var s1 := Repartition(s, devices);
            var r := Step(s, DeviceUpdate(devices));
            PairedList(r.0) == PairedList(s1) && UnpairedList(r.0) == SortByRssi(UnpairedList(s1)) &&
            r.1 == [SelectFirst(s1), WaitSignal]
  {
    HandleDeviceUpdate(s, devices);
    StepFinishes(s, DeviceUpdate(devices));
  }

  lemma StepOfKey(s: State, key: string)
    requires Wf(s) && !s.IsModalActive && KeyHandled(key)
    ensures var (s1, p) := KeyStep(s, key);
            var r := Step(s, Key(key));
            r.1 == p.before + ConnectCmds(r.0, p.connect) + p.after &&
            r.0.(UnpairedArr := s1.UnpairedArr, AdapterTable := s1.AdapterTable, DevicesTable := s1.DevicesTable,
                 ScannedTable := s1.ScannedTable) == s1 &&
            r.0.AdapterTable.IsTableSelected == s1.AdapterTable.IsTableSelected &&
            r.0.DevicesTable.IsTableSelected == s1.DevicesTable.IsTableSelected &&
            r.0.ScannedTable.IsTableSelected == s1.ScannedTable.IsTableSelected
  {
    HandleKey(s, key);
    StepFinishes(s, Key(key));
  }

  // ---------------------------------------------------------------------
  // The handler of DevicePropertiesChanged, before the sort

  /** The device at the first match flips its pairing to `to`. */
  predicate MatchFlips(l: seq<Device>, path: ObjectPath, changes: Props, to: bool) {
    FirstIndex(l, path).Some? && Flips(l[FirstIndex(l, path).value], changes, to)
  }

  /** The device at the first match asks to be connected. */
  predicate MatchWantsConnect(l: seq<Device>, path: ObjectPath, changes: Props) {
    FirstIndex(l, path).Some? && WantsConnect(l[FirstIndex(l, path).value], changes)
  }

  /** A device cannot be paired and unpaired by the same change. */
  lemma MovesExclusive(s: State, path: ObjectPath, changes: Props)
    requires Wf(s)
    ensures !(MatchFlips(UnpairedList(s), path, changes, true) && MatchFlips(PairedList(s), path, changes, false))
  {
  }

  lemma PropsChangedNone(s: State, path: ObjectPath, changes: Props)
    requires Wf(s)
    requires FirstIndex(PairedList(s), path).None? && FirstIndex(UnpairedList(s), path).None?
    ensures PropsChanged(s, path, changes) == (s, Pending([], NoPtr, [WaitSignal]))
  {
    assert UpdateLists(s, path, changes) == s;
  }

  lemma PropsChangedStays(s: State, path: ObjectPath, changes: Props)
    requires Wf(s)
    requires !MatchFlips(UnpairedList(s), path, changes, true) && !MatchFlips(PairedList(s), path, changes, false)
    ensures var (s1, p) := PropsChanged(s, path, changes);
            s1 == UpdateLists(s, path, changes) && p == Pending([], ConnectPtr(s, path, changes), [WaitSignal]) &&
            PairedList(s1) == UpdateFirst(PairedList(s), path, changes) &&
            UnpairedList(s1) == UpdateFirst(UnpairedList(s), path, changes)
  {
    UpdateListsLists(s, path, changes);
  }

  lemma PropsChangedPairs(s: State, path: ObjectPath, changes: Props, k: nat)
    requires Wf(s)
    requires FirstIndex(UnpairedList(s), path) == Some(k) && Flips(UnpairedList(s)[k], changes, true)
    ensures var (s1, p) := PropsChanged(s, path, changes);
            var U := UnpairedList(s);
            var moved := if k + 1 < |U| then U[k + 1] else ApplyChanges(U[k], changes);
            PairedList(s1) == UpdateFirst(PairedList(s), path, changes) + [moved] &&
            UnpairedList(s1) == RemoveFirst(U, path) &&
            p.before == [Trust(moved.Path)] && p.after == [WaitSignal] &&
            p.connect.NoPtr? == ConnectPtr(s, path, changes).NoPtr?
  {
    var s1 := UpdateLists(s, path, changes);
    UpdateListsLists(s, path, changes);
    UpdateFirstFacts(UnpairedList(s), path, changes);
    ToPairedLists(s1, k, ConnectPtr(s, path, changes));
  }

  lemma PropsChangedUnpairs(s: State, path: ObjectPath, changes: Props, k: nat)
    requires Wf(s)
    requires FirstIndex(PairedList(s), path) == Some(k) && Flips(PairedList(s)[k], changes, false)
    ensures var (s1, p) := PropsChanged(s, path, changes);
            var P := PairedList(s);
            var moved := if k + 1 < |P| then P[k + 1] else ApplyChanges(P[k], changes);
            UnpairedList(s1) == UpdateFirst(UnpairedList(s), path, changes) + [moved] &&
            PairedList(s1) == RemoveFirst(P, path) &&
            p.before == [] && p.after == [WaitSignal] &&
            p.connect.NoPtr? == ConnectPtr(s, path, changes).NoPtr?
  {
    var s1 := UpdateLists(s, path, changes);
    UpdateListsLists(s, path, changes);
    UpdateFirstFacts(PairedList(s), path, changes);
    MovesExclusive(s, path, changes);
    ToUnpairedLists(s1, k, ConnectPtr(s, path, changes));
  }

  lemma ConnectPtrNone(s: State, path: ObjectPath, changes: Props)
    requires Wf(s)
    ensures ConnectPtr(s, path, changes).NoPtr? <==>
            !(MatchWantsConnect(UnpairedList(s), path, changes) || MatchWantsConnect(PairedList(s), path, changes))
  {
  }

  /** The commands PropsChanged collects: trust commands only before the
      connect pointer, the signal wait after it, and a pointer exactly when
      a matched device asks to be connected. */
  lemma PropsChangedPending(s: State, path: ObjectPath, changes: Props)
    requires Wf(s)
    ensures var p := PropsChanged(s, path, changes).1;
            p.after == [WaitSignal] &&
            CountTrust(p.before) == |p.before| && CountConnect(p.before) == 0 &&
            (p.connect.NoPtr? <==>
               !(MatchWantsConnect(UnpairedList(s), path, changes) || MatchWantsConnect(PairedList(s), path, changes)))
  {
    ConnectPtrNone(s, path, changes);
    var ku, kp := FirstIndex(UnpairedList(s), path), FirstIndex(PairedList(s), path);
    if ku.Some? && Flips(UnpairedList(s)[ku.value], changes, true) {
      PropsChangedPairs(s, path, changes, ku.value);
      var t := PropsChanged(s, path, changes).1.before;
      assert t[1..] == [];
    } else if kp.Some? && Flips(PairedList(s)[kp.value], changes, false) {
      PropsChangedUnpairs(s, path, changes, kp.value);
    } else {
      PropsChangedStays(s, path, changes);
    }
  }

  /** The handler moves at most one device from one list to the other. */
  lemma PropsChangedCount(s: State, path: ObjectPath, changes: Props)
    requires Wf(s)
    ensures var s1 := PropsChanged(s, path, changes).0;
            |PairedList(s1)| + |UnpairedList(s1)| == |PairedList(s)| + |UnpairedList(s)|
  {
    var ku, kp := FirstIndex(UnpairedList(s), path), FirstIndex(PairedList(s), path);
    if ku.Some? && Flips(UnpairedList(s)[ku.value], changes, true) {
      PropsChangedPairs(s, path, changes, ku.value);
    } else if kp.Some? && Flips(PairedList(s)[kp.value], changes, false) {
      PropsChangedUnpairs(s, path, changes, kp.value);
    } else {
      PropsChangedStays(s, path, changes);
    }
  }

  // ---------------------------------------------------------------------
  // DevicePropertiesChanged (bluepala.go:193-296)

  /** A change whose path matches no device changes no record: the paired
      list and the rest of the state stay as they were, the nearby list is
      only re-sorted, and the only command re-arms the signal wait. */
  lemma PropertiesChangedNoMatch(s: State, path: ObjectPath, changes: Props)
    requires Wf(s) && !s.IsModalActive
    requires FirstIndex(PairedList(s), path).None? && FirstIndex(UnpairedList(s), path).None?
    ensures var (s', cmds) := Step(s, DevicePropertiesChanged(path, changes));
            PairedList(s') == PairedList(s) && UnpairedList(s') == SortByRssi(UnpairedList(s)) &&
            cmds == [WaitSignal] &&
            s'.(UnpairedArr := s.UnpairedArr, AdapterTable := s.AdapterTable, DevicesTable := s.DevicesTable,
                ScannedTable := s.ScannedTable) == s
  {
    PropsChangedNone(s, path, changes);
    StepOfPropsChanged(s, path, changes);
  }

  /** Paired false to true on a nearby device at index k: it leaves the
      nearby list, one record joins the paired list and exactly one trust
      command is sent, first, for that record. The record is the changed
      device only when it was the last of the nearby list; otherwise the
      slot its pointer names has been shifted down and holds the next
      device. */
  lemma PropertiesChangedPairs(s: State, path: ObjectPath, changes: Props, k: nat)
    requires Wf(s) && !s.IsModalActive
    requires FirstIndex(UnpairedList(s), path) == Some(k) && Flips(UnpairedList(s)[k], changes, true)
    ensures var (s', cmds) := Step(s, DevicePropertiesChanged(path, changes));
            var U := UnpairedList(s);
            var moved := if k + 1 < |U| then U[k + 1] else ApplyChanges(U[k], changes);
            PairedList(s') == UpdateFirst(PairedList(s), path, changes) + [moved] &&
            UnpairedList(s') == SortByRssi(RemoveFirst(U, path)) &&
            |UnpairedList(s')| == |U| - 1 && |PairedList(s')| == |PairedList(s)| + 1 &&
            CountTrust(cmds) == 1 && cmds[0] == Trust(moved.Path)
  {
    PropsChangedPairs(s, path, changes, k);
    RemoveFirstProperties(UnpairedList(s), path);
    StepOfPropsChanged(s, path, changes);
    var U := UnpairedList(s);
    var moved := if k + 1 < |U| then U[k + 1] else ApplyChanges(U[k], changes);
    PendingOneTrust(Step(s, DevicePropertiesChanged(path, changes)).0, PropsChanged(s, path, changes).1, moved.Path);
  }

  /** Paired true to false on a paired device at index k: the converse move,
      with no trust command. */
  lemma PropertiesChangedUnpairs(s: State, path: ObjectPath, changes: Props, k: nat)
    requires Wf(s) && !s.IsModalActive
    requires FirstIndex(PairedList(s), path) == Some(k) && Flips(PairedList(s)[k], changes, false)
    ensures var (s', cmds) := Step(s, DevicePropertiesChanged(path, changes));
            var P := PairedList(s);
            var moved := if k + 1 < |P| then P[k + 1] else ApplyChanges(P[k], changes);
            PairedList(s') == RemoveFirst(P, path) &&
            UnpairedList(s') == SortByRssi(UpdateFirst(UnpairedList(s), path, changes) + [moved]) &&
            |PairedList(s')| == |P| - 1 && |UnpairedList(s')| == |UnpairedList(s)| + 1 &&
            CountTrust(cmds) == 0
  {
    PropsChangedUnpairs(s, path, changes, k);
    RemoveFirstProperties(PairedList(s), path);
    StepOfPropsChanged(s, path, changes);
    var p := PropsChanged(s, path, changes).1;
    PendingCounts(Step(s, DevicePropertiesChanged(path, changes)).0, p);
    assert CountTrust(p.after) == 0;
  }

  /** A property change never changes how many devices are stored. */
  lemma PropertiesChangedKeepsCount(s: State, path: ObjectPath, changes: Props)
    requires Wf(s) && !s.IsModalActive
    ensures var s' := Step(s, DevicePropertiesChanged(path, changes)).0;
            |PairedList(s')| + |UnpairedList(s')| == |PairedList(s)| + |UnpairedList(s)|
  {
    PropsChangedCount(s, path, changes);
    StepOfPropsChanged(s, path, changes);
  }

  /** Exactly one connect command is sent iff a matched device becomes
      trusted while it is paired (after this change) and not connected
      (before it), none otherwise; the trust and connect commands come
      before the final signal wait and nothing else is sent. */
  lemma PropertiesChangedConnect(s: State, path: ObjectPath, changes: Props)
    requires Wf(s) && !s.IsModalActive
    ensures var cmds := Step(s, DevicePropertiesChanged(path, changes)).1;
            CountConnect(cmds) ==
              (if MatchWantsConnect(UnpairedList(s), path, changes) || MatchWantsConnect(PairedList(s), path, changes)
               then 1 else 0) &&
            |cmds| == CountTrust(cmds) + CountConnect(cmds) + 1 && cmds[|cmds| - 1] == WaitSignal
  {
    PropsChangedPending(s, path, changes);
    StepOfPropsChanged(s, path, changes);
    var p := PropsChanged(s, path, changes).1;
    PendingCounts(Step(s, DevicePropertiesChanged(path, changes)).0, p);
    assert CountTrust([WaitSignal]) == 0 && CountConnect([WaitSignal]) == 0;
  }

  // ---------------------------------------------------------------------
  // The field rules of updateDevice (bluepala.go:232-264)

  /** Alias wins over Name; a wrongly typed Name, Alias, Icon, Percentage or
      Paired is skipped; a wrongly typed Trusted, Connected, Connectable or
      RSSI resets the field to false or 0. */
  lemma ApplyChangesRules(d: Device, changes: Props)
    ensures var r := ApplyChanges(d, changes);
            ("Alias" in changes && changes["Alias"].VString? ==> r.Name == changes["Alias"].s) &&
            ("Name" in changes && changes["Name"].VString? && !("Alias" in changes && changes["Alias"].VString?) ==>
               r.Name == changes["Name"].s) &&
            (!("Name" in changes && changes["Name"].VString?) && !("Alias" in changes && changes["Alias"].VString?) ==>
               r.Name == d.Name) &&
            (!("Icon" in changes && changes["Icon"].VString?) ==> r.Icon == d.Icon) &&
            (!("Percentage" in changes && changes["Percentage"].VByte?) ==> r.Battery == d.Battery) &&
            (!("Paired" in changes && changes["Paired"].VBool?) ==> r.Paired == d.Paired) &&
            ("Trusted" in changes && !changes["Trusted"].VBool? ==> !r.Trusted) &&
            ("Connected" in changes && !changes["Connected"].VBool? ==> !r.Connected) &&
            ("Connectable" in changes && !changes["Connectable"].VBool? ==> !r.Connectable) &&
            ("RSSI" in changes && !changes["RSSI"].VInt16? ==> r.RSSI == 0)
  {
  }

  /** An empty change leaves the device as it is, and applying a change
      twice is applying it once. */
  lemma ApplyChangesIdempotent(d: Device, changes: Props)
    ensures ApplyChanges(d, map[]) == d
    ensures ApplyChanges(ApplyChanges(d, changes), changes) == ApplyChanges(d, changes)
  {
  }

  /** The first device with the path, with a new RSSI. */
  function WithRssi(l: seq<Device>, path: ObjectPath, rssi: int16): (r: seq<Device>)
    ensures |r| == |l|
  {
    match FirstIndex(l, path)
    case None => l
    case Some(k) => l[k := l[k].(RSSI := rssi)]
  }

  /** A change of the RSSI alone only sets the RSSI. */
  lemma ApplyRssiOnly(d: Device, changes: Props)
    requires changes.Keys == {"RSSI"}
    ensures ApplyChanges(d, changes) == d.(RSSI := Int16Or0(changes["RSSI"]))
  {
    assert "Alias" !in changes && "Name" !in changes && "Icon" !in changes && "Paired" !in changes;
    assert "Trusted" !in changes && "Connected" !in changes && "Connectable" !in changes && "Percentage" !in changes;
  }

  lemma UpdateFirstRssiOnly(l: seq<Device>, path: ObjectPath, changes: Props)
    requires changes.Keys == {"RSSI"}
    ensures UpdateFirst(l, path, changes) == WithRssi(l, path, Int16Or0(changes["RSSI"]))
  {
    if FirstIndex(l, path).Some? {
      ApplyRssiOnly(l[FirstIndex(l, path).value], changes);
    }
  }

  /** A change of the RSSI alone changes nothing but that device's RSSI (and
      the order of the nearby list, by the final sort). */
  lemma PropertiesChangedRssiOnly(s: State, path: ObjectPath, changes: Props)
    requires Wf(s) && !s.IsModalActive && changes.Keys == {"RSSI"}
    ensures var (s', cmds) := Step(s, DevicePropertiesChanged(path, changes));
            var rssi := Int16Or0(changes["RSSI"]);
            PairedList(s') == WithRssi(PairedList(s), path, rssi) &&
            UnpairedList(s') == SortByRssi(WithRssi(UnpairedList(s), path, rssi)) &&
            cmds == [WaitSignal] &&
            s'.(PairedArr := s.PairedArr, UnpairedArr := s.UnpairedArr, AdapterTable := s.AdapterTable,
                DevicesTable := s.DevicesTable, ScannedTable := s.ScannedTable) == s
  {
    assert "Paired" !in changes && "Trusted" !in changes;
    assert ConnectPtr(s, path, changes) == NoPtr;
    PropsChangedStays(s, path, changes);
    UpdateFirstRssiOnly(PairedList(s), path, changes);
    UpdateFirstRssiOnly(UnpairedList(s), path, changes);
    StepOfPropsChanged(s, path, changes);
  }

  // ---------------------------------------------------------------------
  // DeviceAdded, DeviceRemoved, DeviceUpdate (bluepala.go:303-380)

  /** An added object that is not a usable device changes nothing and only
      re-arms the signal wait; the final sort is skipped. */
  lemma DeviceAddedUnusable(s: State, path: ObjectPath, ifs: Interfaces)
    requires Wf(s) && !s.IsModalActive && UsableTyped(ifs) && !Usable(ifs)
    ensures Step(s, DeviceAdded(path, ifs)) == (s, [WaitSignal])
  {
    StepReturnsEarly(s, DeviceAdded(path, ifs));
  }

  lemma AddDeviceLists(s: State, d: Device)
    requires Wf(s)
    ensures var P, U := PairedList(s), UnpairedList(s);
            var P', U' := PairedList(AddDevice(s, d)), UnpairedList(AddDevice(s, d));
            match FirstIndex(P, d.Path)
            case Some(i) => P' == P[i := d] && U' == U
            case None =>
              match FirstIndex(U, d.Path)
              case Some(i) => P' == P && U' == U[i := d]
              case None => if d.Paired then P' == P + [d] && U' == U else P' == P && U' == U + [d]
  {
    match FirstIndex(PairedList(s), d.Path)
    case Some(i) =>
      assert s.PairedArr[i := d][..s.PairedLen] == PairedList(s)[i := d];
    case None =>
      match FirstIndex(UnpairedList(s), d.Path)
      case Some(i) =>
        assert s.UnpairedArr[i := d][..s.UnpairedLen] == UnpairedList(s)[i := d];
      case None =>
  }

  /** A usable device replaces the first paired device with its path, else
      the first nearby one; a new path is appended to the paired list iff
      the device is paired, else to the nearby list. */
  lemma DeviceAddedStores(s: State, path: ObjectPath, ifs: Interfaces)
    requires Wf(s) && !s.IsModalActive && UsableTyped(ifs) && Usable(ifs) && ParseTyped(ifs[DeviceIF])
    ensures var d := DeviceOf(path, ifs[DeviceIF], BatteryProps(ifs));
            var (s', cmds) := Step(s, DeviceAdded(path, ifs));
            var P, U := PairedList(s), UnpairedList(s);
            var P', U' := PairedList(s'), UnpairedList(s');
            cmds == [WaitSignal] &&
            match FirstIndex(P, d.Path)
            case Some(i) => P' == P[i := d] && U' == SortByRssi(U)
            case None =>
              match FirstIndex(U, d.Path)
              case Some(i) => P' == P && U' == SortByRssi(U[i := d])
              case None => if d.Paired then P' == P + [d] && U' == SortByRssi(U) else P' == P && U' == SortByRssi(U + [d])
  {
    AddDeviceLists(s, DeviceOf(path, ifs[DeviceIF], BatteryProps(ifs)));
    StepOfDeviceAdded(s, path, ifs);
  }

  lemma RemoveDeviceLists(s: State, path: ObjectPath)
    requires Wf(s)
    ensures var r, sel := RemoveDevice(s, path), s.DetailsTable.SelectedPaired;
            PairedList(r) == RemoveFirst(PairedList(s), path) &&
            UnpairedList(r) == RemoveFirst(UnpairedList(s), path) &&
            r.DetailsTable.SelectedPaired == (if sel.Some? && sel.value.Path == path then None else sel)
  {
    assert UnpairedList(RemovePaired(s, path)) == UnpairedList(s);
  }

  /** A removed path leaves each list without its first device of that
      path, and the details table forgets its device iff it has that path. */
  lemma DeviceRemovedLists(s: State, path: ObjectPath)
    requires Wf(s) && !s.IsModalActive
    ensures var (s', cmds) := Step(s, DeviceRemoved(path));
            var sel := s.DetailsTable.SelectedPaired;
            PairedList(s') == RemoveFirst(PairedList(s), path) &&
            UnpairedList(s') == SortByRssi(RemoveFirst(UnpairedList(s), path)) &&
            s'.DetailsTable.SelectedPaired == (if sel.Some? && sel.value.Path == path then None else sel) &&
            cmds == [WaitSignal]
  {
    RemoveDeviceLists(s, path);
    StepOfDeviceRemoved(s, path);
  }

  /** A full update installs the order-preserving partition of the devices on
      Paired (the nearby part sorted), loses and invents no device, and
      announces the first paired device, or none when there is none. */
  lemma DeviceUpdateLists(s: State, devices: seq<Device>)
    requires Wf(s) && !s.IsModalActive
    ensures var (s', cmds) := Step(s, DeviceUpdate(devices));
            var P := PairedOnly(devices);
            PairedList(s') == P && UnpairedList(s') == SortByRssi(UnpairedOnly(devices)) &&
            (forall d :: d in PairedList(s') ==> d.Paired) && (forall d :: d in UnpairedList(s') ==> !d.Paired) &&
            multiset(PairedList(s')) + multiset(UnpairedList(s')) == multiset(devices) &&
            cmds == [SelectDevice(if P != [] then Some(P[0]) else None), WaitSignal]
  {
    StepOfDeviceUpdate(s, devices);
    var s1 := Repartition(s, devices);
    assert PairedList(s1) == PairedOnly(devices) && UnpairedList(s1) == UnpairedOnly(devices);
    PartitionProperties(devices);
    SortByRssiCorrect(UnpairedOnly(devices));
    var U := SortByRssi(UnpairedOnly(devices));
    forall d | d in U ensures !d.Paired {
      assert d in multiset(U);
    }
  }

  // ---------------------------------------------------------------------
  // The end of Update (bluepala.go:492-500) and the early returns

  /** Every message that reaches the end leaves the nearby list sorted by
      RSSI, strongest first, then by lower-cased name, holding the same
      devices as before the sort, and the tables showing the current lists. */
  lemma StepSortsAtEnd(s: State, msg: Msg)
    requires Wf(s) && Accepted(s, msg) && !ReturnsEarly(s, msg)
    ensures var s' := Step(s, msg).0;
            var s1 := Handle(s, msg).0;
            SortedByRssi(UnpairedList(s')) && multiset(UnpairedList(s')) == multiset(UnpairedList(s1)) &&
            PairedList(s') == PairedList(s1) &&
            s'.DevicesTable.PairedDevices == Some(PairedList(s')) &&
            s'.ScannedTable.ScannedDevices == Some(UnpairedList(s')) &&
            s'.AdapterTable.Adapters == Some(s'.Adapters)
  {
    StepFinishes(s, msg);
    SortByRssiCorrect(UnpairedList(Handle(s, msg).0));
  }

  /** The early returns skip the sort: both device lists and their arrays
      stay as they were. */
  lemma EarlyKeepsLists(s: State, msg: Msg)
    requires Wf(s) && Accepted(s, msg) && ReturnsEarly(s, msg)
    ensures var s' := Step(s, msg).0;
            s'.PairedArr == s.PairedArr && s'.PairedLen == s.PairedLen &&
            s'.UnpairedArr == s.UnpairedArr && s'.UnpairedLen == s.UnpairedLen
  {
    StepReturnsEarly(s, msg);
  }

  /** While the modal is open every message but a resize and a confirmation
      goes to the modal and changes nothing here. */
  lemma ModalForwards(s: State, msg: Msg)
    requires Wf(s) && s.IsModalActive && !msg.WindowSize? && !msg.SubmitConfirm?
    ensures Step(s, msg) == (s, [ModalInput(msg)])
  {
    StepReturnsEarly(s, msg);
  }

  /** A confirmation closes the modal and answers the agent "yes" or "no",
      whether or not the modal was open. */
  lemma SubmitConfirmCloses(s: State, confirmed: bool)
    requires Wf(s)
    ensures var (s', cmds) := Step(s, SubmitConfirm(confirmed));
            !s'.IsModalActive && cmds == [AgentReply(if confirmed then "yes" else "no")] &&
            PairedList(s') == PairedList(s)
  {
    if s.IsModalActive {
      StepReturnsEarly(s, SubmitConfirm(confirmed));
    } else {
      StepFinishes(s, SubmitConfirm(confirmed));
    }
  }

  /** A resize is handled even while the modal is open. */
  lemma WindowSizeResizes(s: State, w: int, h: int)
    requires Wf(s)
    ensures var s' := Step(s, WindowSize(w, h)).0;
            s'.Width == w && s'.Height == h && s'.IsModalActive == s.IsModalActive &&
            s'.DevicesTable.Width == w - 36 && s'.DetailsTable.Width == 36 &&
            s'.AdapterTable.Width == w && s'.ScannedTable.Width == w
  {
    StepFinishes(s, WindowSize(w, h));
  }

  /** Opening the confirmation modal sets its message and returns at once. */
  lemma ShowConfirmOpens(s: State, name: string, confirmPath: ObjectPath, passkey: uint32)
    requires Wf(s) && !s.IsModalActive
    ensures Step(s, ShowConfirmModal(name, confirmPath, passkey)) ==
            (s.(IsModalActive := true, ConfirmMessage := "Confirm pairing to " + name + "?", ConfirmValue := false), [])
  {
    StepReturnsEarly(s, ShowConfirmModal(name, confirmPath, passkey));
  }

  /** A selection message sets the device of the details table and returns
      at once. */
  lemma DeviceSelectedSets(s: State, d: Option<Device>)
    requires Wf(s) && !s.IsModalActive
    ensures var (s', cmds) := Step(s, DeviceSelected(d));
            s'.DetailsTable.SelectedPaired == d && cmds == [] &&
            s'.(DetailsTable := s.DetailsTable) == s
  {
    StepReturnsEarly(s, DeviceSelected(d));
  }

  // ---------------------------------------------------------------------
  // Keys (bluepala.go:394-489)

  /** Exactly the table at SelectedTable is selected, and the details table
      with the paired one. */
  predicate FocusMatches(s: State) {
    (s.AdapterTable.IsTableSelected <==> s.SelectedTable == 0) &&
    (s.DevicesTable.IsTableSelected <==> s.SelectedTable == 1) &&
    (s.ScannedTable.IsTableSelected <==> s.SelectedTable == 2) &&
    (s.DetailsTable.IsTableSelected <==> s.SelectedTable == 1)
  }

  lemma KeyStepFocus(s: State)
    requires Wf(s)
    ensures var s' := KeyStep(s, "tab").0;
            s'.SelectedTable == (s.SelectedTable + 1) % 3 && FocusMatches(s') && s'.IsModalActive == s.IsModalActive
    ensures var s' := KeyStep(s, "shift+tab").0;
            s'.SelectedTable == (s.SelectedTable + 2) % 3 && FocusMatches(s') && s'.IsModalActive == s.IsModalActive
  {
  }

  /** tab moves the focus to the next table and shift+tab to the previous
      one, cyclically, leaving exactly that table selected. */
  lemma TabMovesFocus(s: State)
    requires Wf(s) && !s.IsModalActive
    ensures var s' := Step(s, Key("tab")).0;
            s'.SelectedTable == (s.SelectedTable + 1) % 3 && FocusMatches(s') && !s'.IsModalActive
    ensures var s' := Step(s, Key("shift+tab")).0;
            s'.SelectedTable == (s.SelectedTable + 2) % 3 && FocusMatches(s') && !s'.IsModalActive
  {
    KeyStepFocus(s);
    StepOfKey(s, "tab");
    StepOfKey(s, "shift+tab");
  }

  lemma KeyStepScan(s: State)
    requires Wf(s) && |s.Adapters| > 0
    ensures var (s', p) := KeyStep(s, "s");
            p.before != [] && s'.IsScanning == s.IsScanning &&
            p.before[|p.before| - 1] == (if s.IsScanning then StopScan(s.Adapters[0].Path) else StartScan(s.Adapters[0].Path))
  {
  }

  /** s asks to start a scan on the first adapter when none runs and to stop
      it otherwise, as the last command; the scanning flag waits for the
      toggle message. */
  lemma ScanKey(s: State)
    requires Wf(s) && !s.IsModalActive && |s.Adapters| > 0
    ensures var (s', cmds) := Step(s, Key("s"));
            cmds != [] && s'.IsScanning == s.IsScanning &&
            cmds[|cmds| - 1] == (if s.IsScanning then StopScan(s.Adapters[0].Path) else StartScan(s.Adapters[0].Path))
  {
    KeyStepScan(s);
    StepOfKey(s, "s");
  }

  /** The toggle message flips the scanning flag and re-arms the signal wait. */
  lemma ScanToggleFlips(s: State)
    requires Wf(s) && !s.IsModalActive
    ensures var (s', cmds) := Step(s, ScanToggle);
            s'.IsScanning == !s.IsScanning && cmds == [WaitSignal]
  {
    StepFinishes(s, ScanToggle);
  }
}
