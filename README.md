# bluepala in Dafny

A model of the core of bluepala, a terminal Bluetooth manager written in Go
on top of BlueZ (over D-Bus) and the Bubbletea UI runtime. The model covers:

- **The device store** (`bluepala.dfy`, class `Bluepala.BluepalaData`): the
  message handler `BluepalaData.Update`. It keeps the adapters, the paired
  and the nearby (unpaired) device lists, the four tables, the scanning flag,
  the confirmation-modal flag and the selected table. Each message becomes a
  method call. The handler returns the list of abstract commands it emits
  (`Trust`, `Connect`, `WaitSignal`, `SelectDevice`, `StartScan`, `StopScan`,
  `Refresh`, and the agent replies) instead of Bubbletea command closures.
  The two device lists are Go slices, so each is kept as its backing
  `array<Device>` together with the length in use:
  - `append` writes into spare capacity, or copies into a fresh array;
  - `RemoveDeviceByPath` shifts the tail down inside the same array;
  - a pointer into a list is a slot index.

  This makes the aliasing of the property-changed handler visible. When a
  device flips its `Paired` flag, the handler keeps a pointer to its slot,
  removes the device by path (which shifts the array), and only then reads
  the slot. The record appended to the other list, and the path sent in the
  trust command, are therefore the changed device only when it was the last
  of its list; otherwise they are the device that followed it.
  `PropertiesChangedPairs` and `PropertiesChangedUnpairs` state this outright.
  The whole handler is also given as a function `Bluepala.Step` on a
  value snapshot; the class methods are proved equal to it, and the lemmas
  of `BluepalaProperties` (`properties.dfy`) are stated about it.
- **Parsing** (`state.dfy`): `ParseDevice`, `NormalizeIcon`,
  `IsUsableDevice` with its MAC-address pattern and allow-lists, and the
  object-selection loop of `GetInitialState`. D-Bus values are the
  `Variant` datatype; property maps are `map<string, Variant>`.
- **Signal decoding** (`events.dfy`): `WaitForDBusSignal`, as a decode of
  one signal plus the retry on the next one over the sequence of signals
  still to come.
- **List helpers** (`utils.dfy`): `FilterDevicesByPaired`,
  `RemoveDeviceByPath`, `SortDevicesByRSSI` and the column-width
  computation of `padHeaders`.
- **View models** (`formatters.dfy`, `table.dfy`, `select.dfy`): the
  `FormatArrays` window, the rows of `FormatDevices` and `FormatAdapters`,
  the `TableData.Update` cursor and selection message, and the `Select`
  cursor and text.

Shared types (`types.dfy`) hold the Adapter and Device records, the
messages and the commands. `text.dfy` holds the string functions the core
borrows from Go's library: ASCII lower-casing, `strings.Compare`,
`strings.ReplaceAll`, and the emoji replacement.

The modelled code panics on some wrongly typed D-Bus values, through Go
type assertions without a check. These become preconditions: `ParseTyped`,
`UsableTyped`, `ObjectTyped` and `Accepted`.

## Model

| member | source | states |
|---|---|---|
| `Types.ByteToInt8` | bluetooth/state.go:155-156 | Go's `int8(byte)` reinterprets the bits: the result is congruent to the byte modulo 256 (which, within the int8 range, fixes it) and is negative exactly when the byte's top bit is set |
| `Text.RemoveAll` | common/formatters.go:65 | `strings.ReplaceAll(s, pat, "")` never lengthens the string |
| `Text.RemoveAllAbsent` | common/formatters.go:65 | a string not containing the pattern is returned unchanged |
| `Text.RemoveAllPrefix` | common/formatters.go:65 | a leading occurrence of the pattern is dropped and the rest is kept |
| `Text.SanitizeNoEmoji` | common/formatters.go:160-164 | a name without emoji characters passes `SanitizeEmojis` unchanged |
| `Text.SanitizeRemovesEmoji` | common/formatters.go:160-164 | with an emoji-free replacement, the result holds no emoji character |
| `Utils.PartitionProperties` | common/utils.go:183-196 | the paired half holds only paired devices, the other half only unpaired ones, and together they are the input as a multiset |
| `Utils.PartitionConcat` | common/utils.go:183-196 | filtering distributes over concatenation: the half of `s + t` is the half of `s` followed by the half of `t`, so every device of the front precedes every device of the back in its half |
| `Utils.FilterDevicesByPaired` | common/utils.go:183-196 | the loop returns exactly the order-preserving paired and unpaired halves |
| `Utils.FirstIndexIsFirst` | common/utils.go:199-203 | the index found is the first with the path, and none is found only when no device has the path |
| `Utils.RemoveFirstProperties` | common/utils.go:198-205 | removal takes out one copy of the first match and keeps the others in order; with no match the list is unchanged |
| `Utils.RemoveDeviceByPath` | common/utils.go:198-205 | in place on the array: the visible part becomes the list without its first match, the slots past the new length keep their old values |
| `Utils.ShiftDown` | common/utils.go:201 | `append(devices[:i], devices[i+1:]...)` copies the tail one slot down and leaves the old last slot as it was |
| `Utils.SlotAfterRemove` | common/utils.go:201 | a pointer to the removed slot i then reads the next device, or the removed device itself when it was last |
| `Utils.Append` | bluepala.go:338-340 | Go `append`: the slice grows by the device; written in place iff there is spare capacity, otherwise into a fresh array and the old one is untouched |
| `Utils.BeforeAsymmetric` | common/utils.go:209-219 | the comparator never orders two devices both ways |
| `Utils.NotBeforeTransitive` | common/utils.go:209-219 | "not after" is transitive, so the comparator is a strict weak order |
| `Utils.SortByRssiCorrect` | common/utils.go:208-220 | the sort yields a permutation ordered by RSSI descending, then lower-cased name ascending |
| `Utils.SortByRssiOfSorted` | common/utils.go:208-220 | sorting an already sorted list changes nothing |
| `Utils.SortByRssiIdempotent` | common/utils.go:208-220 | sorting twice is sorting once |
| `Utils.InsertInPlace` | common/utils.go:209 | one insertion step in place: the prefix becomes the sorted prefix with the next device inserted, the rest of the array is untouched |
| `Utils.SortDevicesByRSSI` | common/utils.go:208-220 | sorts the slice in place to the sort specification; slots past the length are untouched |
| `Utils.EffectiveLengths` | common/utils.go:41-47 | nil or length-mismatched header lengths are treated as all flexible (-1); matching ones are used as given |
| `Utils.SumSharesAll` | common/utils.go:69-81 | the equal shares with the remainder spread one by one add up to exactly the remaining width |
| `Utils.FlexWidthsSum` | common/utils.go:49-86 | when some column is flexible, the flexible widths sum to max(max(totalWidth-10,1) - fixed widths, 0) |
| `Utils.FlexWidthsBalanced` | common/utils.go:64-81 | two flexible widths differ by at most one, and exactly the first `remaining % flexCount` flexible columns get the extra unit |
| `Utils.ScanLengths` | common/utils.go:51-60 | the first loop yields the sum of the fixed widths and the flexible column indices in order |
| `Utils.DistributeFlex` | common/utils.go:64-86 | each flexible slot is overwritten with its share, each fixed slot is kept |
| `Utils.FlexShares` | common/utils.go:64-81 | the share array holds, for each flexible column k, the base share plus one exactly when k is below the remainder |
| `Utils.ResolveWidths` | common/utils.go:49-86 | the lengths array ends up holding the resolved widths |
| `Utils.PadHeaders` | common/utils.go:36-104 | empty headers come back unchanged; otherwise header i is rendered at max(width,1), and the caller's lengths are overwritten with the widths iff their length matches |
| `BluezState.NormalizeIcon` | bluetooth/state.go:187-214 | the listed icon names get their label (the four audio names "Audio", computer and laptop "Computer"), every other string, "other" included, gets "Unknown" |
| `BluezState.NormalizeIconRange` | bluetooth/state.go:187-214 | the function is total and yields one of eleven labels |
| `BluezState.MatchesPairsPositionwise` | bluetooth/state.go:226 | the pattern read as a grammar of hex pairs joined by separators equals its position-by-position reading |
| `BluezState.MacAddressShape` | bluetooth/state.go:226 | MAC-shaped means exactly 17 characters: hex digits of either case, and at every third position a separator that is '-' or ':' independently |
| `BluezState.UsefulServiceIds` | bluetooth/state.go:254-263 | a service UUID is allow-listed exactly when its 16-bit id is one of the eight listed ids |
| `BluezState.IsUsableDevice` | bluetooth/state.go:216-273 | false without Device1; otherwise true iff the name is non-empty and not MAC-shaped, or the appearance is one of the 7 codes, or some UUID is allow-listed |
| `BluezState.MacNamedDeviceUnusable` | bluetooth/state.go:222-231 | a device whose only property is a MAC-shaped name is rejected |
| `BluezState.BoolProp` | bluetooth/state.go:135-146 | a boolean property is true iff present and exactly `true` |
| `BluezState.AdapterOf` | bluetooth/state.go:83-111 | the adapter keeps its path, and is discoverable iff the lookup succeeded and said so |
| `BluezState.DeviceOf` | bluetooth/state.go:114-162 | the name is the sanitized alias, else the sanitized name, else ""; address and address type are their string values, else ""; the icon is the normalized icon, else ""; RSSI is its value, else 0; every flag comes only from its own key and is false when absent; battery is the `int8` reading of a byte Percentage, else -1 (a byte of 255 also reads as -1) |
| `BluezState.ParseDevice` | bluetooth/state.go:114-162 | the step-by-step field assignments build exactly the record `DeviceOf` describes |
| `BluezState.ParseDeviceEmpty` | bluetooth/state.go:116 | with no properties every field has its zero value and the battery is -1 |
| `BluezState.GetInitialState` | bluetooth/state.go:57-75 | the loop yields the adapters of all Adapter1 objects and the parsed usable Device1 objects, in visiting order |
| `BluezState.AdaptersOfMembers` | bluetooth/state.go:57-62 | every object with Adapter1 contributes its adapter and every adapter comes from such an object |
| `BluezState.DevicesOfMembers` | bluetooth/state.go:64-74 | every usable Device1 object contributes its device (also when it carries Adapter1) and every device comes from one |
| `BluezState.DevicesOfComplete` | bluetooth/state.go:64-74 | every object with Device1 that passes the usability check contributes its parsed device |
| `BluezState.DevicesOfSound` | bluetooth/state.go:64-74 | every device returned is the parse of some usable Device1 object |
| `Events.Decode` | dbus/events.go:20-81 | a decoded signal is only ever a device-added, device-removed or properties-changed message; properties-changed keeps the signal's own path and a non-empty map; unknown names are dropped |
| `Events.DecodeInterfacesAdded` | dbus/events.go:24-42 | decodes iff the body has an object path then an interface map, to exactly that path and map, without a Device1 check |
| `Events.DecodeInterfacesRemoved` | dbus/events.go:44-54 | decodes iff the first body element is an object path; the removed-interface list is ignored |
| `Events.DecodePropertiesChanged` | dbus/events.go:59-80 | decodes iff the interface is Adapter1, Device1 or Battery1 and the change map is non-empty, always to the device message with the signal's path |
| `Events.DecodeEncode` | dbus/events.go:24-80 | every message the decoder can yield comes back from a signal that carries it |
| `Events.NextMessage` | dbus/events.go:16-86 | one call yields the decode of the first decodable signal and consumes exactly the signals up to it; with none decodable it keeps waiting |
| `Events.NextMessageSkipsDropped` | dbus/events.go:83-84 | undecodable signals in front only delay the same message by their number |
| `Formatters.WindowBounds` | common/formatters.go:144-158 | for windowSize >= 0: 0 <= start <= end <= len, end-start = min(windowSize, len), and a valid selected index lies inside |
| `Formatters.FormatArrays` | common/formatters.go:144-158 | the window is a contiguous run of min(windowSize, len) devices holding the selected one when windowSize > 0 |
| `Formatters.FormatArraysFits` | common/formatters.go:144-158 | when all devices fit, the window is the whole list |
| `Formatters.DeviceRow` | common/formatters.go:77-88 | the row starts with " > " iff its index is min(selectedRow, height-2), holds the bracketed icon and the name, and a filled or hollow circle by Connected |
| `Formatters.AdapterRow` | common/formatters.go:54-66 | the path without "/org/bluez/", the address, "On"/"Off" by Powered, "Yes"/"No" by Discoverable |
| `Formatters.AdapterRowName` | common/formatters.go:65 | an adapter at /org/bluez/hci0 is listed as hci0 |
| `Formatters.FormatDevices` | common/formatters.go:71-104 | max(height, len+2) rows: the header, an empty row, one row per device in order, then empty padding rows |
| `Formatters.FormatAdapters` | common/formatters.go:50-69 | 2 + len rows: the header, an empty row, one row per adapter in order |
| `Formatters.DeviceHeaderNameWidth` | common/formatters.go:74 | the device table's name column gets what the fixed 5, 15 and 11 leave of max(width-10,1), at least 0 |
| `Table.GoRem` | models/table.go:62-66 | Go's `%` truncates toward zero: for a non-negative dividend it is the ordinary remainder, for a negative one it lies in (-b, 0] |
| `Table.GoRemOdd` | models/table.go:62-66 | the remainder takes the dividend's sign: `GoRem(-a, b) == -GoRem(a, b)`, which with the non-negative case fixes every value |
| `Table.MoveCursor` | models/table.go:41-68 | up decrements only above 0; down increments only below maxRows-1; left/right cycle modulo 3 only when a device is shown; other keys keep the row |
| `Table.Selection` | models/table.go:70-82 | a device is announced iff the row is in range of the paired list (that device) or else of the scanned list |
| `Table.Step` | models/table.go:30-86 | an update changes at most the row and the shown device, and keeps a non-negative row non-negative; a device-selected message sets the shown device to the message's device and sends nothing |
| `Table.StepIgnores` | models/table.go:36-39 | a key reaching an unselected table changes nothing and sends nothing |
| `Table.CursorStaysInRange` | models/table.go:42-59 | a row in [0, maxRows-1] stays there under up and down |
| `Table.LeftRightCycle` | models/table.go:60-67 | on the details table right and left move the row by +1 and -1 modulo 3 and undo each other |
| `Table.KeySelection` | models/table.go:70-82 | after a handled key the command is the selection message for the device at the new row, or none |
| `Table.TableData.Update` | models/table.go:30-86 | the table object is updated in place exactly as `Table.Step` says and returns its command |
| `Table.TableData.MoveRow` | models/table.go:41-68 | the key moves only the row of the table object, to where `Table.MoveCursor` says |
| `SelectModel.SelectStep` | models/select.go:20-35 | up/k moves the cursor one back unless it is at 0; down/j moves it one forward unless it is at the last option; any other message leaves it; so a cursor within the options stays within them (and at 0 on an empty list) |
| `SelectModel.OptionLine` | models/select.go:43-49 | a line is "  > " on the selected option, four spaces otherwise, then the option and a newline |
| `SelectModel.LinesSplit` | models/select.go:42-50 | the text is the lines of the options concatenated in order |
| `SelectModel.LinesLength` | models/select.go:42-50 | the text is as long as the options together plus five characters per option |
| `SelectModel.OneCursor` | models/select.go:42-50 | counting the rendered option lines that begin with the cursor "  > ": exactly one when the selection is in range, none otherwise |
| `SelectModel.Select.Init` | models/select.go:15-18 | sets the selection to 0 and keeps the options |
| `SelectModel.Select.Update` | models/select.go:20-35 | moves the selection as `SelectStep` says and keeps the options |
| `SelectModel.Select.View` | models/select.go:37-51 | "(no adapters found)" with no options, otherwise one line per option |
| `Bluepala.Initial` | bluepala.go:57-89 | the store starts with both lists empty and only the adapter table selected |
| `Bluepala.ApplyChanges` | bluepala.go:231-264 | a property change never alters a device's path, address or address type |
| `Bluepala.ConnectPtr` | bluepala.go:221-229 | the slot the connect command reads is a slot of the lists, never a detached record |
| `Bluepala.UpdateSlot` | bluepala.go:199-270 | the array keeps its size; its visible part is described by `BluepalaProperties.UpdateListsLists` |
| `Bluepala.RemovePaired` | bluepala.go:287 | the paired list loses its first device with the path, inside the same array |
| `Bluepala.RemoveUnpaired` | bluepala.go:278 | the nearby list loses its first device with the path, inside the same array |
| `Bluepala.AppendPaired` | bluepala.go:279 | the paired list grows by exactly the given record |
| `Bluepala.AppendUnpaired` | bluepala.go:288 | the nearby list grows by exactly the given record |
| `Bluepala.ToPaired` | bluepala.go:277-284 | the move of a newly paired device ends with the signal wait and keeps the connect pointer valid |
| `Bluepala.ToUnpaired` | bluepala.go:286-289 | the move of a newly unpaired device ends with the signal wait and keeps the connect pointer valid |
| `Bluepala.PropsChanged` | bluepala.go:193-296 | the property-change handler keeps the state well formed and always re-arms the signal wait last |
| `Bluepala.Relocate` | bluepala.go:276-289 | the move of a flipped device keeps the state well formed and the connect slot valid, ends with the signal wait, and with no flip leaves the state as it is |
| `Bluepala.ConnectCmds` | bluepala.go:292-294 | one connect command iff a device asked for it |
| `Bluepala.SyncTables` | bluepala.go:496-498 | handing the lists to the tables keeps the state well formed |
| `Bluepala.Finish` | bluepala.go:492-500 | the end of Update sorts the nearby list, keeps the paired list, and gives the tables the current lists |
| `Bluepala.ForwardKey` | bluepala.go:396-409 | a key changes nothing but the four tables |
| `Bluepala.KeyAction` | bluepala.go:448-483 | tab and shift+tab and the scan key keep the state well formed |
| `Bluepala.KeyStep` | bluepala.go:394-489 | a key produces no connect command and no signal wait |
| `Bluepala.Early` | bluepala.go:111-135 | the early returns keep the state well formed |
| `Bluepala.Handle` | bluepala.go:137-391 | every case of the switch keeps the state well formed |
| `Bluepala.Runtime` | bluepala.go:147-180 | refresh, PIN, confirmation, scan toggle (387-389) and error (391-392) touch only the modal flag, the scanning flag and the error, and never connect |
| `Bluepala.Lists` | bluepala.go:298-380 | adapter update, device added, removed and full update touch only the adapters, the two lists and the details table; all but the adapter update wait for the next signal |
| `Bluepala.AddDevice` | bluepala.go:314-342 | an added device changes only the two lists |
| `Bluepala.RemoveDevice` | bluepala.go:346-361 | a removal changes only the two lists and the details table |
| `Bluepala.Repartition` | bluepala.go:368-370 | a full update changes only the two lists |
| `Bluepala.Step` | bluepala.go:108-501 | the whole handler keeps the state well formed |
| `Bluepala.ChangeDevice` | bluepala.go:205-264 | the device gets the change; it moves iff its Paired flag flips away from its list; it asks to connect iff it turns trusted while paired after the change and disconnected before it |
| `Bluepala.UpdateDevice` | bluepala.go:199-270 | the first device with the path is changed in place, with the move and connect flags read off its old record |
| `Bluepala.BluepalaData.constructor` | bluepala.go:57-89 | the new store is the initial state, with fresh arrays |
| `Bluepala.BluepalaData.SortAndSync` | bluepala.go:492-500 | sorts the nearby array in place, syncs the tables, and reads the connect target only now |
| `Bluepala.BluepalaData.UpdateBoth` | bluepala.go:273-274 | runs updateDevice on the paired then the nearby list and returns the slots to move and to connect |
| `Bluepala.BluepalaData.RemoveFromPaired` | bluepala.go:287 | removal by path in the paired array |
| `Bluepala.BluepalaData.RemoveFromUnpaired` | bluepala.go:278 | removal by path in the nearby array |
| `Bluepala.BluepalaData.AppendToPaired` | bluepala.go:279 | append to the paired slice, in place iff there is room |
| `Bluepala.BluepalaData.AppendToUnpaired` | bluepala.go:288 | append to the nearby slice, in place iff there is room |
| `Bluepala.BluepalaData.MoveToPaired` | bluepala.go:277-284 | removes the device, then appends and trusts what its old slot now holds |
| `Bluepala.BluepalaData.MoveToUnpaired` | bluepala.go:286-289 | the converse move, with no command |
| `Bluepala.BluepalaData.PropertiesChanged` | bluepala.go:193-296 | the property-change handler in place, equal to `Bluepala.PropsChanged` |
| `Bluepala.BluepalaData.MoveFlipped` | bluepala.go:276-289 | the move in place, as `Bluepala.Relocate` says, with the Trust command of a newly paired device |
| `Bluepala.BluepalaData.FindSlot` | bluepala.go:317-333 | finds the first slot with the path, or reports none when no slot in use has it |
| `Bluepala.BluepalaData.InsertDevice` | bluepala.go:314-342 | the store changes as `Bluepala.AddDevice` says; `BluepalaProperties.AddDeviceLists` states the result |
| `Bluepala.BluepalaData.InsertNotPaired` | bluepala.go:324-342 | with no paired device of that path, the nearby one is replaced or the device appended, as `Bluepala.AddDevice` says |
| `Bluepala.BluepalaData.DeleteDevice` | bluepala.go:346-361 | the store changes as `Bluepala.RemoveDevice` says, inside the same arrays; `BluepalaProperties.RemoveDeviceLists` states the result |
| `Bluepala.BluepalaData.ReplaceDevices` | bluepala.go:368-370 | the store changes as `Bluepala.Repartition` says, in fresh arrays; `BluepalaProperties.DeviceUpdateLists` states the result |
| `Bluepala.BluepalaData.SetLists` | bluepala.go:369-370 | both list fields take the new slices, each used in full, and nothing else changes |
| `Bluepala.BluepalaData.FocusTables` | bluepala.go:461-470 | the tables are selected as `Bluepala.FocusTable` says for the current index; `BluepalaProperties.TabMovesFocus` states the result |
| `Bluepala.BluepalaData.FocusLoop` | bluepala.go:461-470 | the loop selects exactly the table at the index, and the details table iff that is the devices table |
| `Bluepala.BluepalaData.ForwardToTable` | bluepala.go:396-409 | the store and command are those of `Bluepala.ForwardKey` |
| `Bluepala.BluepalaData.KeyActions` | bluepala.go:411-484 | the store and commands change as `Bluepala.KeyAction` says, with both device arrays kept |
| `Bluepala.BluepalaData.SyncLists` | bluepala.go:487-489 | the store changes as `Bluepala.SyncTables` says |
| `Bluepala.BluepalaData.KeyPress` | bluepala.go:394-489 | the key handler changes the store as `Bluepala.KeyStep` says and leaves both device arrays as they were |
| `Bluepala.BluepalaData.HandleUi` | bluepala.go:138-180 | resize, refresh, PIN and confirmation replies, scan toggle and error do what `Bluepala.Handle` says |
| `Bluepala.BluepalaData.ResizeTables` | bluepala.go:138-145 | a resize sets the store size and the four table widths as `Bluepala.Resize` says |
| `Bluepala.BluepalaData.HandleRuntime` | bluepala.go:147-180 | the agent, refresh, scan-toggle and error cases change the store as `Bluepala.Runtime` says |
| `Bluepala.BluepalaData.HandleLists` | bluepala.go:193-380 | a property change does what `Bluepala.PropsChanged` says, the other list-changing cases what `Bluepala.Lists` says |
| `Bluepala.BluepalaData.HandleDevices` | bluepala.go:298-380 | the adapter update and the device added, removed and full update cases change the store as `Bluepala.Lists` says |
| `Bluepala.BluepalaData.ReturnEarly` | bluepala.go:111-134 | the open modal, opening the modal and a device selection change the store and return as `Bluepala.Early` says, with both device arrays kept |
| `Bluepala.BluepalaData.Dispatch` | bluepala.go:137-491 | the switch on the message changes the store as `Bluepala.Handle` says and hands on the commands and the connect target |
| `Bluepala.BluepalaData.Update` | bluepala.go:108-501 | the store object changes, and the commands are returned, exactly as `Bluepala.Step` says |
| `BluepalaProperties.UpdateListsLists` | bluepala.go:273-274 | on the visible lists, updateDevice changes the first device with the path |
| `BluepalaProperties.ToPairedLists` | bluepala.go:277-284 | after the move the nearby list lacks the device and the paired list ends with the record its old slot now holds |
| `BluepalaProperties.ToUnpairedLists` | bluepala.go:286-289 | the converse move on the visible lists |
| `BluepalaProperties.MovesExclusive` | bluepala.go:211-217 | no change both pairs a nearby device and unpairs a paired one |
| `BluepalaProperties.PropsChangedPending` | bluepala.go:283-296 | the handler's commands are trust commands, at most one connect, then the signal wait |
| `BluepalaProperties.PropertiesChangedNoMatch` | bluepala.go:199-203 | a change for an unknown path changes no record and sends only the signal wait |
| `BluepalaProperties.PropertiesChangedPairs` | bluepala.go:206-284 | Paired false to true on a nearby device: one device leaves the nearby list, one record joins the paired list, exactly one trust command is sent first; record and trust target are the changed device only when it was last |
| `BluepalaProperties.PropertiesChangedUnpairs` | bluepala.go:214-289 | Paired true to false on a paired device: the converse move, with no trust command |
| `BluepalaProperties.PropertiesChangedKeepsCount` | bluepala.go:193-296 | a property change never changes the number of stored devices |
| `BluepalaProperties.PropertiesChangedConnect` | bluepala.go:222-296 | exactly one connect command iff a matched device turns trusted while paired (after this change) and not connected (before it); the signal wait comes last |
| `BluepalaProperties.ApplyChangesRules` | bluepala.go:232-264 | Alias overrides Name; a wrongly typed Name, Alias, Icon or Percentage is skipped; a wrongly typed Trusted, Connected, Connectable or RSSI resets to false or 0 |
| `BluepalaProperties.ApplyChangesIdempotent` | bluepala.go:232-264 | an empty change is no change, and a change applied twice equals it applied once |
| `BluepalaProperties.ApplyRssiOnly` | bluepala.go:257-259 | a change of RSSI alone only sets the RSSI |
| `BluepalaProperties.PropertiesChangedRssiOnly` | bluepala.go:193-296 | an RSSI-only event changes nothing but that device's RSSI (and the nearby order) and sends only the signal wait |
| `BluepalaProperties.DeviceAddedUnusable` | bluepala.go:305-307 | an unusable added object leaves the state unchanged and only re-arms the signal wait |
| `BluepalaProperties.AddDeviceLists` | bluepala.go:314-342 | an existing path is replaced in place, paired list first; a new device is appended to the paired list iff Paired, else to the nearby list |
| `BluepalaProperties.DeviceAddedStores` | bluepala.go:303-344 | the same for a whole added-device update, with the nearby list sorted and the signal wait re-armed |
| `BluepalaProperties.RemoveDeviceLists` | bluepala.go:346-361 | each list loses its first device with the path; the details device is cleared iff it has the path |
| `BluepalaProperties.DeviceRemovedLists` | bluepala.go:346-363 | the same for a whole removal update, with the signal wait re-armed |
| `BluepalaProperties.DeviceUpdateLists` | bluepala.go:365-380 | a full update installs the order-preserving partition on Paired, loses and invents no device, and selects the first paired device or none |
| `BluepalaProperties.StepSortsAtEnd` | bluepala.go:492-500 | every message that reaches the end leaves the nearby list sorted, a permutation of what the case left, and the tables showing the lists |
| `BluepalaProperties.EarlyKeepsLists` | bluepala.go:111-135 | the early returns (also at lines 165, 306 and 385) skip the sort and leave both lists as they were |
| `BluepalaProperties.ModalForwards` | bluepala.go:127-133 | while the modal is open, any message but a resize or a confirmation goes to the modal only |
| `BluepalaProperties.SubmitConfirmCloses` | bluepala.go:122-126 | a confirmation closes the modal and answers the agent "yes" or "no" |
| `BluepalaProperties.WindowSizeResizes` | bluepala.go:113-120 | a resize sets the store's size, gives the details table 36 columns and the device table the rest, and leaves the modal as it was |
| `BluepalaProperties.ShowConfirmOpens` | bluepala.go:160-165 | the confirmation request opens the modal with its message and returns at once |
| `BluepalaProperties.DeviceSelectedSets` | bluepala.go:382-385 | a selection sets the details device, changes nothing else and sends nothing |
| `BluepalaProperties.TabMovesFocus` | bluepala.go:448-470 | tab moves the focus to the next table and shift+tab to the previous, cyclically, with exactly that table selected |
| `BluepalaProperties.ScanKey` | bluepala.go:476-483 | s ends the commands with a start of scanning on the first adapter, or a stop when one runs; the flag waits for the toggle |
| `BluepalaProperties.ScanToggleFlips` | bluepala.go:387-389 | the toggle message flips the scanning flag and re-arms the signal wait |

## Left out

- D-Bus calls are foreign I/O: `GetManagedObjects` becomes the input sequence of objects of `GetInitialState`, in a caller-chosen order standing for Go's map iteration order. `IsAdapterDiscoverable` becomes an input (`None` when the lookup fails).
- dbus/actions.go is not part of this model: the trust, connect, pair, forget, power and scan calls and the `rfkill` call are only named by the commands the handler returns.
- test/test.go (a standalone scanner) is not part of this model.
- The pairing agent (bluetooth/agent.go) is not part of this model: its blocking rendezvous between goroutines is outside a sequential model. `SubmitPin` and `SubmitConfirmation` become `AgentReply` commands carrying the string sent on the channel ("yes"/"no" for a confirmation). `ShowPinModal` only logs in the source and changes nothing here.
- models/confirmation.go is not part of this model: while the modal is open, a message is passed to it as a `ModalInput` command.
- The Bubbletea runtime is outside the model: `Init`, `Sub`, `RefreshTicker` and `tea.Batch`. The returned command list is the batch; its order is not an execution order, because Bubbletea runs batched commands concurrently.
- `Bluepala.BluepalaData.Update`: the enter/space action keys and the quit keys are excluded by `KeyHandled`, and what they do is not modelled:
  - On the adapter table, enter flips the `Powered` flag of the selected adapter in the store (bluepala.go:416-417). The adapter table then shows the flip (:487, :496).
  - It then calls `ToggleAdapterPowerCmd` synchronously with the value before the flip and discards its result (bluepala.go:418; dbus/actions.go:34-57).
  - On the paired table, enter indexes the paired list before its emptiness check. When the device's path is "-1" it returns at once, before the final sort (:420-423). Otherwise it issues a connect or forget command (:427-434).
  - On the nearby table, enter issues a pair command for the selected device (:436-440).
  - The quit keys close the bus connection and exit (:444-447).
- The `AdapterPropertiesChangedMsg` case of `Update` is dead code, because the decoder never produces that message, and is not modelled.
- Rendering is not modelled: lipgloss styles, borders, `View`, `FormatDetails`, `CalcTitle`, `HJoin`, the status bar, the overlay manager and terminal sizing. A rendered header is a `Cell` of text, width and alignment.
- `Formatters.FormatDevices`: does not model the truncation of cells wider than their header (formatters.go:90-94), because it depends on `lipgloss.Width` of styled text.
- `Utils.SortDevicesByRSSI`: is a stable insertion sort. Go's `slices.SortFunc` is not stable, so devices with equal RSSI and equal lower-cased name may end up in another order than the model's.
- `strings.ToLower` is modelled on ASCII letters only; other letters keep their case.
- `SanitizeEmojis` replaces runs of the explicit code-point ranges and of '^' and '`' (the ASCII members of category Sk). The remaining members of the Unicode categories So, Sk and Cs are not modelled.
- `Table.TableData.Update` and `Bluepala.Step`: the selected device (`SelectedPaired`) is a copy of the record, not a pointer into the slice. Later in-place changes to that slot do not show through it. In particular, on device removal (bluepala.go:346-361) Go shifts the later devices of the slice down in place (:351-356) and only then compares the pointer's path (:359). When the selected device sat in a slot that is not the last, that slot now holds the next device, the comparison fails and the details table goes on showing that next device. The model instead clears the shown device whenever its path is the removed path (`BluepalaProperties.RemoveDeviceLists`), as the comparison evidently intends.
- Go's tables hold slices that share their backing arrays with the store's lists; the model gives the tables copies, which equal the lists at the end of every update that reaches the final sort.
- The selection command of a full device update reads `PairedDevices[0]` at the end of that update, not when the runtime later runs the closure.
- The connect command of a property change (bluepala.go:276-293) takes the path of the device it points to at the end of the update (after the final sort), not when the runtime later runs the closure and dereferences `device.Path` (dbus/actions.go:60-62); a later in-place change to that slot before the closure runs is not modelled.
- `Table.TableData.Update`: requires a non-negative row on key messages, because the selection message indexes the device lists with the row and Go panics on a negative index.
- Integers are unbounded except where the record types fix them (`int8` battery, `int16` RSSI, `uint8`, `uint16`, `uint32`); window and column arithmetic does not model 64-bit overflow.
