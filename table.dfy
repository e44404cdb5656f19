/** The table view-model of models/table.go: the cursor that up/down and
    left/right keys move, and the selection message sent after a key. */
module Table {
  import opened Types

  /** Go's % on int: truncated toward zero, so the sign follows the dividend. */
  function GoRem(a: int, b: int): (r: int)
    requires b > 0
    ensures a >= 0 ==> 0 <= r < b && r == a % b
    ensures a < 0 ==> -b < r <= 0
  {
    if a >= 0 then a % b else -((-a) % b)
  }

  /** The remainder takes the dividend's sign: negating the dividend negates
      the remainder. With the a >= 0 clause of GoRem this fixes the value
      for every dividend. */
  lemma GoRemOdd(a: int, b: int)
    requires b > 0
    ensures GoRem(-a, b) == -GoRem(a, b)
  {
  }

  /** The fields of a TableData that Update reads or writes. The lists are
      None where the Go slice is nil. */
  datatype TableState = TableState(
    IsTableSelected: bool,
    SelectedRow: int,
    Height: int,
    Width: int,
    Adapters: Option<seq<Adapter>>,
    PairedDevices: Option<seq<Device>>,
    SelectedPaired: Option<Device>,
    ScannedDevices: Option<seq<Device>>)

  predicate IsUp(key: string) { key == "up" || key == "k" }
  predicate IsDown(key: string) { key == "down" || key == "j" }
  predicate IsLeft(key: string) { key == "left" || key == "h" }
  predicate IsRight(key: string) { key == "right" || key == "l" }

  /** The number of rows: the length of the first non-nil list among the
      paired devices, the scanned devices and the adapters. */
  function MaxRows(t: TableState): nat {
    if t.PairedDevices.Some? then |t.PairedDevices.value|
    else if t.ScannedDevices.Some? then |t.ScannedDevices.value|
    else if t.Adapters.Some? then |t.Adapters.value|
    else 0
  }

  /** The row after a key press on a selected table. */
  function MoveCursor(t: TableState, key: string): (row: int)
    ensures IsUp(key) ==> row == if t.SelectedRow > 0 then t.SelectedRow - 1 else t.SelectedRow
    ensures IsDown(key) ==> row == if 0 < MaxRows(t) && t.SelectedRow < MaxRows(t) - 1 then t.SelectedRow + 1 else t.SelectedRow
    ensures (IsLeft(key) || IsRight(key)) && t.SelectedPaired.Some? && t.SelectedRow >= 0 ==> 0 <= row < 3
    ensures (IsLeft(key) || IsRight(key)) && t.SelectedPaired.None? ==> row == t.SelectedRow
    ensures !IsUp(key) && !IsDown(key) && !IsLeft(key) && !IsRight(key) ==> row == t.SelectedRow
  {
    if IsUp(key) then
      if t.SelectedRow > 0 then t.SelectedRow - 1 else t.SelectedRow
    else if IsDown(key) then
      if MaxRows(t) > 0 && t.SelectedRow < MaxRows(t) - 1 then t.SelectedRow + 1 else t.SelectedRow
    else if IsLeft(key) then
      if t.SelectedPaired.Some? then GoRem(t.SelectedRow - 1 + 3, 3) else t.SelectedRow
    else if IsRight(key) then
      if t.SelectedPaired.Some? then GoRem(t.SelectedRow + 1, 3) else t.SelectedRow
    else t.SelectedRow
  }

  /** The device announced after a key: the paired device at the row when it
      is in range, else the scanned device at the row when that is. */
  function Selection(t: TableState): (d: Option<Device>)
    ensures d.Some? <==>
              (t.PairedDevices.Some? && 0 <= t.SelectedRow < |t.PairedDevices.value|) ||
              (t.ScannedDevices.Some? && 0 <= t.SelectedRow < |t.ScannedDevices.value|)
    ensures t.PairedDevices.Some? && 0 <= t.SelectedRow < |t.PairedDevices.value| ==>
              d == Some(t.PairedDevices.value[t.SelectedRow])
  {
    if t.PairedDevices.Some? && |t.PairedDevices.value| > 0 && 0 <= t.SelectedRow < |t.PairedDevices.value| then
      Some(t.PairedDevices.value[t.SelectedRow])
    else if t.ScannedDevices.Some? && |t.ScannedDevices.value| > 0 && 0 <= t.SelectedRow < |t.ScannedDevices.value| then
      Some(t.ScannedDevices.value[t.SelectedRow])
    else None
  }

  /** TableData.Update: the new state and the command it returns. */
  function Step(t: TableState, msg: Msg): (r: (TableState, Option<Cmd>))
    ensures t.SelectedRow >= 0 ==> r.0.SelectedRow >= 0
    ensures r.0.(SelectedRow := t.SelectedRow, SelectedPaired := t.SelectedPaired) == t
    ensures msg.DeviceSelected? ==> r == (t.(SelectedPaired := msg.selected), None)
  {
    match msg
    case DeviceSelected(d) => (t.(SelectedPaired := d), None)
    case Key(key) =>
      if !t.IsTableSelected then (t, None)
      else
        var t' := t.(SelectedRow := MoveCursor(t, key));
        var d := Selection(t');
        (t', if d.Some? then Some(SelectDevice(d)) else None)
    case _ => (t, None)
  }

  /** A key reaching an unselected table changes nothing and sends nothing;
      a message other than a key or a selection is ignored too. */
  lemma StepIgnores(t: TableState, msg: Msg)
    requires (msg.Key? && !t.IsTableSelected) || (!msg.Key? && !msg.DeviceSelected?)
    ensures Step(t, msg) == (t, None)
  {
  }

  /** A row in [0, maxRows-1] (or 0 on an empty table) stays there under up
      and down. */
  lemma CursorStaysInRange(t: TableState, key: string)
    requires t.IsTableSelected && (IsUp(key) || IsDown(key))
    requires 0 <= t.SelectedRow && (t.SelectedRow < MaxRows(t) || t.SelectedRow == 0)
    ensures var t' := Step(t, Key(key)).0;
            0 <= t'.SelectedRow && (t'.SelectedRow < MaxRows(t') || t'.SelectedRow == 0)
  {
  }

  /** On the details table (a device is shown), left and right cycle through
      the three actions modulo 3 and undo each other. */
  lemma LeftRightCycle(t: TableState, left: string, right: string)
    requires t.IsTableSelected && t.SelectedPaired.Some? && 0 <= t.SelectedRow < 3
    requires IsLeft(left) && IsRight(right)
    ensures Step(t, Key(right)).0.SelectedRow == (t.SelectedRow + 1) % 3
    ensures Step(t, Key(left)).0.SelectedRow == (t.SelectedRow + 2) % 3
    ensures Step(Step(t, Key(right)).0, Key(left)).0.SelectedRow == t.SelectedRow
    ensures Step(Step(t, Key(left)).0, Key(right)).0.SelectedRow == t.SelectedRow
  {
  }

  /** After a handled key the selection message names the device at the new
      row: a paired one when the row is in range of the paired list. */
  lemma KeySelection(t: TableState, key: string)
    requires t.IsTableSelected
    ensures var (t', cmd) := Step(t, Key(key));
            (cmd.Some? <==> Selection(t').Some?) &&
            (cmd.Some? ==> cmd.value == SelectDevice(Selection(t')))
  {
  }

  class TableData {
    var IsTableSelected: bool
    var SelectedRow: int
    var Height: int
    var Width: int
    var Adapters: Option<seq<Adapter>>
    var PairedDevices: Option<seq<Device>>
    var SelectedPaired: Option<Device>
    var ScannedDevices: Option<seq<Device>>

    function State(): TableState
      reads this
    {
      TableState(IsTableSelected, SelectedRow, Height, Width, Adapters, PairedDevices, SelectedPaired, ScannedDevices)
    }

    constructor (t: TableState)
      ensures State() == t
    {
      IsTableSelected := t.IsTableSelected;
      SelectedRow := t.SelectedRow;
      Height := t.Height;
      Width := t.Width;
      Adapters := t.Adapters;
      PairedDevices := t.PairedDevices;
      SelectedPaired := t.SelectedPaired;
      ScannedDevices := t.ScannedDevices;
    }

    /** The cursor movement of a key press on a selected table
        (models/table.go:41-68). */
    method MoveRow(key: string)
      modifies this
      ensures State() == old(State()).(SelectedRow := MoveCursor(old(State()), key))
    {
      if IsUp(key) {
        if SelectedRow > 0 {
          SelectedRow := SelectedRow - 1;
        }
      } else if IsDown(key) {
        var maxRows := 0;
        if PairedDevices.Some? {
          maxRows := |PairedDevices.value|;
        } else if ScannedDevices.Some? {
          maxRows := |ScannedDevices.value|;
        } else if Adapters.Some? {
          maxRows := |Adapters.value|;
        }
        if maxRows > 0 && SelectedRow < maxRows - 1 {
          SelectedRow := SelectedRow + 1;
        }
      } else if IsLeft(key) {
        if SelectedPaired.Some? {
          SelectedRow := GoRem(SelectedRow - 1 + 3, 3);
        }
      } else if IsRight(key) {
        if SelectedPaired.Some? {
          SelectedRow := GoRem(SelectedRow + 1, 3);
        }
      }
    }

    /** TableData.Update (models/table.go:30-86). A negative row would make
        the selection lookup index out of range. */
    method Update(msg: Msg) returns (cmd: Option<Cmd>)
      requires msg.Key? ==> SelectedRow >= 0
      modifies this
      ensures State() == Step(old(State()), msg).0
      ensures cmd == Step(old(State()), msg).1
    {
      match msg {
        case DeviceSelected(d) =>
          SelectedPaired := d;
          return None;
        case Key(key) =>
          if !IsTableSelected {
            return None;
          }
          MoveRow(key);
          var selectedDevice: Option<Device> := None;
          if PairedDevices.Some? && |PairedDevices.value| > 0 && SelectedRow < |PairedDevices.value| {
            selectedDevice := Some(PairedDevices.value[SelectedRow]);
          } else if ScannedDevices.Some? && |ScannedDevices.value| > 0 && SelectedRow < |ScannedDevices.value| {
            selectedDevice := Some(ScannedDevices.value[SelectedRow]);
          }
          if selectedDevice.Some? {
            return Some(SelectDevice(selectedDevice));
          }
          return None;
        case _ =>
          return None;
      }
    }
  }
}
