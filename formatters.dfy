/** The row structure of the table views (common/formatters.go): the window
    of devices that is shown, the rows of the device tables and the rows of
    the adapter table. Cells are kept as text; styling is not modelled. */
module Formatters {
  import opened Types
  import opened Text
  import opened Utils

  function Min(a: int, b: int): int { if a <= b then a else b }

  // ---------------------------------------------------------------------
  // FormatArrays (common/formatters.go:144-158)

  /** The start and end of the window FormatArrays cuts out. */
  function WindowBounds(len: nat, selectedIndex: int, windowSize: int): (b: (int, int))
    requires windowSize >= 0
    ensures 0 <= b.0 <= b.1 <= len
    ensures b.1 - b.0 == Min(windowSize, len)
    ensures windowSize > 0 && 0 <= selectedIndex < len ==> b.0 <= selectedIndex < b.1
  {
    var start := if selectedIndex >= windowSize then selectedIndex - windowSize + 1 else 0;
    var end := start + windowSize;
    var (start', end') := if end > len then (Max(len - windowSize, 0), len) else (start, end);
    if start' > end' then (end', end') else (start', end')
  }

  /** The devices in view: a contiguous run of min(windowSize, |arr|)
      devices (Height-1 in the callers, so never negative). */
  function FormatArrays(arr: seq<Device>, selectedIndex: int, windowSize: int): (r: seq<Device>)
    requires windowSize >= 0
    ensures |r| == Min(windowSize, |arr|)
    ensures exists start :: IsRunAt(arr, r, start)
    ensures windowSize > 0 && 0 <= selectedIndex < |arr| ==> arr[selectedIndex] in r
  {
    var (start, end) := WindowBounds(|arr|, selectedIndex, windowSize);
    var r := arr[start..end];
    assert IsRunAt(arr, r, start);
    assert windowSize > 0 && 0 <= selectedIndex < |arr| ==> r[selectedIndex - start] == arr[selectedIndex];
    r
  }

  /** r occurs in arr as the contiguous run starting at start. */
  predicate IsRunAt(arr: seq<Device>, r: seq<Device>, start: int) {
    0 <= start <= |arr| - |r| && arr[start..start + |r|] == r
  }

  /** When all devices fit, the window is the whole list. */
  lemma FormatArraysFits(arr: seq<Device>, selectedIndex: int, windowSize: int)
    requires windowSize >= |arr| && 0 <= selectedIndex < |arr|
    ensures FormatArrays(arr, selectedIndex, windowSize) == arr
  {
    var r := FormatArrays(arr, selectedIndex, windowSize);
    var start :| IsRunAt(arr, r, start);
    assert start == 0;
    assert arr[0..|arr|] == arr;
  }

  // ---------------------------------------------------------------------
  // Rows

  /** A table row: the rendered header cells, or plain text cells. */
  datatype Row = HeaderRow(cells: seq<Cell>) | TextRow(texts: seq<string>)

  /** The cells padHeaders renders for headers at the resolved widths. */
  function HeaderCells(headers: seq<string>, widths: seq<int>, align: Align): (r: seq<Cell>)
    requires |headers| == |widths|
    ensures |r| == |headers|
    ensures forall i :: 0 <= i < |headers| ==> r[i] == Cell(headers[i], Max(widths[i], 1), align)
  {
    seq(|headers|, i requires 0 <= i < |headers| => Cell(headers[i], Max(widths[i], 1), align))
  }

  const DeviceHeaders: seq<string> := ["", "Type", "Name", "Connected"]
  const DeviceHeaderLengths: seq<int> := [5, 15, -1, 11]
  const AdapterHeaders: seq<string> := ["Name", "Address", "Powered", "Discoverable"]
  const AdapterHeaderLengths: seq<int> := [-1, -1, -1, -1]

  const ConnectedMark := "    \U{25CF}    "
  const DisconnectedMark := "    \U{25CB}    "

  /** The cells of device row i: the cursor mark " > " on the row
      min(selectedRow, height-2), the icon in brackets, the name, and a filled
      or hollow circle for the connection. */
  function DeviceRow(d: Device, i: int, selectedRow: int, height: int): (cells: seq<string>)
    ensures |cells| == 4
    ensures cells[0] == (if i == Min(selectedRow, height - 2) then " > " else "   ")
    ensures cells[1] == "[" + d.Icon + "]" && cells[2] == d.Name
    ensures cells[3] == (if d.Connected then ConnectedMark else DisconnectedMark)
  {
    var connected := if d.Connected then ConnectedMark else DisconnectedMark;
    var devType := "[" + d.Icon + "]";
    if i == Min(selectedRow, height - 2) then [" > ", devType, d.Name, connected]
    else ["   ", devType, d.Name, connected]
  }

  /** The cells of one adapter row. */
  function AdapterRow(a: Adapter): (cells: seq<string>)
    ensures |cells| == 4
    ensures cells[0] == RemoveAll(a.Path, "/org/bluez/") && cells[1] == a.Address
    ensures cells[2] == (if a.Powered then "On" else "Off")
    ensures cells[3] == (if a.Discoverable then "Yes" else "No")
  {
    [RemoveAll(a.Path, "/org/bluez/"), a.Address, if a.Powered then "On" else "Off",
     if a.Discoverable then "Yes" else "No"]
  }

  /** An adapter under /org/bluez/ is listed by its own name, e.g. hci0. */
  lemma AdapterRowName(a: Adapter, name: string)
    requires a.Path == "/org/bluez/" + name && !Occurs(name, "/org/bluez/")
    ensures AdapterRow(a)[0] == name
  {
    RemoveAllPrefix("/org/bluez/", name);
  }

  // ---------------------------------------------------------------------
  // FormatDevices (common/formatters.go:71-104)

  /** The rows of a device table: the header, an empty row, one row per
      device, then empty rows up to the table height. */
  method FormatDevices(devices: seq<Device>, selectedRow: int, width: int, height: int) returns (data: seq<Row>)
    ensures |data| == Max(height, |devices| + 2)
    ensures data[0] == HeaderRow(HeaderCells(DeviceHeaders, ResolvedWidths(DeviceHeaderLengths, width), AlignLeft))
    ensures data[1] == TextRow([""])
    ensures forall i :: 0 <= i < |devices| ==> data[i + 2] == TextRow(DeviceRow(devices[i], i, selectedRow, height))
    ensures forall k :: |devices| + 2 <= k < |data| ==> data[k] == TextRow([""])
  {
    var lengths := new int[4];
    lengths[0], lengths[1], lengths[2], lengths[3] := 5, 15, -1, 11;
    assert lengths[..] == DeviceHeaderLengths;
    var header := PadHeaders(DeviceHeaders, lengths, width, Some(AlignLeft));
    data := [HeaderRow(header), TextRow([""])];
    for i := 0 to |devices|
      invariant |data| == i + 2
      invariant data[0] == HeaderRow(header) && data[1] == TextRow([""])
      invariant forall k :: 0 <= k < i ==> data[k + 2] == TextRow(DeviceRow(devices[k], k, selectedRow, height))
    {
      var d := devices[i];
      var connected := DisconnectedMark;
      if d.Connected {
        connected := ConnectedMark;
      }
      var devType := "[" + d.Icon + "]";
      var row := ["   ", devType, d.Name, connected];
      if i == Min(selectedRow, height - 2) {
        row := [" > ", devType, d.Name, connected];
      }
      data := data + [TextRow(row)];
    }
    var padding := height - |data|;
    for j := 0 to Max(padding, 0)
      invariant |data| == |devices| + 2 + j
      invariant data[0] == HeaderRow(header) && data[1] == TextRow([""])
      invariant forall k :: 0 <= k < |devices| ==> data[k + 2] == TextRow(DeviceRow(devices[k], k, selectedRow, height))
      invariant forall k :: |devices| + 2 <= k < |data| ==> data[k] == TextRow([""])
    {
      data := data + [TextRow([""])];
    }
  }

  // ---------------------------------------------------------------------
  // FormatAdapters (common/formatters.go:50-69)

  /** The rows of the adapter table: the header, an empty row, and one row
      per adapter. */
  method FormatAdapters(adapters: seq<Adapter>, width: int) returns (data: seq<Row>)
    ensures |data| == |adapters| + 2
    ensures data[0] == HeaderRow(HeaderCells(AdapterHeaders, ResolvedWidths(AdapterHeaderLengths, width), AlignCenter))
    ensures data[1] == TextRow([""])
    ensures forall i :: 0 <= i < |adapters| ==> data[i + 2] == TextRow(AdapterRow(adapters[i]))
  {
    var lengths := new int[4](_ => -1);
    assert lengths[..] == AdapterHeaderLengths;
    var header := PadHeaders(AdapterHeaders, lengths, width, None);
    data := [HeaderRow(header), TextRow([""])];
    for i := 0 to |adapters|
      invariant |data| == i + 2
      invariant data[0] == HeaderRow(header) && data[1] == TextRow([""])
      invariant forall k :: 0 <= k < i ==> data[k + 2] == TextRow(AdapterRow(adapters[k]))
    {
      var d := adapters[i];
      var powered := "Off";
      if d.Powered {
        powered := "On";
      }
      var discoverable := "No";
      if d.Discoverable {
        discoverable := "Yes";
      }
      var row := [RemoveAll(d.Path, "/org/bluez/"), d.Address, powered, discoverable];
      data := data + [TextRow(row)];
    }
  }

  /** The name column of the device header takes what the three fixed
      columns (5 + 15 + 11) leave of the width minus 10, at least one cell. */
  lemma DeviceHeaderNameWidth(width: int)
    ensures ResolvedWidths(DeviceHeaderLengths, width) == [5, 15, Max(Max(width - 10, 1) - 31, 0), 11]
  {
    var L := DeviceHeaderLengths;
    assert L[..0] == [] && L[..1] == [5] && L[..2] == [5, 15] && L[..3] == [5, 15, -1];
    assert [5][..0] == [] && [5, 15][..1] == [5] && [5, 15, -1][..2] == [5, 15] && L[..|L| - 1] == L[..3];
    assert FixedSum([5, 15, -1]) == 20 && FlexCount([5, 15, -1]) == 1;
    assert FixedSum(L) == 31 && FlexCount(L) == 1;
  }
}
