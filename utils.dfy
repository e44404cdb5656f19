/** The device-list helpers of common/utils.go, and the Go slice operations
    they rest on. A Go slice is an array together with a length: `a[..len]`
    is what the program sees, the slots beyond it are spare capacity. */
module Utils {
  import opened Types
  import opened Text

  // ---------------------------------------------------------------------
  // FilterDevicesByPaired (common/utils.go:183-196)

  function PairedOnly(s: seq<Device>): (r: seq<Device>)
    ensures |r| <= |s|
  {
    if s == [] then []
    else PairedOnly(s[..|s| - 1]) + (if s[|s| - 1].Paired then [s[|s| - 1]] else [])
  }

  function UnpairedOnly(s: seq<Device>): (r: seq<Device>)
    ensures |r| <= |s|
  {
    if s == [] then []
    else UnpairedOnly(s[..|s| - 1]) + (if s[|s| - 1].Paired then [] else [s[|s| - 1]])
  }

  /** The two halves split the input: every paired device goes left, every
      other one right, and nothing is lost or duplicated. */
  lemma PartitionProperties(s: seq<Device>)
    ensures forall d :: d in PairedOnly(s) ==> d.Paired
    ensures forall d :: d in UnpairedOnly(s) ==> !d.Paired
    ensures multiset(PairedOnly(s)) + multiset(UnpairedOnly(s)) == multiset(s)
    ensures |PairedOnly(s)| + |UnpairedOnly(s)| == |s|
  {
    PartitionSides(s);
    PartitionCounts(s);
  }

  lemma {:induction false} PartitionSides(s: seq<Device>)
    ensures forall d :: d in PairedOnly(s) ==> d.Paired
    ensures forall d :: d in UnpairedOnly(s) ==> !d.Paired
  {
    if s != [] {
      PartitionSides(s[..|s| - 1]);
    }
  }

  lemma {:induction false} PartitionCounts(s: seq<Device>)
    ensures multiset(PairedOnly(s)) + multiset(UnpairedOnly(s)) == multiset(s)
  {
    if s != [] {
      var init, last := s[..|s| - 1], s[|s| - 1];
      PartitionCounts(init);
      assert s == init + [last];
      assert multiset(s) == multiset(init) + multiset{last};
    }
  }

  /** Order is kept: the paired half is the input with the unpaired devices
      deleted, so a device that precedes another in the input precedes it in
      its half. */
  lemma {:induction false} PartitionKeepsOrder(s: seq<Device>, d: Device)
    ensures PairedOnly(s + [d]) == PairedOnly(s) + (if d.Paired then [d] else [])
    ensures UnpairedOnly(s + [d]) == UnpairedOnly(s) + (if d.Paired then [] else [d])
  {
    assert (s + [d])[..|s + [d]| - 1] == s;
  }

  /** Filtering distributes over concatenation: the half of a list is the
      half of its front followed by the half of its back, so devices keep
      their relative order. */
  lemma {:induction false} PartitionConcat(s: seq<Device>, t: seq<Device>)
    ensures PairedOnly(s + t) == PairedOnly(s) + PairedOnly(t)
    ensures UnpairedOnly(s + t) == UnpairedOnly(s) + UnpairedOnly(t)
  {
    if t == [] {
      assert s + t == s;
    } else {
      var init, last := t[..|t| - 1], t[|t| - 1];
      PartitionConcat(s, init);
      assert t == init + [last];
      assert s + t == (s + init) + [last];
      PartitionKeepsOrder(s + init, last);
      PartitionKeepsOrder(init, last);
    }
  }

  method FilterDevicesByPaired(devices: seq<Device>) returns (paired: seq<Device>, unpaired: seq<Device>)
    ensures paired == PairedOnly(devices)
    ensures unpaired == UnpairedOnly(devices)
  {
    paired, unpaired := [], [];
    for i := 0 to |devices|
      invariant paired == PairedOnly(devices[..i])
      invariant unpaired == UnpairedOnly(devices[..i])
    {
      PartitionKeepsOrder(devices[..i], devices[i]);
      assert devices[..i + 1] == devices[..i] + [devices[i]];
      if devices[i].Paired {
        paired := paired + [devices[i]];
      } else {
        unpaired := unpaired + [devices[i]];
      }
    }
    assert devices[..|devices|] == devices;
  }

  // ---------------------------------------------------------------------
  // RemoveDeviceByPath (common/utils.go:198-205)

  /** The index of the first device with the given path. */
  function FirstIndex(s: seq<Device>, path: ObjectPath): (r: Option<nat>)
    ensures r.Some? ==> r.value < |s| && s[r.value].Path == path
  {
    if s == [] then None
    else if s[0].Path == path then Some(0)
    else match FirstIndex(s[1..], path)
      case None => None
      case Some(i) => Some(i + 1)
  }

  /** FirstIndex finds the first match, and finds none only when there is none. */
  lemma {:induction false} FirstIndexIsFirst(s: seq<Device>, path: ObjectPath)
    ensures FirstIndex(s, path).Some? ==>
              forall j :: 0 <= j < FirstIndex(s, path).value ==> s[j].Path != path
    ensures FirstIndex(s, path).None? <==> forall j :: 0 <= j < |s| ==> s[j].Path != path
  {
    if s != [] && s[0].Path != path {
      FirstIndexIsFirst(s[1..], path);
      assert forall j :: 1 <= j < |s| ==> s[j] == s[1..][j - 1];
    }
  }

  /** The list without its first device of the given path. */
  function RemoveFirst(s: seq<Device>, path: ObjectPath): (r: seq<Device>)
    ensures |r| == if FirstIndex(s, path).Some? then |s| - 1 else |s|
  {
    match FirstIndex(s, path)
    case None => s
    case Some(i) => s[..i] + s[i + 1..]
  }

  /** Removal takes out exactly one copy of the first match and keeps the
      others in order; without a match the list is returned unchanged. */
  lemma RemoveFirstProperties(s: seq<Device>, path: ObjectPath)
    ensures FirstIndex(s, path).None? ==> RemoveFirst(s, path) == s
    ensures FirstIndex(s, path).Some? ==>
              |RemoveFirst(s, path)| == |s| - 1 &&
              multiset(RemoveFirst(s, path)) == multiset(s) - multiset{s[FirstIndex(s, path).value]}
    ensures FirstIndex(s, path).Some? ==>
              var i := FirstIndex(s, path).value;
              (forall j :: 0 <= j < i ==> RemoveFirst(s, path)[j] == s[j]) &&
              (forall j :: i <= j < |s| - 1 ==> RemoveFirst(s, path)[j] == s[j + 1])
  {
    if FirstIndex(s, path).Some? {
      var i := FirstIndex(s, path).value;
      RemoveAtCounts(s, i);
      RemoveAtShifts(s, i, RemoveFirst(s, path));
    }
  }

  lemma RemoveAtCounts(s: seq<Device>, i: nat)
    requires i < |s|
    ensures multiset(s[..i] + s[i + 1..]) == multiset(s) - multiset{s[i]}
  {
    assert s == s[..i] + [s[i]] + s[i + 1..];
  }

  lemma RemoveAtShifts(s: seq<Device>, i: nat, r: seq<Device>)
    requires i < |s| && r == s[..i] + s[i + 1..]
    ensures forall j :: 0 <= j < i ==> r[j] == s[j]
    ensures forall j :: i <= j < |s| - 1 ==> r[j] == s[j + 1]
  {
  }

  /** The whole backing array after RemoveDeviceByPath, and the new length. */
  function RemoveSpec(a: seq<Device>, len: nat, path: ObjectPath): (r: (seq<Device>, nat))
    requires len <= |a|
    ensures |r.0| == |a| && r.1 <= len
    ensures r.0[..r.1] == RemoveFirst(a[..len], path) && r.0[r.1..] == a[r.1..]
  {
    var kept := RemoveFirst(a[..len], path);
    (kept + a[|kept|..], |kept|)
  }

  /** Go's `append(devices[:i], devices[i+1:]...)`: the tail is copied one
      slot down inside the same array; the old last slot keeps its value. */
  method RemoveDeviceByPath(a: array<Device>, len: nat, path: ObjectPath) returns (newLen: nat)
    requires len <= a.Length
    modifies a
    ensures newLen == if FirstIndex(old(a[..len]), path).Some? then len - 1 else len
    ensures a[..newLen] == RemoveFirst(old(a[..len]), path)
    ensures a[newLen..] == old(a[newLen..])
  {
    ghost var before, s := a[..], a[..len];
    var i := FindPath(a, len, path);
    if i == len {
      newLen := len;
      return;
    }
    assert RemoveFirst(s, path) == s[..i] + s[i + 1..];
    ShiftDown(a, i, len);
    newLen := len - 1;
    ShiftedIsRemoved(before, a[..], i, len);
  }

  /** The index of the first device of the path among the first len, or len. */
  method FindPath(a: array<Device>, len: nat, path: ObjectPath) returns (i: nat)
    requires len <= a.Length
    ensures i <= len
    ensures i < len <==> FirstIndex(a[..len], path).Some?
    ensures i < len ==> FirstIndex(a[..len], path) == Some(i)
  {
    ghost var s := a[..len];
    FirstIndexIsFirst(s, path);
    i := 0;
    while i < len && a[i].Path != path
      invariant 0 <= i <= len
      invariant forall k :: 0 <= k < i ==> s[k].Path != path
    {
      i := i + 1;
    }
  }

  /** Shifting the tail after slot i down by one leaves, in the first len-1
      slots, the first len with slot i taken out. */
  lemma ShiftedIsRemoved(before: seq<Device>, after: seq<Device>, i: nat, len: nat)
    requires i < len <= |before| == |after|
    requires after[..i] == before[..i] && after[i..len - 1] == before[i + 1..len]
    ensures after[..len - 1] == before[..len][..i] + before[..len][i + 1..]
  {
    assert after[..len - 1] == after[..i] + after[i..len - 1];
  }

  /** Copies slots i+1 .. len-1 one slot down. */
  method ShiftDown(a: array<Device>, i: nat, len: nat)
    requires i < len <= a.Length
    modifies a
    ensures a[..i] == old(a[..i]) && a[i..len - 1] == old(a[i + 1..len]) && a[len - 1..] == old(a[len - 1..])
  {
    ghost var s := a[..];
    var j := i;
    while j < len - 1
      invariant i <= j <= len - 1 && |s| == a.Length
      invariant forall k :: 0 <= k < i ==> a[k] == s[k]
      invariant forall k :: i <= k < j ==> a[k] == s[k + 1]
      invariant forall k :: j <= k < a.Length ==> a[k] == s[k]
    {
      a[j] := a[j + 1];
      j := j + 1;
    }
    assert a[..i] == s[..i];
    assert a[i..len - 1] == s[i + 1..len];
    assert a[len - 1..] == s[len - 1..];
  }

  /** The contract of RemoveDeviceByPath, read as the whole new backing array. */
  lemma RemoveSpecOfArray(before: seq<Device>, after: seq<Device>, len: nat, newLen: nat, path: ObjectPath)
    requires len <= |before| && |after| == |before| && newLen <= len
    requires newLen == if FirstIndex(before[..len], path).Some? then len - 1 else len
    requires after[..newLen] == RemoveFirst(before[..len], path) && after[newLen..] == before[newLen..]
    ensures (after, newLen) == RemoveSpec(before, len, path)
  {
    assert after == after[..newLen] + after[newLen..];
  }

  /** What a pointer to slot i reads after RemoveDeviceByPath removed index i
      of a slice of length n: the next device, or the device itself when it
      was the last one. */
  lemma SlotAfterRemove(s: seq<Device>, i: nat, after: seq<Device>, tail: seq<Device>)
    requires i < |s| && FirstIndex(s, s[i].Path) == Some(i)
    requires after == RemoveFirst(s, s[i].Path) + tail && |tail| >= 1 && tail[0] == s[|s| - 1]
    ensures after[i] == if i + 1 < |s| then s[i + 1] else s[i]
  {
    RemoveFirstProperties(s, s[i].Path);
  }

  // ---------------------------------------------------------------------
  // Go's built-in append on a slice of devices

  /** The backing array after append: written in place when there is room,
      otherwise copied to a fresh array of capacity 2*len+1. */
  function AppendSpec(a: seq<Device>, len: nat, d: Device): (r: seq<Device>)
    requires len <= |a|
    ensures |r| == if len < |a| then |a| else 2 * len + 1
    ensures r[..len + 1] == a[..len] + [d]
  {
    if len < |a| then a[len := d] else a[..len] + [d] + seq(len, _ => d)
  }

  /** Go's append: writes in place when the array has room beyond the
      length, otherwise copies into a larger, fresh array. Either way the old
      array's visible part is untouched. */
  method Append(a: array<Device>, len: nat, d: Device) returns (b: array<Device>, newLen: nat)
    requires len <= a.Length
    modifies a
    ensures newLen == len + 1 && newLen <= b.Length
    ensures b[..newLen] == old(a[..len]) + [d]
    ensures b[..] == AppendSpec(old(a[..]), len, d)
    ensures b == a <==> len < a.Length
    ensures b != a ==> fresh(b) && a[..] == old(a[..])
  {
    if len < a.Length {
      a[len] := d;
      b := a;
    } else {
      b := new Device[2 * len + 1](k => d);
      forall k | 0 <= k < len { b[k] := a[k]; }
      assert b[..len] == a[..len];
      b[len] := d;
      assert b[..] == AppendSpec(old(a[..]), len, d);
    }
    newLen := len + 1;
  }

  // ---------------------------------------------------------------------
  // SortDevicesByRSSI (common/utils.go:208-220)

  /** The comparator: a sorts strictly before b when its RSSI is higher, or
      equal with a smaller lower-cased name. */
  predicate Before(a: Device, b: Device) {
    a.RSSI > b.RSSI || (a.RSSI == b.RSSI && LexLess(ToLower(a.Name), ToLower(b.Name)))
  }

  lemma BeforeAsymmetric(a: Device, b: Device)
    ensures Before(a, b) ==> !Before(b, a)
  {
    if Before(a, b) && Before(b, a) {
      LexLessTransitive(ToLower(a.Name), ToLower(b.Name), ToLower(a.Name));
      LexLessIrreflexive(ToLower(a.Name));
    }
  }

  /** "Not after" is transitive: the comparator is a strict weak order. */
  lemma NotBeforeTransitive(a: Device, b: Device, c: Device)
    requires !Before(b, a) && !Before(c, b)
    ensures !Before(c, a)
  {
    var la, lb, lc := ToLower(a.Name), ToLower(b.Name), ToLower(c.Name);
    if Before(c, a) {
      LexLessTotal(la, lb);
      LexLessTotal(lb, lc);
      if la == lb {
      } else {
        LexLessTransitive(lc, la, lb);
      }
    }
  }

  ghost predicate SortedByRssi(s: seq<Device>) {
    forall i, j :: 0 <= i < j < |s| ==> !Before(s[j], s[i])
  }

  /** Insert x into a sorted list after every element it does not precede. */
  function Insert(s: seq<Device>, x: Device): (r: seq<Device>)
    ensures |r| == |s| + 1
  {
    if s == [] then [x]
    else if Before(x, s[|s| - 1]) then Insert(s[..|s| - 1], x) + [s[|s| - 1]]
    else s + [x]
  }

  /** Insertion sort, element by element from the left. */
  function SortByRssi(s: seq<Device>): (r: seq<Device>)
    ensures |r| == |s|
  {
    if s == [] then [] else Insert(SortByRssi(s[..|s| - 1]), s[|s| - 1])
  }

  lemma {:induction false} InsertPermutes(s: seq<Device>, x: Device)
    ensures multiset(Insert(s, x)) == multiset(s) + multiset{x}
  {
    if s != [] && Before(x, s[|s| - 1]) {
      InsertPermutes(s[..|s| - 1], x);
      assert s == s[..|s| - 1] + [s[|s| - 1]];
    }
  }

  lemma {:induction false} InsertSorted(s: seq<Device>, x: Device)
    requires SortedByRssi(s)
    ensures SortedByRssi(Insert(s, x))
  {
    if s == [] {
    } else if Before(x, s[|s| - 1]) {
      var init, last := s[..|s| - 1], s[|s| - 1];
      InsertSorted(init, x);
      InsertPermutes(init, x);
      var m := Insert(init, x);
      BeforeAsymmetric(x, last);
      forall i | 0 <= i < |m| ensures !Before(last, m[i]) {
        assert m[i] in multiset(init) + multiset{x};
        if m[i] != x {
          assert m[i] in init;
          var k :| 0 <= k < |init| && init[k] == m[i];
          assert s[k] == m[i];
        }
      }
      assert Insert(s, x) == m + [last];
    } else {
      var last := s[|s| - 1];
      forall i | 0 <= i < |s| ensures !Before(x, s[i]) {
        if i < |s| - 1 { NotBeforeTransitive(s[i], last, x); }
      }
    }
  }

  /** The sort yields a permutation of its input, ordered by RSSI descending
      and then lower-cased name ascending. */
  lemma {:induction false} SortByRssiCorrect(s: seq<Device>)
    ensures SortedByRssi(SortByRssi(s))
    ensures multiset(SortByRssi(s)) == multiset(s)
  {
    if s != [] {
      var init := s[..|s| - 1];
      SortByRssiCorrect(init);
      InsertSorted(SortByRssi(init), s[|s| - 1]);
      InsertPermutes(SortByRssi(init), s[|s| - 1]);
      assert s == init + [s[|s| - 1]];
    }
  }

  /** Sorting a sorted list changes nothing; hence sorting is idempotent. */
  lemma {:induction false} SortByRssiOfSorted(s: seq<Device>)
    requires SortedByRssi(s)
    ensures SortByRssi(s) == s
  {
    if s != [] {
      var init := s[..|s| - 1];
      assert SortedByRssi(init);
      SortByRssiOfSorted(init);
      assert |s| == 1 || !Before(s[|s| - 1], init[|init| - 1]);
    }
  }

  lemma SortByRssiIdempotent(s: seq<Device>)
    ensures SortByRssi(SortByRssi(s)) == SortByRssi(s)
  {
    SortByRssiCorrect(s);
    SortByRssiOfSorted(SortByRssi(s));
  }

  /** Where the inner loop of the in-place sort stops is where Insert puts x. */
  lemma {:induction false} InsertSplit(s: seq<Device>, x: Device, j: nat)
    requires j <= |s|
    requires forall k :: j <= k < |s| ==> Before(x, s[k])
    requires j == 0 || !Before(x, s[j - 1])
    ensures Insert(s, x) == s[..j] + [x] + s[j..]
    decreases |s|
  {
    if j < |s| {
      var init := s[..|s| - 1];
      InsertSplit(init, x, j);
      assert init[..j] == s[..j];
      assert init[j..] + [s[|s| - 1]] == s[j..];
    }
  }

  /** One step of insertion sort: a[..i] is sorted, a[i] is moved into place. */
  method InsertInPlace(a: array<Device>, i: nat)
    requires i < a.Length
    modifies a
    ensures a[..i + 1] == Insert(old(a[..i]), old(a[i]))
    ensures a[i + 1..] == old(a[i + 1..])
  {
    ghost var s := a[..i];
    var x := a[i];
    var j := i;
    while j > 0 && Before(x, a[j - 1])
      invariant 0 <= j <= i
      invariant a[..j] == s[..j]
      invariant a[j + 1..i + 1] == s[j..]
      invariant forall k :: j <= k < i ==> Before(x, s[k])
      invariant a[i + 1..] == old(a[i + 1..])
    {
      a[j] := a[j - 1];
      j := j - 1;
    }
    a[j] := x;
    InsertSplit(s, x, j);
    assert a[..i + 1] == a[..j] + [a[j]] + a[j + 1..i + 1];
  }

  /** Sorts the slice a[..len] in place; slots beyond the length are untouched. */
  method SortDevicesByRSSI(a: array<Device>, len: nat)
    requires len <= a.Length
    modifies a
    ensures a[..len] == SortByRssi(old(a[..len]))
    ensures a[len..] == old(a[len..])
  {
    ghost var s := a[..len];
    var i := 0;
    while i < len
      invariant 0 <= i <= len
      invariant a[..i] == SortByRssi(s[..i])
      invariant a[i..] == old(a[i..])
    {
      InsertInPlace(a, i);
      assert s[..i + 1][..i] == s[..i];
      assert s[i] == old(a[i]);
      i := i + 1;
    }
    assert s[..len] == s;
  }

  // ---------------------------------------------------------------------
  // The column widths of padHeaders (common/utils.go:36-104)

  datatype Align = AlignLeft | AlignCenter

  /** One rendered header: its text, the width it is rendered at, its alignment. */
  datatype Cell = Cell(text: string, width: int, align: Align)

  function Max(a: int, b: int): int { if a >= b then a else b }

  /** The lengths padHeaders works with: the caller's when there is one per
      header, otherwise "flexible" (-1) for every column. */
  function EffectiveLengths(n: nat, lengths: Option<seq<int>>): (r: seq<int>)
    ensures |r| == n
    ensures lengths.Some? && |lengths.value| == n ==> r == lengths.value
    ensures (lengths.None? || |lengths.value| != n) ==> forall i :: 0 <= i < n ==> r[i] == -1
  {
    if lengths.Some? && |lengths.value| == n then lengths.value else seq(n, _ => -1)
  }

  /** The number of flexible columns. */
  function FlexCount(L: seq<int>): (r: nat)
    ensures r <= |L|
  {
    if L == [] then 0 else FlexCount(L[..|L| - 1]) + (if L[|L| - 1] == -1 then 1 else 0)
  }

  /** The indices of the flexible columns, in order. */
  function FlexIndices(L: seq<int>): (r: seq<nat>)
    ensures |r| == FlexCount(L)
  {
    if L == [] then [] else FlexIndices(L[..|L| - 1]) + (if L[|L| - 1] == -1 then [|L| - 1] else [])
  }

  /** The sum of the fixed widths (every entry other than -1). */
  function FixedSum(L: seq<int>): int {
    if L == [] then 0 else FixedSum(L[..|L| - 1]) + (if L[|L| - 1] == -1 then 0 else L[|L| - 1])
  }

  /** The width left for the flexible columns. */
  function Remaining(L: seq<int>, totalWidth: int): nat {
    Max(Max(totalWidth - 10, 1) - FixedSum(L), 0)
  }

  /** The width of the k-th flexible column out of count sharing remaining. */
  function FlexShare(k: nat, count: nat, remaining: nat): nat {
    if count == 0 then 0 else remaining / count + (if k < remaining % count then 1 else 0)
  }

  /** The final width of every column: fixed columns keep theirs, the k-th
      flexible column gets its share. */
  function ResolvedWidths(L: seq<int>, totalWidth: int): (r: seq<int>)
    ensures |r| == |L|
  {
    seq(|L|, i requires 0 <= i < |L| =>
      if L[i] == -1 then FlexShare(FlexCount(L[..i]), FlexCount(L), Remaining(L, totalWidth)) else L[i])
  }

  lemma {:induction false} FlexIndicesFacts(L: seq<int>)
    ensures forall k :: 0 <= k < |FlexIndices(L)| ==>
              FlexIndices(L)[k] < |L| && L[FlexIndices(L)[k]] == -1 &&
              FlexCount(L[..FlexIndices(L)[k]]) == k
    ensures forall j :: 0 <= j < |L| && L[j] == -1 ==>
              FlexCount(L[..j]) < FlexCount(L) && FlexIndices(L)[FlexCount(L[..j])] == j
  {
    if L != [] {
      var init := L[..|L| - 1];
      FlexIndicesFacts(init);
      assert forall j :: 0 <= j <= |init| ==> L[..j] == init[..j];
      assert L[..|L| - 1] == init;
      assert forall j :: 0 <= j < |init| ==> L[j] == init[j];
    }
  }

  /** FlexCount grows by at most one per column, and by one exactly at a flexible column. */
  lemma FlexCountStep(L: seq<int>, i: nat)
    requires i < |L|
    ensures FlexCount(L[..i + 1]) == FlexCount(L[..i]) + (if L[i] == -1 then 1 else 0)
  {
    assert L[..i + 1][..i] == L[..i];
  }

  /** The sum of the first c shares. */
  function SumShares(c: nat, count: nat, remaining: nat): nat
    requires c <= count
  {
    if c == 0 then 0 else SumShares(c - 1, count, remaining) + FlexShare(c - 1, count, remaining)
  }

  lemma {:induction false} SumSharesValue(c: nat, count: nat, remaining: nat)
    requires c <= count && count > 0
    ensures SumShares(c, count, remaining) ==
              c * (remaining / count) + (if c < remaining % count then c else remaining % count)
  {
    if c > 0 { SumSharesValue(c - 1, count, remaining); }
  }

  /** All count shares together are exactly remaining. */
  lemma SumSharesAll(count: nat, remaining: nat)
    requires count > 0
    ensures SumShares(count, count, remaining) == remaining
  {
    SumSharesValue(count, count, remaining);
  }

  /** The sum of the widths given to the flexible columns of L, over L[..m]. */
  function FlexSum(L: seq<int>, R: seq<int>, m: nat): int
    requires m <= |L| == |R|
  {
    if m == 0 then 0 else FlexSum(L, R, m - 1) + (if L[m - 1] == -1 then R[m - 1] else 0)
  }

  lemma {:induction false} FlexSumPrefix(L: seq<int>, totalWidth: int, m: nat)
    requires m <= |L|
    ensures FlexCount(L[..m]) <= FlexCount(L)
    ensures FlexSum(L, ResolvedWidths(L, totalWidth), m) ==
              SumShares(FlexCount(L[..m]), FlexCount(L), Remaining(L, totalWidth))
  {
    FlexIndicesFacts(L);
    if m == 0 {
      assert L[..0] == [];
    } else {
      FlexSumPrefix(L, totalWidth, m - 1);
      FlexCountStep(L, m - 1);
    }
  }

  /** When some column is flexible, the flexible widths add up to exactly
      max(max(totalWidth-10, 1) - fixed widths, 0). */
  lemma FlexWidthsSum(L: seq<int>, totalWidth: int)
    requires FlexCount(L) > 0
    ensures FlexSum(L, ResolvedWidths(L, totalWidth), |L|) == Remaining(L, totalWidth)
  {
    FlexSumPrefix(L, totalWidth, |L|);
    assert L[..|L|] == L;
    SumSharesAll(FlexCount(L), Remaining(L, totalWidth));
  }

  /** Two flexible columns differ by at most one; the extra unit goes to
      exactly the first remaining % count flexible columns. */
  lemma FlexWidthsBalanced(L: seq<int>, totalWidth: int, i: nat, j: nat)
    requires i < |L| && j < |L| && L[i] == -1 && L[j] == -1
    ensures FlexCount(L[..i]) < FlexCount(L)
    ensures var R, base := ResolvedWidths(L, totalWidth), Remaining(L, totalWidth) / FlexCount(L);
            -1 <= R[i] - R[j] <= 1 &&
            (R[i] == base + 1 <==> FlexCount(L[..i]) < Remaining(L, totalWidth) % FlexCount(L)) &&
            (R[i] == base <==> FlexCount(L[..i]) >= Remaining(L, totalWidth) % FlexCount(L))
  {
    FlexIndicesFacts(L);
  }

  /** The first loop of padHeaders: the sum of the fixed widths and the
      indices of the flexible columns. */
  method ScanLengths(lengths: array<int>) returns (fixedWidth: int, flexColumns: seq<nat>)
    ensures fixedWidth == FixedSum(lengths[..])
    ensures flexColumns == FlexIndices(lengths[..])
  {
    ghost var L := lengths[..];
    fixedWidth, flexColumns := 0, [];
    for i := 0 to lengths.Length
      invariant fixedWidth == FixedSum(L[..i])
      invariant flexColumns == FlexIndices(L[..i])
    {
      assert L[..i + 1][..i] == L[..i];
      if lengths[i] == -1 {
        flexColumns := flexColumns + [i];
      } else {
        fixedWidth := fixedWidth + lengths[i];
      }
    }
    assert L[..lengths.Length] == L;
  }

  /** The middle of padHeaders: the remaining width is split into equal
      shares, the first remaining % count of them one wider, and each share
      is written back into the slot of its flexible column. */
  method DistributeFlex(lengths: array<int>, flexColumns: seq<nat>, remaining: nat)
    modifies lengths
    requires flexColumns == FlexIndices(lengths[..])
    ensures forall j :: 0 <= j < lengths.Length ==>
              lengths[j] == if old(lengths[j]) == -1
                            then FlexShare(FlexCount(old(lengths[..])[..j]), |flexColumns|, remaining)
                            else old(lengths[j])
  {
    ghost var L := lengths[..];
    var flexCount := |flexColumns|;
    var flexWidths := FlexShares(flexCount, remaining);
    FlexIndicesFacts(L);
    assert forall j :: 0 <= j < |L| ==> lengths[j] == L[j];
    for i := 0 to flexCount
      invariant forall k :: 0 <= k < flexCount ==> flexWidths[k] == FlexShare(k, flexCount, remaining)
      invariant forall j :: 0 <= j < |L| ==>
                  lengths[j] == if L[j] == -1 && FlexCount(L[..j]) < i
                                then FlexShare(FlexCount(L[..j]), flexCount, remaining) else L[j]
    {
      lengths[flexColumns[i]] := flexWidths[i];
    }
  }

  /** The share of each flexible column, in a new array. */
  method FlexShares(flexCount: nat, remaining: nat) returns (flexWidths: array<int>)
    ensures fresh(flexWidths) && flexWidths.Length == flexCount
    ensures forall k :: 0 <= k < flexCount ==> flexWidths[k] == FlexShare(k, flexCount, remaining)
  {
    var baseWidth := 0;
    var remainder := 0;
    if flexCount > 0 {
      baseWidth := remaining / flexCount;
      remainder := remaining % flexCount;
    }
    flexWidths := new int[flexCount];
    for i := 0 to flexCount
      invariant forall k :: 0 <= k < i ==> flexWidths[k] == FlexShare(k, flexCount, remaining)
    {
      flexWidths[i] := baseWidth;
      if i < remainder {
        flexWidths[i] := flexWidths[i] + 1;
      }
    }
  }

  /** The width computation of padHeaders, in place on the lengths. */
  method ResolveWidths(lengths: array<int>, totalWidth: int)
    modifies lengths
    ensures lengths[..] == ResolvedWidths(old(lengths[..]), totalWidth)
  {
    ghost var L := lengths[..];
    var availableWidth := Max(totalWidth - 10, 1);
    var fixedWidth, flexColumns := ScanLengths(lengths);
    var remaining := Max(availableWidth - fixedWidth, 0);
    assert remaining == Remaining(L, totalWidth);
    DistributeFlex(lengths, flexColumns, remaining);
    ghost var R := ResolvedWidths(L, totalWidth);
    assert forall j :: 0 <= j < |L| ==> lengths[j] == R[j];
  }

  /** padHeaders: returns empty headers unchanged; otherwise resolves the
      widths, writes them back into the caller's array when it has one entry
      per header, and renders header i at width max(width, 1). */
  method PadHeaders(headers: seq<string>, headerLengths: array?<int>, totalWidth: int, align: Option<Align>)
    returns (out: seq<Cell>)
    modifies headerLengths
    ensures headers == [] ==> out == [] && (headerLengths != null ==> headerLengths[..] == old(headerLengths[..]))
    ensures headers != [] ==>
              var L := EffectiveLengths(|headers|, if headerLengths == null then None else Some(old(headerLengths[..])));
              var R := ResolvedWidths(L, totalWidth);
              |out| == |headers| &&
              (forall i :: 0 <= i < |headers| ==>
                 out[i] == Cell(headers[i], Max(R[i], 1), if align.Some? then align.value else AlignCenter)) &&
              (headerLengths != null ==>
                 headerLengths[..] == if headerLengths.Length == |headers| then R else old(headerLengths[..]))
  {
    if |headers| == 0 {
      return [];
    }
    var n := |headers|;
    ghost var L := EffectiveLengths(n, if headerLengths == null then None else Some(headerLengths[..]));
    var lengths: array<int>;
    if headerLengths == null || headerLengths.Length != n {
      lengths := new int[n](_ => -1);
      assert lengths[..] == L;
    } else {
      lengths := headerLengths;
    }
    ResolveWidths(lengths, totalWidth);
    ghost var R := ResolvedWidths(L, totalWidth);

    var a := if align.Some? then align.value else AlignCenter;
    out := [];
    for i := 0 to n
      invariant lengths[..] == R
      invariant headerLengths != null && headerLengths != lengths ==> headerLengths[..] == old(headerLengths[..])
      invariant |out| == i
      invariant forall k :: 0 <= k < i ==> out[k] == Cell(headers[k], Max(R[k], 1), a)
    {
      out := out + [Cell(headers[i], Max(lengths[i], 1), a)];
    }
  }
}
