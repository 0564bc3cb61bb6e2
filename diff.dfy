/**
 * Field comparison in the reconciliation engines: `normalize_list_comparison`
 * (identical in the Lambda, EKS and RDS collectors; the RDS copy is never
 * called) and the per-column diff of a stored row against a snapshot.
 */
module Diff {
  import opened Text
  import opened Values
  import opened Sorting
  import opened Store

  /** `str(x).strip()` for one list element. */
  function Key(v: Value): string {
    Strip(Str(v))
  }

  /** `[f(x) for x in xs]`. */
  function MapStr<T>(f: T -> string, xs: seq<T>): (r: seq<string>)
    ensures |r| == |xs|
  {
    if xs == [] then [] else [f(xs[0])] + MapStr(f, xs[1..])
  }

  /** `[str(x).strip() for x in xs]`. */
  function Keys(xs: seq<Value>): (r: seq<string>)
    ensures |r| == |xs|
  {
    MapStr(Key, xs)
  }

  function StripAll(ss: seq<string>): (r: seq<string>)
    ensures |r| == |ss|
  {
    if ss == [] then [] else [Strip(ss[0])] + StripAll(ss[1..])
  }

  /**
   * The stripped strings a list or string stored value is compared as: a list's
   * elements, or the string split on ',' (nothing at all when it is empty).
   */
  function OldKeys(stored: Value): seq<string>
    requires stored.List? || stored.Text?
  {
    if stored.List? then Keys(stored.items)
    else if stored.s != "" then StripAll(SplitOn(stored.s, ","))
    else []
  }

  /** `normalize_list_comparison(stored, current)`: true when the two values count as unchanged. */
  predicate SameValue(stored: Value, current: Value) {
    if current.List? && (stored.List? || stored.Text?) then Sort(OldKeys(stored)) == Sort(Keys(current.items))
    else Str(stored) == Str(current)
  }

  /** Against a current list, the comparison is equality of the stripped strings as multisets. */
  lemma SameValueIsMultisetEquality(stored: Value, current: Value)
    requires current.List? && (stored.List? || stored.Text?)
    ensures SameValue(stored, current) <==> multiset(OldKeys(stored)) == multiset(Keys(current.items))
  {
    SortEqualIff(OldKeys(stored), Keys(current.items));
  }

  lemma {:induction false} MapConcat<T>(f: T -> string, a: seq<T>, b: seq<T>)
    ensures MapStr(f, a + b) == MapStr(f, a) + MapStr(f, b)
    decreases |a|
  {
    if a != [] {
      assert (a + b)[0] == a[0] && (a + b)[1..] == a[1..] + b;
      MapConcat(f, a[1..], b);
      assert MapStr(f, a + b) == [f(a[0])] + MapStr(f, a[1..] + b);
    } else {
      assert a + b == b;
    }
  }

  /** Rearranging a list rearranges the list of its images. */
  lemma {:induction false} MapPermutation<T>(f: T -> string, xs: seq<T>, ys: seq<T>)
    requires multiset(xs) == multiset(ys)
    ensures multiset(MapStr(f, xs)) == multiset(MapStr(f, ys))
    decreases |xs|
  {
    if xs != [] {
      assert xs[0] in multiset(ys);
      var j :| 0 <= j < |ys| && ys[j] == xs[0];
      RemoveAt(ys, j);
      RemoveAt(xs, 0);
      MapPermutation(f, xs[1..], ys[..j] + ys[j + 1..]);
      MapRemoveAt(f, ys, j);
      MapRemoveAt(f, xs, 0);
      MultisetInsert(MapStr(f, ys[..j]), MapStr(f, ys[j + 1..]), f(xs[0]), MapStr(f, xs[1..]));
    }
  }

  /** The images of a list split around position `j`. */
  lemma MapRemoveAt<T>(f: T -> string, ys: seq<T>, j: nat)
    requires j < |ys|
    ensures MapStr(f, ys) == MapStr(f, ys[..j]) + ([f(ys[j])] + MapStr(f, ys[j + 1..]))
    ensures MapStr(f, ys[..j] + ys[j + 1..]) == MapStr(f, ys[..j]) + MapStr(f, ys[j + 1..])
  {
    RemoveAt(ys, j);
    MapConcat(f, ys[..j], [ys[j]] + ys[j + 1..]);
    MapConcat(f, [ys[j]], ys[j + 1..]);
    MapConcat(f, ys[..j], ys[j + 1..]);
  }

  lemma MultisetInsert(a: seq<string>, b: seq<string>, x: string, tail: seq<string>)
    requires multiset(tail) == multiset(a + b)
    ensures multiset([x] + tail) == multiset(a + ([x] + b))
  {
  }

  /** Removing position `j` takes one copy of `s[j]` out of the multiset. */
  lemma RemoveAt<T>(s: seq<T>, j: nat)
    requires j < |s|
    ensures s == s[..j] + ([s[j]] + s[j + 1..])
    ensures multiset(s[..j] + s[j + 1..]) == multiset(s) - multiset{s[j]}
  {
    assert s == s[..j] + ([s[j]] + s[j + 1..]);
  }

  /** The comparison does not depend on the order of the current list. */
  lemma NewOrderIrrelevant(stored: Value, xs: seq<Value>, ys: seq<Value>)
    requires stored.List? || stored.Text?
    requires multiset(xs) == multiset(ys)
    ensures SameValue(stored, List(xs)) <==> SameValue(stored, List(ys))
  {
    MapPermutation(Key, xs, ys);
    SameValueIsMultisetEquality(stored, List(xs));
    SameValueIsMultisetEquality(stored, List(ys));
  }

  /** Nor on the order of the stored list. */
  lemma OldOrderIrrelevant(xs: seq<Value>, ys: seq<Value>, current: Value)
    requires current.List?
    requires multiset(xs) == multiset(ys)
    ensures SameValue(List(xs), current) <==> SameValue(List(ys), current)
  {
    MapPermutation(Key, xs, ys);
    SameValueIsMultisetEquality(List(xs), current);
    SameValueIsMultisetEquality(List(ys), current);
  }

  /** An empty stored string equals exactly the empty list. */
  lemma EmptyStringIsEmptyList(xs: seq<Value>)
    ensures SameValue(Text(""), List(xs)) <==> xs == []
  {
    SameValueIsMultisetEquality(Text(""), List(xs));
    if xs != [] {
      assert Keys(xs)[0] in multiset(Keys(xs));
    }
  }

  /** A column found different: its name, the stored value and the snapshot's value. */
  datatype Change = Change(column: string, stored: Value, current: Value)

  /** Lambda and EKS: a column changed when `normalize_list_comparison` says unequal. */
  predicate ListAwareDiffers(stored: Value, current: Value) {
    !SameValue(stored, current)
  }

  /** Athena: a column changed when `str(old) != str(new)`. */
  predicate StrDiffers(stored: Value, current: Value) {
    Str(stored) != Str(current)
  }

  /**
   * The loop over `campos`: every column outside `identity` whose stored value
   * differs from the snapshot's, in column order. Each change pairs a column
   * of the record and its value with the row's stored value.
   */
  function Changed(row: Row, cols: seq<Column>, identity: set<string>, differs: (Value, Value) -> bool)
    : (r: seq<Change>)
    ensures |r| <= |cols|
    ensures forall j :: 0 <= j < |r| ==>
      r[j].column !in identity && r[j].stored == Cell(row, r[j].column) &&
      differs(r[j].stored, r[j].current)
    ensures forall j :: 0 <= j < |r| ==> exists k :: 0 <= k < |cols| && cols[k] == (r[j].column, r[j].current)
    decreases |cols|
  {
    if cols == [] then []
    else
      var (c, v) := cols[|cols| - 1];
      var rest := Changed(row, cols[..|cols| - 1], identity, differs);
      assert forall k :: 0 <= k < |cols| - 1 ==> cols[..|cols| - 1][k] == cols[k];
      rest + Reported(row, c, v, identity, differs)
  }

  /** What one column contributes to the diff. */
  function Reported(row: Row, c: string, v: Value, identity: set<string>, differs: (Value, Value) -> bool)
    : (r: seq<Change>)
    ensures |r| <= 1
    ensures r != [] <==> c !in identity && differs(Cell(row, c), v)
    ensures r != [] ==> r[0] == Change(c, Cell(row, c), v)
  {
    if c in identity || !differs(Cell(row, c), v) then [] else [Change(c, Cell(row, c), v)]
  }

  /** Nothing is reported exactly when every non-identity column compares equal. */
  lemma {:induction false} NothingChangedIff(row: Row, cols: seq<Column>, identity: set<string>,
                                             differs: (Value, Value) -> bool)
    ensures Changed(row, cols, identity, differs) == [] <==>
      forall k :: 0 <= k < |cols| && cols[k].0 !in identity ==> !differs(Cell(row, cols[k].0), cols[k].1)
    decreases |cols|
  {
    if cols != [] {
      var init := cols[..|cols| - 1];
      var last := cols[|cols| - 1];
      NothingChangedIff(row, init, identity, differs);
      var extra := Reported(row, last.0, last.1, identity, differs);
      var rest := Changed(row, init, identity, differs);
      assert Changed(row, cols, identity, differs) == rest + extra;
      assert rest + extra == [] <==> rest == [] && extra == [];
      assert forall k :: 0 <= k < |init| ==> init[k] == cols[k];
    }
  }

  /** How many reported changes concern `col`. */
  function CountFor(changes: seq<Change>, col: string): nat {
    if changes == [] then 0
    else CountFor(changes[..|changes| - 1], col) + (if changes[|changes| - 1].column == col then 1 else 0)
  }

  lemma CountForAppend(changes: seq<Change>, extra: seq<Change>, col: string)
    requires |extra| <= 1
    ensures CountFor(changes + extra, col) ==
      CountFor(changes, col) + (if extra != [] && extra[0].column == col then 1 else 0)
  {
    if extra != [] {
      assert (changes + extra)[..|changes + extra| - 1] == changes;
    } else {
      assert changes + extra == changes;
    }
  }

  /** With distinct column names, each differing column is reported exactly once, the others never. */
  lemma {:induction false} OneChangePerColumn(row: Row, cols: seq<Column>, identity: set<string>,
                                              differs: (Value, Value) -> bool, k: nat)
    requires k < |cols|
    requires forall i, j :: 0 <= i < j < |cols| ==> cols[i].0 != cols[j].0
    ensures CountFor(Changed(row, cols, identity, differs), cols[k].0) ==
      if cols[k].0 !in identity && differs(Cell(row, cols[k].0), cols[k].1) then 1 else 0
    decreases |cols|
  {
    var init := cols[..|cols| - 1];
    var last := cols[|cols| - 1];
    var rest := Changed(row, init, identity, differs);
    var extra := Reported(row, last.0, last.1, identity, differs);
    assert forall i :: 0 <= i < |init| ==> init[i] == cols[i];
    assert Changed(row, cols, identity, differs) == rest + extra;
    CountForAppend(rest, extra, cols[k].0);
    if k == |cols| - 1 {
      ColumnAbsent(row, init, identity, differs, last.0);
    } else {
      OneChangePerColumn(row, init, identity, differs, k);
    }
  }

  /** A column the list does not name is never reported. */
  lemma {:induction false} ColumnAbsent(row: Row, cols: seq<Column>, identity: set<string>,
                                        differs: (Value, Value) -> bool, col: string)
    requires forall i :: 0 <= i < |cols| ==> cols[i].0 != col
    ensures CountFor(Changed(row, cols, identity, differs), col) == 0
    decreases |cols|
  {
    if cols != [] {
      var init := cols[..|cols| - 1];
      var last := cols[|cols| - 1];
      assert forall i :: 0 <= i < |init| ==> init[i] == cols[i];
      ColumnAbsent(row, init, identity, differs, col);
      CountForAppend(Changed(row, init, identity, differs), Reported(row, last.0, last.1, identity, differs), col);
    }
  }

  /** The SET clauses `col = new` for the reported changes, in order. */
  function SetClauses(changes: seq<Change>): (r: seq<Column>)
    ensures |r| == |changes|
    ensures forall j :: 0 <= j < |changes| ==> r[j] == (changes[j].column, changes[j].current)
  {
    seq(|changes|, j requires 0 <= j < |changes| => (changes[j].column, changes[j].current))
  }
}
