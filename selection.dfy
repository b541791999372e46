/** The ordered list of chosen column names (`selected_columns_list`) and the two edits the
    Add and Remove buttons make to it. */
module Selection {

  /** No name occurs twice. */
  predicate Distinct(s: seq<string>) {
    forall i, j | 0 <= i < j < |s| :: s[i] != s[j]
  }

  /** What the handlers keep true of the list from its initial `[]` on: no duplicates, and never
      the empty name (the Add guard refuses it). */
  predicate Wellformed(s: seq<string>) {
    Distinct(s) && "" !in s
  }

  /** The list after `add_selection` with dropdown text `name`: the name is appended when it is
      non-empty and not yet present; otherwise nothing changes. The name is not checked against
      the loaded columns. */
  function Added(sel: seq<string>, name: string): (r: seq<string>)
    ensures r == sel <==> name == "" || name in sel
    ensures r != sel ==> r == sel + [name]
    ensures name != "" ==> name in r
    ensures Wellformed(sel) ==> Wellformed(r)
  {
    if name != "" && name !in sel then sel + [name] else sel
  }

  /** Where `list.index(x)` finds `x`: its first occurrence. */
  function FirstIndex(sel: seq<string>, x: string): (i: nat)
    requires x in sel
    ensures i < |sel| && sel[i] == x && x !in sel[..i]
    decreases |sel|
  {
    if sel[0] == x then 0
    else
      var k := FirstIndex(sel[1..], x);
      assert sel[..k + 1] == [sel[0]] + sel[1..][..k];
      k + 1
  }

  /** `list.remove(x)`: the list with the first occurrence of `x` taken out. */
  function Removed(sel: seq<string>, x: string): (r: seq<string>)
    requires x in sel
    ensures |r| == |sel| - 1
    ensures multiset(r) == multiset(sel) - multiset{x}
    ensures forall y :: y in r ==> y in sel
    decreases |sel|
  {
    assert sel == [sel[0]] + sel[1..];
    if sel[0] == x then sel[1..] else [sel[0]] + Removed(sel[1..], x)
  }

  /** The occurrence `remove` takes out is the first one: the list is cut at `FirstIndex`. */
  lemma {:induction false} RemovedAtFirstIndex(sel: seq<string>, x: string)
    requires x in sel
    ensures var i := FirstIndex(sel, x); Removed(sel, x) == sel[..i] + sel[i + 1..]
    decreases |sel|
  {
    var tail := sel[1..];
    assert [sel[0]] + tail == sel;
    if sel[0] == x {
      assert FirstIndex(sel, x) == 0 && Removed(sel, x) == tail;
      assert sel[..0] + sel[1..] == tail;
    } else {
      RemovedAtFirstIndex(tail, x);
      var k := FirstIndex(tail, x);
      assert FirstIndex(sel, x) == k + 1;
      assert Removed(sel, x) == [sel[0]] + Removed(tail, x);
      ConsCut(sel[0], tail, k);
    }
  }

  /** Cutting one element out of a list behind a new head is cutting it out one place later. */
  lemma ConsCut(head: string, tail: seq<string>, k: nat)
    requires k < |tail|
    ensures [head] + (tail[..k] + tail[k + 1..]) == ([head] + tail)[..k + 1] + ([head] + tail)[k + 2..]
  {
    var s := [head] + tail;
    assert s[..k + 1] == [head] + tail[..k];
    assert s[k + 2..] == tail[k + 1..];
  }

  /** Reference definition: every name of `sel` other than `x`, in the order they appear. */
  function Without(sel: seq<string>, x: string): (r: seq<string>)
    ensures x !in r
    ensures forall y :: y in r <==> y in sel && y != x
    ensures Distinct(sel) ==> Distinct(r)
    decreases |sel|
  {
    if sel == [] then []
    else if sel[0] == x then Without(sel[1..], x)
    else
      var rest := Without(sel[1..], x);
      assert Distinct(sel) ==> Distinct(sel[1..]) && sel[0] !in sel[1..] && sel[0] !in rest;
      [sel[0]] + rest
  }

  /** Leaving out a name that is not there changes nothing. */
  lemma {:induction false} WithoutAbsent(sel: seq<string>, x: string)
    requires x !in sel
    ensures Without(sel, x) == sel
    decreases |sel|
  {
    if sel != [] {
      WithoutAbsent(sel[1..], x);
      assert [sel[0]] + sel[1..] == sel;
    }
  }

  /** On a list without duplicates, `remove` deletes the one occurrence and keeps every other
      name in its original relative order. */
  lemma {:induction false} RemovedKeepsOrder(sel: seq<string>, x: string)
    requires Distinct(sel) && x in sel
    ensures Removed(sel, x) == Without(sel, x)
    decreases |sel|
  {
    if sel[0] == x {
      assert forall i | 0 < i < |sel| :: sel[i] != x;
      assert x !in sel[1..];
      WithoutAbsent(sel[1..], x);
    } else {
      assert Distinct(sel[1..]);
      assert x in sel[1..];
      RemovedKeepsOrder(sel[1..], x);
    }
  }

  /** A successful remove keeps the list well formed, and the removed name is gone. */
  lemma RemovedKeepsWellformed(sel: seq<string>, x: string)
    requires Wellformed(sel) && x in sel
    ensures Wellformed(Removed(sel, x)) && x !in Removed(sel, x)
  {
    RemovedKeepsOrder(sel, x);
  }

  /** Adding the same name twice in a row leaves it in the list exactly once. */
  lemma AddedTwice(sel: seq<string>, name: string)
    requires Wellformed(sel) && name != ""
    ensures Added(Added(sel, name), name) == Added(sel, name)
    ensures multiset(Added(sel, name))[name] == 1
  {
    var r := Added(sel, name);
    DistinctCountsOnce(r, name);
  }

  /** In a list without duplicates, a present name occurs exactly once. */
  lemma {:induction false} DistinctCountsOnce(s: seq<string>, x: string)
    requires Distinct(s) && x in s
    ensures multiset(s)[x] == 1
    decreases |s|
  {
    assert s == [s[0]] + s[1..];
    if s[0] == x {
      assert forall i | 0 < i < |s| :: s[i] != x;
      assert x !in s[1..];
    } else {
      assert Distinct(s[1..]);
      DistinctCountsOnce(s[1..], x);
    }
  }

  /** Removing a selected name and adding it again moves it to the end of the list. */
  lemma RemoveThenAddMovesToEnd(sel: seq<string>, x: string)
    requires Wellformed(sel) && x in sel
    ensures Added(Removed(sel, x), x) == Without(sel, x) + [x]
  {
    RemovedKeepsOrder(sel, x);
  }

  /** One press of Add or Remove with the given dropdown text. */
  datatype Edit = Add(name: string) | Remove(name: string)

  /** The list after one edit; removing an absent name warns and changes nothing. */
  function Apply(sel: seq<string>, e: Edit): (r: seq<string>)
    ensures e.Add? ==> r == Added(sel, e.name)
    ensures e.Remove? && e.name !in sel ==> r == sel
    ensures e.Remove? && e.name in sel ==> multiset(r) == multiset(sel) - multiset{e.name}
    ensures forall y :: y in r ==> y in sel || e == Add(y)
  {
    match e
    case Add(name) => Added(sel, name)
    case Remove(name) => if name in sel then Removed(sel, name) else sel
  }

  /** The list after a whole session of edits, in order. Every name in it was either there
      at the start or typed for some Add press of the session. */
  function Replay(sel: seq<string>, edits: seq<Edit>): (r: seq<string>)
    ensures edits == [] ==> r == sel
    ensures forall y :: y in r ==> y in sel || exists i :: 0 <= i < |edits| && edits[i] == Add(y)
    decreases |edits|
  {
    if edits == [] then sel
    else
      var r := Replay(Apply(sel, edits[0]), edits[1..]);
      assert forall y :: y in r && y !in sel && edits[0] != Add(y) ==>
        exists i :: 0 <= i < |edits| - 1 && edits[1..][i] == Add(y);
      assert forall i :: 0 <= i < |edits| - 1 ==> edits[1..][i] == edits[i + 1];
      r
  }

  /** Replaying one more edit is applying it to the list the earlier edits left. */
  lemma {:induction false} ReplayAppend(sel: seq<string>, edits: seq<Edit>, e: Edit)
    ensures Replay(sel, edits + [e]) == Apply(Replay(sel, edits), e)
    decreases |edits|
  {
    if edits == [] {
      assert [e][1..] == [];
    } else {
      assert (edits + [e])[0] == edits[0];
      assert (edits + [e])[1..] == edits[1..] + [e];
      ReplayAppend(Apply(sel, edits[0]), edits[1..], e);
    }
  }

  /** Starting from the initial empty list, no sequence of Add and Remove presses ever produces
      a duplicate or an empty name. */
  lemma {:induction false} ReplayKeepsWellformed(sel: seq<string>, edits: seq<Edit>)
    requires Wellformed(sel)
    ensures Wellformed(Replay(sel, edits))
    decreases |edits|
  {
    if edits != [] {
      var e := edits[0];
      if e.Remove? && e.name in sel {
        RemovedKeepsWellformed(sel, e.name);
      }
      ReplayKeepsWellformed(Apply(sel, e), edits[1..]);
    }
  }
}
