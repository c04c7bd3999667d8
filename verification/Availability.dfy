/** When a listing fails: rows without an output, which a scan refuses, among those that are selected. */
module Availability {
  import opened Strings
  import opened History

  function Newer(t: Table, f: Filter, x: RowId): set<RowId>
    requires x in t
  {
    set y | y in Ids(t, f) && t[y].startedAt > t[x].startedAt
  }

  /** The rows with an output that started in the same second. */
  function GoodTies(t: Table, f: Filter, x: RowId): set<RowId>
    requires x in t
  {
    set y | y in Ids(t, f) && t[y].startedAt == t[x].startedAt && t[y].output.Some?
  }

  /** Row `x` has no output, and fewer than `n` matching rows are newer. */
  ghost predicate MaySpoil(t: Table, f: Filter, n: nat, x: RowId)
  {
    x in Ids(t, f) && t[x].output.None? && |Newer(t, f, x)| < n
  }

  /** Neither the newer rows nor they and the good rows of the same second fill a selection. */
  ghost predicate MustSpoil(t: Table, f: Filter, n: nat, x: RowId)
  {
    x in Ids(t, f) && t[x].output.None? && |Newer(t, f, x)| + |GoodTies(t, f, x)| < n
  }

  // ---------- selections with a preference among ties ----------

  /** Of two rows that started in the same second, a selection takes one in `p` first. */
  ghost predicate Prefers(t: Table, f: Filter, sel: seq<RowId>, p: set<RowId>)
    requires forall id :: id in sel ==> id in t
  {
    forall x, y :: x in p && x in Ids(t, f) && y in sel && y !in p && t[y].startedAt == t[x].startedAt ==> x in sel
  }

  lemma {:induction false} TopPreferring(t: Table, f: Filter, n: nat, p: set<RowId>) returns (sel: seq<RowId>)
    ensures IsTop(t, f, n, sel) && Prefers(t, f, sel, p)
    ensures |sel| == n ==> IsNewest(t, f, sel)
  {
    if n == 0 {
      sel := [];
    } else {
      sel := TopPreferring(t, f, n - 1, p);
      var left := Ids(t, f) - Elements(sel);
      if left == {} {
        AllAreSelected(t, f, n - 1, sel);
      } else {
        NotAllSelected(t, f, n - 1, sel);
        var id := NewestPreferring(t, left, p);
        ExtendPreferring(t, f, sel, p, id);
        sel := sel + [id];
      }
    }
  }

  /** A selection that leaves nothing out is the answer to any larger limit. */
  lemma AllAreSelected(t: Table, f: Filter, n: nat, sel: seq<RowId>)
    requires IsTop(t, f, n, sel) && Ids(t, f) - Elements(sel) == {}
    ensures |sel| <= n && IsTop(t, f, n + 1, sel)
  {
    forall x | x in Ids(t, f) ensures x in Elements(sel) {
      assert x !in Ids(t, f) - Elements(sel);
    }
    DistinctCount(sel);
    SubsetCount(Ids(t, f), Elements(sel));
    SubsetCount(Elements(sel), Ids(t, f));
  }

  lemma NewestPreferring(t: Table, left: set<RowId>, p: set<RowId>) returns (id: RowId)
    requires left != {} && forall x :: x in left ==> x in t
    ensures id in left && forall x :: x in left ==> t[x].startedAt <= t[id].startedAt
    ensures id in p || forall x :: x in left && x in p ==> t[x].startedAt < t[id].startedAt
  {
    id := NewestExists(t, left);
    if x :| x in left && x in p && t[x].startedAt == t[id].startedAt {
      id := x;
    }
  }

  lemma ExtendPreferring(t: Table, f: Filter, sel: seq<RowId>, p: set<RowId>, id: RowId)
    requires IsNewest(t, f, sel) && Prefers(t, f, sel, p) && id in Ids(t, f) - Elements(sel)
    requires forall x :: x in Ids(t, f) - Elements(sel) ==> t[x].startedAt <= t[id].startedAt
    requires id in p || forall x :: x in Ids(t, f) - Elements(sel) && x in p ==> t[x].startedAt < t[id].startedAt
    ensures IsNewest(t, f, sel + [id]) && IsTop(t, f, |sel| + 1, sel + [id]) && Prefers(t, f, sel + [id], p)
  {
    NewestExtends(t, f, sel, id);
    forall x, y | x in p && x in Ids(t, f) && y in sel + [id] && y !in p && t[y].startedAt == t[x].startedAt
      ensures x in sel + [id]
    {
      assert x in sel || x in Ids(t, f) - Elements(sel);
    }
  }

  // ---------- which answers fail ----------

  /** A selection that leaves a row out is full, and all it has is as new as that row. */
  lemma LeftOut(t: Table, f: Filter, n: nat, sel: seq<RowId>, x: RowId)
    requires IsTop(t, f, n, sel) && x in Ids(t, f) && x !in sel
    ensures |Elements(sel)| == n
    ensures forall y :: y in sel ==> y in Ids(t, f) && t[x].startedAt <= t[y].startedAt
  {
    assert x in Ids(t, f) - Elements(sel);
    NotAllSelected(t, f, n, sel);
    DistinctCount(sel);
  }

  /** A selected row has fewer than `n` newer ones. */
  lemma SelectedIsRecent(t: Table, f: Filter, n: nat, sel: seq<RowId>, x: RowId)
    requires IsTop(t, f, n, sel) && x in sel
    ensures x in Ids(t, f) && |Newer(t, f, x)| < n
  {
    DistinctCount(sel);
    forall y | y in Newer(t, f, x) ensures y in Elements(sel) - {x} {
      assert y in Ids(t, f);
    }
    SubsetCount(Newer(t, f, x), Elements(sel) - {x});
  }

  /** A row that may spoil a listing is in some selection. */
  lemma MaySpoilIsSelected(t: Table, f: Filter, n: nat, x: RowId) returns (sel: seq<RowId>)
    requires MaySpoil(t, f, n, x)
    ensures IsTop(t, f, n, sel) && x in sel
  {
    sel := TopPreferring(t, f, n, {x});
    if x !in sel {
      LeftOut(t, f, n, sel, x);
      forall y | y in Elements(sel) ensures y in Newer(t, f, x) {
        assert t[y].startedAt == t[x].startedAt ==> x in sel;
      }
      SubsetCount(Elements(sel), Newer(t, f, x));
    }
  }

  /** A row that must spoil a listing leaves no selection of rows with outputs. */
  lemma MustSpoilIsFelt(t: Table, f: Filter, n: nat, x: RowId, sel: seq<RowId>)
    requires MustSpoil(t, f, n, x) && IsTop(t, f, n, sel)
    ensures exists y :: y in sel && t[y].output.None?
  {
    if forall y :: y in sel ==> t[y].output.Some? {
      assert x !in sel;
      LeftOut(t, f, n, sel, x);
      SubsetCount(Elements(sel), Newer(t, f, x) + GoodTies(t, f, x));
    }
  }

  /** If a selection that takes rows with outputs first has one without, that row must spoil the listing. */
  lemma SpoiledInVain(t: Table, f: Filter, n: nat, sel: seq<RowId>, p: set<RowId>, x: RowId)
    requires IsTop(t, f, n, sel) && Prefers(t, f, sel, p) && x in sel && t[x].output.None?
    requires p == set y | y in Ids(t, f) && t[y].output.Some?
    ensures MustSpoil(t, f, n, x)
  {
    var a, b := Newer(t, f, x), GoodTies(t, f, x);
    forall y | y in a + b ensures y in Elements(sel) - {x} {
      assert y in Ids(t, f);
      assert y in b ==> y in p && x !in p;
    }
    DistinctCount(sel);
    SubsetCount(a + b, Elements(sel) - {x});
    assert a !! b;
  }

  /** Rows with outputs can be shown. */
  lemma RecordsExist(t: Table, sel: seq<RowId>) returns (records: seq<Record>)
    requires forall id :: id in sel ==> id in t && t[id].output.Some?
    ensures Shows(t, sel, Some(records))
  {
    records := seq(|sel|, i requires 0 <= i < |sel| =>
      var row := t[sel[i]];
      Record(sel[i], row.name, row.startedAt, row.finishedAt, row.exitCode, row.output.GetOr("")));
  }

  /** Some answer of a listing is an error exactly if a row without output has fewer than `n` newer rows. */
  lemma SomeAnswerFailsIff(t: Table, f: Filter, n: nat)
    ensures IsAnswer(t, f, n, None) <==> exists x :: MaySpoil(t, f, n, x)
  {
    if IsAnswer(t, f, n, None) {
      var sel :| IsTop(t, f, n, sel) && Shows(t, sel, None);
      var x :| x in sel && t[x].output.None?;
      SelectedIsRecent(t, f, n, sel, x);
      assert MaySpoil(t, f, n, x);
    }
    if x :| MaySpoil(t, f, n, x) {
      var sel := MaySpoilIsSelected(t, f, n, x);
      assert Shows(t, sel, None);
    }
  }

  /** Every answer is an error exactly if, moreover, the good rows of its second do not fill the listing. */
  lemma EveryAnswerFailsIff(t: Table, f: Filter, n: nat)
    ensures (forall r :: IsAnswer(t, f, n, r) ==> r.None?) <==> exists x :: MustSpoil(t, f, n, x)
  {
    if x :| MustSpoil(t, f, n, x) {
      forall r | IsAnswer(t, f, n, r) ensures r.None? {
        var sel :| IsTop(t, f, n, sel) && Shows(t, sel, r);
        MustSpoilIsFelt(t, f, n, x, sel);
        ShowsOneAnswer(t, sel, r, None);
      }
    } else {
      var p := set y | y in Ids(t, f) && t[y].output.Some?;
      var sel := TopPreferring(t, f, n, p);
      if x :| x in sel && t[x].output.None? {
        SpoiledInVain(t, f, n, sel, p, x);
      }
      var records := RecordsExist(t, sel);
      assert IsAnswer(t, f, n, Some(records));
    }
  }
}
