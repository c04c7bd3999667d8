/** The default app listing is longer than what pruning keeps, and shows it. */
module Limits {
  import opened Strings
  import opened History
  import Availability

  /** Runs of one name, one a second. */
  function Inserts(name: string, k: nat): seq<Statement>
  {
    if k == 0 then [] else Inserts(name, k - 1) + [Insert(name, k)]
  }

  /** No run is pruned, and row ids count the runs. */
  lemma {:induction false} InsertsAreKept(name: string, k: nat)
    ensures Executable(Inserts(name, k)) && ApplyAll(Inserts(name, k)) == ApplyAllUnpruned(Inserts(name, k))
    ensures ApplyAll(Inserts(name, k)).lastId == k
    ensures k > 0 ==>
      ApplyAll(Inserts(name, k)).rows == Inserted(ApplyAll(Inserts(name, k - 1)).rows, RowId(k), name, k)
  {
    if k > 0 {
      InsertsAreKept(name, k - 1);
      var sts := Inserts(name, k);
      assert sts[..|sts| - 1] == Inserts(name, k - 1) && sts[|sts| - 1] == Insert(name, k);
    }
  }

  ghost predicate HasRows(t: Table, name: string, f: Filter, k: nat)
  {
    |Ids(t, f)| == k && forall id :: id in t ==> id.n <= k && t[id].name == name
  }

  lemma IdsAfterInsert(t: Table, f: Filter, id: RowId, name: string, startedAt: int)
    requires Matches(f, name) && id !in t
    ensures Ids(Inserted(t, id, name, startedAt), f) == Ids(t, f) + {id}
    ensures |Ids(Inserted(t, id, name, startedAt), f)| == |Ids(t, f)| + 1
  {
    var ids := Ids(Inserted(t, id, name, startedAt), f);
    forall x ensures x in ids <==> x in Ids(t, f) + {id} {
    }
  }

  lemma OneMoreRow(t: Table, name: string, f: Filter, k: nat)
    requires Matches(f, name) && HasRows(t, name, f, k)
    ensures HasRows(Inserted(t, RowId(k + 1), name, k + 1), name, f, k + 1)
  {
    IdsAfterInsert(t, f, RowId(k + 1), name, k + 1);
  }

  lemma {:induction false} InsertsMade(name: string, f: Filter, k: nat)
    requires Matches(f, name)
    ensures HasRows(ApplyAll(Inserts(name, k)).rows, name, f, k)
  {
    if k > 0 {
      InsertsMade(name, f, k - 1);
      InsertsAreKept(name, k);
      OneMoreRow(ApplyAll(Inserts(name, k - 1)).rows, name, f, k - 1);
    }
  }

  lemma PrunedListingDiffers(full: Table, name: string, f: Filter, n: nat, keep: seq<RowId>, a: seq<RowId>,
      b: seq<RowId>)
    requires HasRows(full, name, f, MAX_PER_OPERATION + 1) && n > MAX_PER_OPERATION
    requires IsTop(full, ByName(name), MAX_PER_OPERATION, keep)
    requires IsTop(Pruned(full, name, keep), f, n, a) && IsTop(full, f, n, b)
    ensures Starts(Pruned(full, name, keep), a) != Starts(full, b)
  {
    var pruned := Pruned(full, name, keep);
    PruneKeeps(full, name, keep);
    var x := LostRow(full, pruned, f, name);
    SubsetCount(AsNew(pruned, f, full[x].startedAt), Ids(pruned, ByName(name)));
    MissingRowShows(pruned, full, f, n, a, b, x);
  }

  function InsertsAndPrune(name: string, keep: seq<RowId>): seq<Statement>
  {
    Inserts(name, MAX_PER_OPERATION + 1) + [Prune(name, keep)]
  }

  lemma PruneOfInserts(name: string, keep: seq<RowId>)
    requires IsTop(ApplyAll(Inserts(name, MAX_PER_OPERATION + 1)).rows, ByName(name), MAX_PER_OPERATION, keep)
    ensures var full, sts := ApplyAll(Inserts(name, MAX_PER_OPERATION + 1)).rows, InsertsAndPrune(name, keep);
      Executable(sts) && ApplyAll(sts).rows == Pruned(full, name, keep) && ApplyAllUnpruned(sts).rows == full
  {
    InsertsAreKept(name, MAX_PER_OPERATION + 1);
    var sts := InsertsAndPrune(name, keep);
    assert sts[..|sts| - 1] == Inserts(name, MAX_PER_OPERATION + 1) && sts[|sts| - 1] == Prune(name, keep);
  }

  /** A name with 51 runs, pruned: no listing of more than 50 rows agrees with the log. */
  lemma LongListingDiffers(name: string, f: Filter, n: nat) returns (sts: seq<Statement>)
    requires Matches(f, name) && n > 50
    ensures Executable(sts)
    ensures forall a, b :: IsTop(ApplyAll(sts).rows, f, n, a) && IsTop(ApplyAllUnpruned(sts).rows, f, n, b) ==>
      Starts(ApplyAll(sts).rows, a) != Starts(ApplyAllUnpruned(sts).rows, b)
  {
    var full := ApplyAll(Inserts(name, MAX_PER_OPERATION + 1)).rows;
    InsertsMade(name, f, MAX_PER_OPERATION + 1);
    var keep := Availability.TopPreferring(full, ByName(name), MAX_PER_OPERATION, {});
    sts := InsertsAndPrune(name, keep);
    PruneOfInserts(name, keep);
    forall a, b | IsTop(ApplyAll(sts).rows, f, n, a) && IsTop(ApplyAllUnpruned(sts).rows, f, n, b)
      ensures Starts(ApplyAll(sts).rows, a) != Starts(ApplyAllUnpruned(sts).rows, b)
    {
      PrunedListingDiffers(full, name, f, n, keep, a, b);
    }
  }

  lemma LostRow(full: Table, pruned: Table, f: Filter, name: string) returns (x: RowId)
    requires |Ids(full, f)| > MAX_PER_OPERATION && |Ids(pruned, ByName(name))| <= MAX_PER_OPERATION
    requires IsPart(pruned, full) && forall id :: id in full ==> full[id].name == name
    ensures x in Ids(full, f) && x !in pruned
  {
    if forall id :: id in Ids(full, f) ==> id in pruned {
      SubsetCount(Ids(full, f), Ids(pruned, ByName(name)));
    }
    x :| x in Ids(full, f) && x !in pruned;
  }

  /** So after 51 runs of one app operation the app history with its default limit, 100, is not that of the log. */
  lemma DefaultAppListingDiffers() returns (sts: seq<Statement>)
    ensures Executable(sts)
    ensures forall a, b ::
      IsTop(ApplyAll(sts).rows, AppNames, 100, a)
      && IsTop(ApplyAllUnpruned(sts).rows, AppNames, 100, b) ==>
        Starts(ApplyAll(sts).rows, a) != Starts(ApplyAllUnpruned(sts).rows, b)
  {
    assert "web:run"[3] == ':';
    sts := LongListingDiffers("web:run", AppNames, 100);
  }
}
