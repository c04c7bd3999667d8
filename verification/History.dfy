/** The operation history table: insert, finalise, prune, and the three newest-first listings. */
module History {
  import opened Strings

  const MAX_PER_OPERATION: nat := 50

  /** A primary key, as handed out by AUTOINCREMENT; an INSERT that failed yields 0. */
  datatype RowId = RowId(n: nat)

  /** One table row; the last three columns are NULL until the run is finalised. */
  datatype Row = Row(
    name: string,
    startedAt: int,
    finishedAt: Option<int>,
    exitCode: Option<int>,
    output: Option<string>
  )

  datatype Record = Record(
    id: RowId,
    name: string,
    startedAt: int,
    finishedAt: Option<int>,
    exitCode: Option<int>,
    output: string
  )

  /** Rows by primary key. */
  type Table = map<RowId, Row>

  /** The WHERE clauses of the three listings; AppNames is LIKE '%:%'. */
  datatype Filter = ByName(name: string) | AnyName | AppNames

  predicate Matches(f: Filter, name: string)
  {
    match f
    case ByName(n) => name == n
    case AnyName => true
    case AppNames => ':' in name
  }

  function Ids(t: Table, f: Filter): set<RowId>
  {
    set id | id in t && Matches(f, t[id].name)
  }

  function Min(a: nat, b: nat): nat
  {
    if a < b then a else b
  }

  ghost function Elements(s: seq<RowId>): set<RowId>
  {
    set id | id in s
  }

  ghost predicate Distinct(s: seq<RowId>)
  {
    forall i, j :: 0 <= i < j < |s| ==> s[i] != s[j]
  }

  /**
   * `sel` is one possible answer to SELECT id ... WHERE f ORDER BY started_at DESC LIMIT n. Rows with
   * equal start times may come in any order, and any of them may be the one cut off by the limit.
   */
  ghost predicate IsTop(t: Table, f: Filter, n: nat, sel: seq<RowId>)
  {
    && Distinct(sel)
    && |sel| == Min(n, |Ids(t, f)|)
    && (forall i :: 0 <= i < |sel| ==> sel[i] in Ids(t, f))
    && (forall i, j :: 0 <= i < j < |sel| ==> t[sel[i]].startedAt >= t[sel[j]].startedAt)
    && (forall i, id :: 0 <= i < |sel| && id in Ids(t, f) && id !in sel ==> t[id].startedAt <= t[sel[i]].startedAt)
  }

  ghost predicate DistinctStarts(t: Table, f: Filter)
  {
    forall x, y :: x in Ids(t, f) && y in Ids(t, f) && x != y ==> t[x].startedAt != t[y].startedAt
  }

  function Starts(t: Table, sel: seq<RowId>): seq<int>
    requires forall id :: id in sel ==> id in t
  {
    seq(|sel|, i requires 0 <= i < |sel| => t[sel[i]].startedAt)
  }

  // ---------- the three statements that change the table ----------

  function Inserted(t: Table, id: RowId, name: string, startedAt: int): Table
  {
    t[id := Row(name, startedAt, None, None, None)]
  }

  function Updated(t: Table, id: RowId, finishedAt: int, exitCode: int, output: string): Table
  {
    if id !in t then t
    else t[id := t[id].(finishedAt := Some(finishedAt), exitCode := Some(exitCode), output := Some(output))]
  }

  function Pruned(t: Table, name: string, keep: seq<RowId>): Table
  {
    map id | id in t && (t[id].name == name ==> id in keep) :: t[id]
  }

  // ---------- counting ----------

  lemma {:induction false} DistinctCount(s: seq<RowId>)
    requires Distinct(s)
    ensures |Elements(s)| == |s|
  {
    if s != [] {
      var init := s[..|s| - 1];
      DistinctCount(init);
      assert Elements(s) == Elements(init) + {s[|s| - 1]};
    }
  }

  lemma {:induction false} SubsetCount(a: set<RowId>, b: set<RowId>)
    requires a <= b
    ensures |a| <= |b|
  {
    if a != {} {
      var x :| x in a;
      SubsetCount(a - {x}, b - {x});
    }
  }

  lemma AllIn(a: set<RowId>, b: set<RowId>)
    requires a <= b && |a| == |b|
    ensures a == b
  {
    forall x | x in b ensures x in a {
      if x !in a {
        SubsetCount(a, b - {x});
      }
    }
  }

  /** If at least `n` matching rows started at `s` or later, then so did every selected row. */
  lemma TopIsRecent(t: Table, f: Filter, n: nat, sel: seq<RowId>, recent: set<RowId>, s: int)
    requires IsTop(t, f, n, sel)
    requires recent <= Ids(t, f) && |recent| >= n
    requires forall id :: id in recent ==> t[id].startedAt >= s
    ensures forall i :: 0 <= i < |sel| ==> t[sel[i]].startedAt >= s
  {
    forall i | 0 <= i < |sel| ensures t[sel[i]].startedAt >= s {
      if t[sel[i]].startedAt < s {
        assert recent <= Elements(sel) - {sel[i]};
        SubsetCount(recent, Elements(sel) - {sel[i]});
        DistinctCount(sel);
        assert false;
      }
    }
  }

  /** A selection that leaves a row out is full. */
  lemma NotAllSelected(t: Table, f: Filter, n: nat, sel: seq<RowId>)
    requires IsTop(t, f, n, sel) && Ids(t, f) - Elements(sel) != {}
    ensures |sel| == n
  {
    if |sel| < n {
      DistinctCount(sel);
      AllIn(Elements(sel), Ids(t, f));
    }
  }

  /** Any two answers to the same query list the same start times. */
  lemma TopStartsUnique(t: Table, f: Filter, n: nat, a: seq<RowId>, b: seq<RowId>)
    requires IsTop(t, f, n, a) && IsTop(t, f, n, b)
    ensures Starts(t, a) == Starts(t, b)
  {
    forall i | 0 <= i < |a| ensures t[a[i]].startedAt == t[b[i]].startedAt {
      TopStartAtMost(t, f, n, a, b, i);
      TopStartAtMost(t, f, n, b, a, i);
    }
  }

  /** Every row that started after the i-th selected one is among the first i. */
  lemma LaterRowsComeFirst(t: Table, f: Filter, n: nat, sel: seq<RowId>, i: nat, id: RowId)
    requires IsTop(t, f, n, sel) && i < |sel|
    requires id in Ids(t, f) && t[id].startedAt > t[sel[i]].startedAt
    ensures id in Elements(sel[..i])
  {
    var k :| 0 <= k < |sel| && sel[k] == id;
    assert k < i && sel[..i][k] == id;
  }

  lemma TopStartAtMost(t: Table, f: Filter, n: nat, a: seq<RowId>, b: seq<RowId>, i: nat)
    requires IsTop(t, f, n, a) && IsTop(t, f, n, b) && i < |a|
    ensures t[a[i]].startedAt <= t[b[i]].startedAt
  {
    if t[a[i]].startedAt > t[b[i]].startedAt {
      FirstAreAmong(t, f, n, a, b, i);
      SubsetCount(Elements(a[..i + 1]), Elements(b[..i]));
      DistinctCount(a[..i + 1]);
      DistinctCount(b[..i]);
      assert false;
    }
  }

  lemma FirstAreAmong(t: Table, f: Filter, n: nat, a: seq<RowId>, b: seq<RowId>, i: nat)
    requires IsTop(t, f, n, a) && IsTop(t, f, n, b) && i < |a| && t[a[i]].startedAt > t[b[i]].startedAt
    ensures Elements(a[..i + 1]) <= Elements(b[..i])
  {
    forall id | id in Elements(a[..i + 1]) ensures id in Elements(b[..i]) {
      var k :| 0 <= k <= i && a[k] == id;
      assert t[a[k]].startedAt >= t[a[i]].startedAt;
      LaterRowsComeFirst(t, f, n, b, i, id);
    }
  }

  /** With distinct start times the answer itself is unique. */
  lemma TopUnique(t: Table, f: Filter, n: nat, a: seq<RowId>, b: seq<RowId>)
    requires IsTop(t, f, n, a) && IsTop(t, f, n, b)
    requires DistinctStarts(t, f)
    ensures a == b
  {
    TopStartsUnique(t, f, n, a, b);
    forall i | 0 <= i < |a| ensures a[i] == b[i] {
      assert Starts(t, a)[i] == t[a[i]].startedAt && Starts(t, b)[i] == t[b[i]].startedAt;
    }
  }

  // ---------- the pruned table refines the log that is never pruned ----------

  ghost function NoOlder(t: Table, name: string, s: int): set<RowId>
  {
    set id | id in t && t[id].name == name && t[id].startedAt >= s
  }

  /** `p` is `u` without some rows, each outranked by 50 kept rows of the same name. */
  ghost predicate Refines(p: Table, u: Table)
  {
    && (forall id :: id in p ==> id in u && p[id] == u[id])
    && (forall id :: id in u && id !in p ==> |NoOlder(p, u[id].name, u[id].startedAt)| >= MAX_PER_OPERATION)
  }

  lemma InsertRefines(p: Table, u: Table, id: RowId, name: string, startedAt: int)
    requires Refines(p, u) && id !in u
    ensures Refines(Inserted(p, id, name, startedAt), Inserted(u, id, name, startedAt))
  {
    var p', u' := Inserted(p, id, name, startedAt), Inserted(u, id, name, startedAt);
    forall x | x in u' && x !in p'
      ensures |NoOlder(p', u'[x].name, u'[x].startedAt)| >= MAX_PER_OPERATION
    {
      SubsetCount(NoOlder(p, u[x].name, u[x].startedAt), NoOlder(p', u[x].name, u[x].startedAt));
    }
  }

  lemma UpdateRefines(p: Table, u: Table, id: RowId, finishedAt: int, exitCode: int, output: string)
    requires Refines(p, u)
    ensures Refines(Updated(p, id, finishedAt, exitCode, output), Updated(u, id, finishedAt, exitCode, output))
  {
    var p' := Updated(p, id, finishedAt, exitCode, output);
    var u' := Updated(u, id, finishedAt, exitCode, output);
    forall x | x in u' && x !in p'
      ensures |NoOlder(p', u'[x].name, u'[x].startedAt)| >= MAX_PER_OPERATION
    {
      assert NoOlder(p', u'[x].name, u'[x].startedAt) == NoOlder(p, u[x].name, u[x].startedAt);
    }
  }

  lemma PruneRefines(p: Table, u: Table, name: string, keep: seq<RowId>)
    requires Refines(p, u) && IsTop(p, ByName(name), MAX_PER_OPERATION, keep)
    ensures Refines(Pruned(p, name, keep), u)
  {
    var p' := Pruned(p, name, keep);
    var ids := Ids(p, ByName(name));
    DistinctCount(keep);
    forall x | x in u && x !in p'
      ensures |NoOlder(p', u[x].name, u[x].startedAt)| >= MAX_PER_OPERATION
    {
      var s := u[x].startedAt;
      var recent := NoOlder(p, u[x].name, s);
      if u[x].name != name {
        assert NoOlder(p', u[x].name, s) == recent;
      } else {
        if x in p {
          SubsetCount(Elements(keep), ids - {x});
        } else {
          SubsetCount(recent, ids);
          TopIsRecent(p, ByName(name), MAX_PER_OPERATION, keep, recent, s);
        }
        SubsetCount(Elements(keep), NoOlder(p', name, s));
      }
    }
  }

  /** Pruning keeps at most 50 rows of its name, the newest ones, and every row of other names. */
  lemma PruneKeeps(t: Table, name: string, keep: seq<RowId>)
    requires IsTop(t, ByName(name), 50, keep)
    ensures var t' := Pruned(t, name, keep);
      && Ids(t', ByName(name)) == Elements(keep)
      && |Ids(t', ByName(name))| == Min(50, |Ids(t, ByName(name))|)
      && (forall id :: id in t && t[id].name != name ==> id in t' && t'[id] == t[id])
      && (forall id :: id in t' ==> id in t && t'[id] == t[id])
  {
    DistinctCount(keep);
    assert Ids(Pruned(t, name, keep), ByName(name)) == Elements(keep);
  }

  // ---------- when a table with fewer rows gives the same listing ----------

  /** The rows of `p` are rows of `u`, unchanged. */
  ghost predicate IsPart(p: Table, u: Table)
  {
    forall id :: id in p ==> id in u && p[id] == u[id]
  }

  /** The matching rows that started at `s` or later. */
  ghost function AsNew(t: Table, f: Filter, s: int): set<RowId>
  {
    set y | y in Ids(t, f) && t[y].startedAt >= s
  }

  /** Every matching row that `p` lacks is outranked by `n` rows of `p`. */
  ghost predicate Outranked(p: Table, u: Table, f: Filter, n: nat)
  {
    forall x :: x in Ids(u, f) && x !in p ==> |AsNew(p, f, u[x].startedAt)| >= n
  }

  /** Then what can be selected from `p` can be selected from `u`. */
  lemma OutrankedIsTop(p: Table, u: Table, f: Filter, n: nat, sel: seq<RowId>)
    requires IsPart(p, u) && Outranked(p, u, f, n) && IsTop(p, f, n, sel)
    ensures IsTop(u, f, n, sel)
  {
    SubsetCount(Ids(p, f), Ids(u, f));
    if x :| x in Ids(u, f) && x !in Ids(p, f) {
      SubsetCount(AsNew(p, f, u[x].startedAt), Ids(p, f));
    } else {
      assert Ids(p, f) == Ids(u, f);
    }
    forall i, id | 0 <= i < |sel| && id in Ids(u, f) && id !in sel
      ensures u[id].startedAt <= u[sel[i]].startedAt
    {
      if id !in p {
        TopIsRecent(p, f, n, sel, AsNew(p, f, u[id].startedAt), u[id].startedAt);
      }
    }
  }

  /** The first `m` rows of a selection are a selection. */
  lemma TopPrefix(t: Table, f: Filter, n: nat, sel: seq<RowId>, m: nat)
    requires IsTop(t, f, n, sel) && m <= |sel|
    ensures IsTop(t, f, m, sel[..m])
  {
    forall i, id | 0 <= i < m && id in Ids(t, f) && id !in sel[..m] ensures t[id].startedAt <= t[sel[i]].startedAt {
      if id in sel {
        var k :| 0 <= k < |sel| && sel[k] == id;
        assert sel[..m][i] == sel[i] && k >= m;
      }
    }
  }

  /** With more than `m` matching rows from `s` on, the row at `m` is one of them. */
  lemma RowAtIsNew(t: Table, f: Filter, n: nat, sel: seq<RowId>, m: nat, s: int)
    requires IsTop(t, f, n, sel) && m < n && |AsNew(t, f, s)| > m
    ensures m < |sel| && t[sel[m]].startedAt >= s
  {
    SubsetCount(AsNew(t, f, s), Ids(t, f));
    TopPrefix(t, f, n, sel, m + 1);
    TopIsRecent(t, f, m + 1, sel[..m + 1], AsNew(t, f, s), s);
    assert sel[..m + 1][m] == sel[m];
  }

  /** With only `m` of them it is not. */
  lemma RowAtIsOld(t: Table, f: Filter, n: nat, sel: seq<RowId>, m: nat, s: int)
    requires IsTop(t, f, n, sel) && m < |sel| && |AsNew(t, f, s)| <= m
    ensures t[sel[m]].startedAt < s
  {
    if t[sel[m]].startedAt >= s {
      var first := sel[..m + 1];
      forall id | id in Elements(first) ensures id in AsNew(t, f, s) {
        var k :| 0 <= k <= m && first[k] == id;
        assert sel[k] == id && t[sel[k]].startedAt >= t[sel[m]].startedAt;
      }
      DistinctCount(first);
      SubsetCount(Elements(first), AsNew(t, f, s));
    }
  }

  /** A missing row that is not outranked shows: the listings differ at the place where it would be. */
  lemma MissingRowShows(p: Table, u: Table, f: Filter, n: nat, a: seq<RowId>, b: seq<RowId>, x: RowId)
    requires IsPart(p, u) && IsTop(p, f, n, a) && IsTop(u, f, n, b)
    requires x in Ids(u, f) && x !in p && |AsNew(p, f, u[x].startedAt)| < n
    ensures Starts(p, a) != Starts(u, b)
  {
    var s := u[x].startedAt;
    var m := |AsNew(p, f, s)|;
    SubsetCount(AsNew(p, f, s) + {x}, AsNew(u, f, s));
    RowAtIsNew(u, f, n, b, m, s);
    if m < |a| {
      RowAtIsOld(p, f, n, a, m, s);
    }
    StartsDiffer(p, u, a, b, m, s);
  }

  lemma StartsDiffer(p: Table, u: Table, a: seq<RowId>, b: seq<RowId>, m: nat, s: int)
    requires (forall id :: id in a ==> id in p) && (forall id :: id in b ==> id in u)
    requires m < |b| && u[b[m]].startedAt >= s && (m < |a| ==> p[a[m]].startedAt < s)
    ensures Starts(p, a) != Starts(u, b)
  {
    if m < |a| {
      assert Starts(p, a)[m] < s <= Starts(u, b)[m];
    }
    assert |Starts(p, a)| == |a| && |Starts(u, b)| == |b|;
  }

  /** For any filter, any limit and any rows missing: the listings agree exactly if every missing row is outranked. */
  lemma ListingsAgreeIff(p: Table, u: Table, f: Filter, n: nat, a: seq<RowId>, b: seq<RowId>)
    requires IsPart(p, u) && IsTop(p, f, n, a) && IsTop(u, f, n, b)
    ensures Starts(p, a) == Starts(u, b) <==> Outranked(p, u, f, n)
  {
    if Outranked(p, u, f, n) {
      OutrankedIsTop(p, u, f, n, a);
      TopStartsUnique(u, f, n, a, b);
      assert Starts(p, a) == Starts(u, a);
    } else {
      var x :| x in Ids(u, f) && x !in p && |AsNew(p, f, u[x].startedAt)| < n;
      MissingRowShows(p, u, f, n, a, b, x);
    }
  }

  lemma RefinesOutranks(p: Table, u: Table, f: Filter, n: nat)
    requires Refines(p, u) && n <= MAX_PER_OPERATION
    ensures IsPart(p, u) && Outranked(p, u, f, n)
  {
    forall x | x in Ids(u, f) && x !in p ensures |AsNew(p, f, u[x].startedAt)| >= n {
      SubsetCount(NoOlder(p, u[x].name, u[x].startedAt), AsNew(p, f, u[x].startedAt));
    }
  }

  /** Every answer a listing can give on the pruned table is one it could give on the full log. */
  lemma ListingRefines(p: Table, u: Table, f: Filter, n: nat, sel: seq<RowId>)
    requires Refines(p, u) && n <= MAX_PER_OPERATION && IsTop(p, f, n, sel)
    ensures IsTop(u, f, n, sel)
  {
    RefinesOutranks(p, u, f, n);
    OutrankedIsTop(p, u, f, n, sel);
  }

  /** The listings of the pruned table cannot be told from those of the log that keeps everything. */
  lemma ListingsAgree(p: Table, u: Table, f: Filter, n: nat, a: seq<RowId>, b: seq<RowId>)
    requires Refines(p, u) && n <= MAX_PER_OPERATION
    requires IsTop(p, f, n, a) && IsTop(u, f, n, b)
    ensures Starts(u, a) == Starts(u, b) == Starts(p, a)
    ensures DistinctStarts(u, f) ==> a == b
  {
    RefinesOutranks(p, u, f, n);
    ListingRefines(p, u, f, n, a);
    ListingsAgreeIff(p, u, f, n, a, b);
    assert Starts(u, a) == Starts(p, a);
    if DistinctStarts(u, f) {
      TopUnique(u, f, n, a, b);
    }
  }

  /**
   * For one name right after a prune, fifty is the exact bound: a larger limit tells the two apart iff a
   * row was lost.
   */
  lemma LargerLimitsAgreeIff(p: Table, u: Table, name: string, n: nat, a: seq<RowId>, b: seq<RowId>)
    requires Refines(p, u) && |Ids(p, ByName(name))| <= MAX_PER_OPERATION
    requires IsTop(p, ByName(name), n, a) && IsTop(u, ByName(name), n, b)
    ensures Starts(p, a) == Starts(u, b) <==> n <= MAX_PER_OPERATION || |Ids(u, ByName(name))| <= MAX_PER_OPERATION
  {
    var f := ByName(name);
    ListingsAgreeIff(p, u, f, n, a, b);
    if n <= MAX_PER_OPERATION {
      RefinesOutranks(p, u, f, n);
    } else {
      LostRowsIff(p, u, name);
      forall x | x in Ids(u, f) && x !in p ensures |AsNew(p, f, u[x].startedAt)| <= MAX_PER_OPERATION {
        SubsetCount(AsNew(p, f, u[x].startedAt), Ids(p, f));
      }
    }
  }

  /** A name has lost rows exactly if it ever had more than 50. */
  lemma LostRowsIff(p: Table, u: Table, name: string)
    requires Refines(p, u) && |Ids(p, ByName(name))| <= MAX_PER_OPERATION
    ensures (forall x :: x in Ids(u, ByName(name)) ==> x in p) <==> |Ids(u, ByName(name))| <= MAX_PER_OPERATION
  {
    var f := ByName(name);
    forall x | x in Ids(u, f) && x !in p ensures |Ids(u, f)| > MAX_PER_OPERATION {
      SubsetCount(NoOlder(p, u[x].name, u[x].startedAt) + {x}, Ids(u, f));
    }
    if forall x :: x in Ids(u, f) ==> x in p {
      SubsetCount(Ids(u, f), Ids(p, f));
    }
  }

  // ---------- whole runs ----------

  datatype Statement =
    | Insert(name: string, startedAt: int)
    | Update(id: RowId, finishedAt: int, exitCode: int, output: string)
    | Prune(name: string, keep: seq<RowId>)

  /** A table with the last AUTOINCREMENT value handed out. */
  datatype Store = Store(rows: Table, lastId: nat)

  const EMPTY := Store(map[], 0)

  function Apply(s: Store, st: Statement): Store
  {
    match st
    case Insert(name, startedAt) => Store(Inserted(s.rows, RowId(s.lastId + 1), name, startedAt), s.lastId + 1)
    case Update(id, fin, code, out) => s.(rows := Updated(s.rows, id, fin, code, out))
    case Prune(name, keep) => s.(rows := Pruned(s.rows, name, keep))
  }

  function ApplyAll(sts: seq<Statement>): Store
  {
    if sts == [] then EMPTY else Apply(ApplyAll(sts[..|sts| - 1]), sts[|sts| - 1])
  }

  /** The same statement on a database whose prune does nothing. */
  function ApplyUnpruned(s: Store, st: Statement): Store
  {
    if st.Prune? then s else Apply(s, st)
  }

  function ApplyAllUnpruned(sts: seq<Statement>): Store
  {
    if sts == [] then EMPTY else ApplyUnpruned(ApplyAllUnpruned(sts[..|sts| - 1]), sts[|sts| - 1])
  }

  /** A prune keeps what its sub-select may have answered. */
  ghost predicate CanApply(s: Store, st: Statement)
  {
    st.Prune? ==> IsTop(s.rows, ByName(st.name), MAX_PER_OPERATION, st.keep)
  }

  /** Two stores that went through the same statements, one of them without pruning. */
  ghost predicate StoresInv(p: Store, u: Store)
  {
    Refines(p.rows, u.rows) && p.lastId == u.lastId && forall id :: id in u.rows ==> 0 < id.n <= u.lastId
  }

  lemma StatementRefines(p: Store, u: Store, st: Statement)
    requires StoresInv(p, u) && CanApply(p, st)
    ensures StoresInv(Apply(p, st), ApplyUnpruned(u, st))
  {
    match st
    case Insert(name, startedAt) => InsertRefines(p.rows, u.rows, RowId(p.lastId + 1), name, startedAt);
    case Update(id, fin, code, out) => UpdateRefines(p.rows, u.rows, id, fin, code, out);
    case Prune(name, keep) => PruneRefines(p.rows, u.rows, name, keep);
  }

  ghost predicate Executable(sts: seq<Statement>)
  {
    sts == [] ||
    var init := sts[..|sts| - 1];
    Executable(init) && CanApply(ApplyAll(init), sts[|sts| - 1])
  }

  lemma {:induction false} RunRefines(sts: seq<Statement>)
    requires Executable(sts)
    ensures StoresInv(ApplyAll(sts), ApplyAllUnpruned(sts))
  {
    if sts != [] {
      var init := sts[..|sts| - 1];
      RunRefines(init);
      StatementRefines(ApplyAll(init), ApplyAllUnpruned(init), sts[|sts| - 1]);
    }
  }

  /** Over any sequence of statements, every listing of at most 50 rows agrees with the unpruned log. */
  lemma RunListingsAgree(sts: seq<Statement>, f: Filter, n: nat, a: seq<RowId>, b: seq<RowId>)
    requires Executable(sts) && n <= 50
    requires IsTop(ApplyAll(sts).rows, f, n, a) && IsTop(ApplyAllUnpruned(sts).rows, f, n, b)
    ensures var u := ApplyAllUnpruned(sts).rows;
      && (forall id :: id in a ==> id in u && u[id] == ApplyAll(sts).rows[id])
      && Starts(u, a) == Starts(u, b)
  {
    RunRefines(sts);
    ListingsAgree(ApplyAll(sts).rows, ApplyAllUnpruned(sts).rows, f, n, a, b);
  }

  /**
   * For any limit: the listings agree with the unpruned log exactly if every pruned row is outranked by
   * the rows left.
   */
  lemma RunListingsAgreeIff(sts: seq<Statement>, f: Filter, n: nat, a: seq<RowId>, b: seq<RowId>)
    requires Executable(sts) && IsTop(ApplyAll(sts).rows, f, n, a) && IsTop(ApplyAllUnpruned(sts).rows, f, n, b)
    ensures Starts(ApplyAll(sts).rows, a) == Starts(ApplyAllUnpruned(sts).rows, b)
      <==> Outranked(ApplyAll(sts).rows, ApplyAllUnpruned(sts).rows, f, n)
  {
    RunRefines(sts);
    ListingsAgreeIff(ApplyAll(sts).rows, ApplyAllUnpruned(sts).rows, f, n, a, b);
  }

  // ---------- the database object ----------

  /** A record shows the row `id`, whose output is not NULL. */
  predicate IsRecordOf(rec: Record, id: RowId, row: Row)
  {
    && rec.id == id && rec.name == row.name && rec.startedAt == row.startedAt
    && rec.finishedAt == row.finishedAt && rec.exitCode == row.exitCode
    && row.output == Some(rec.output)
  }

  /** What a listing makes of a selection: a record for each row, or the error of scanning a NULL output. */
  ghost predicate Shows(t: Table, sel: seq<RowId>, r: Option<seq<Record>>)
    requires forall id :: id in sel ==> id in t
  {
    match r
    case None => exists id :: id in sel && t[id].output.None?
    case Some(records) =>
      && |records| == |sel|
      && forall i :: 0 <= i < |sel| ==> IsRecordOf(records[i], sel[i], t[sel[i]])
  }

  lemma ShownHaveOutputs(t: Table, sel: seq<RowId>, records: seq<Record>)
    requires (forall id :: id in sel ==> id in t) && Shows(t, sel, Some(records))
    ensures forall id :: id in sel ==> t[id].output.Some?
  {
    forall id | id in sel ensures t[id].output.Some? {
      var i :| 0 <= i < |sel| && sel[i] == id;
      assert IsRecordOf(records[i], sel[i], t[sel[i]]);
    }
  }

  /** A selection is shown in one way. */
  lemma ShowsOneAnswer(t: Table, sel: seq<RowId>, a: Option<seq<Record>>, b: Option<seq<Record>>)
    requires forall id :: id in sel ==> id in t
    requires Shows(t, sel, a) && Shows(t, sel, b)
    ensures a == b
  {
    if a.Some? {
      ShownHaveOutputs(t, sel, a.value);
    }
    if b.Some? {
      ShownHaveOutputs(t, sel, b.value);
    }
    if a.Some? && b.Some? {
      forall i | 0 <= i < |sel| ensures a.value[i] == b.value[i] {
        assert IsRecordOf(a.value[i], sel[i], t[sel[i]]) && IsRecordOf(b.value[i], sel[i], t[sel[i]]);
      }
      assert a.value == b.value;
    }
  }

  /** One possible answer of a listing. */
  ghost predicate IsAnswer(t: Table, f: Filter, n: nat, r: Option<seq<Record>>)
  {
    exists sel :: IsTop(t, f, n, sel) && Shows(t, sel, r)
  }

  predicate Wanted(f: Filter, row: Row)
  {
    f.AnyName? || (f.ByName? && row.name == f.name) || (f.AppNames? && ':' in row.name)
  }

  /**
   * What a successful listing is: different rows, each shown whole, newest first; and a row that is wanted
   * is missing only if the listing is full of rows that did not start before it.
   */
  lemma AnswerIsNewest(t: Table, f: Filter, n: nat, records: seq<Record>)
    requires IsAnswer(t, f, n, Some(records))
    ensures |records| <= n
    ensures forall i :: 0 <= i < |records| ==>
      && records[i].id in t && Wanted(f, t[records[i].id])
      && t[records[i].id] == Row(records[i].name, records[i].startedAt, records[i].finishedAt, records[i].exitCode,
                                 Some(records[i].output))
    ensures forall i, j :: 0 <= i < j < |records| ==>
      records[i].id != records[j].id && records[i].startedAt >= records[j].startedAt
    ensures forall id :: id in t && Wanted(f, t[id]) && (forall i :: 0 <= i < |records| ==> records[i].id != id) ==>
      |records| == n && forall i :: 0 <= i < |records| ==> records[i].startedAt >= t[id].startedAt
  {
    var sel :| IsTop(t, f, n, sel) && Shows(t, sel, Some(records));
    forall i | 0 <= i < |records| ensures IsRecordOf(records[i], sel[i], t[sel[i]]) {
    }
    forall id | id in t && Wanted(f, t[id]) && (forall i :: 0 <= i < |records| ==> records[i].id != id)
      ensures |records| == n && forall i :: 0 <= i < |records| ==> records[i].startedAt >= t[id].startedAt
    {
      assert id in Ids(t, f) - Elements(sel);
      NotAllSelected(t, f, n, sel);
    }
  }

  ghost predicate SameStarts(a: seq<Record>, b: seq<Record>)
  {
    |a| == |b| && forall i :: 0 <= i < |a| ==> a[i].startedAt == b[i].startedAt
  }

  /**
   * What users see: the records listed from the pruned table and from the unpruned log have the same
   * start times, and with distinct start times the answers are the same, errors included.
   */
  lemma AnswersAgree(sts: seq<Statement>, f: Filter, n: nat, a: Option<seq<Record>>, b: Option<seq<Record>>)
    requires Executable(sts) && n <= 50
    requires IsAnswer(ApplyAll(sts).rows, f, n, a) && IsAnswer(ApplyAllUnpruned(sts).rows, f, n, b)
    ensures a.Some? && b.Some? ==> SameStarts(a.value, b.value)
    ensures DistinctStarts(ApplyAllUnpruned(sts).rows, f) ==> a == b
  {
    RunRefines(sts);
    RefinedAnswersAgree(ApplyAll(sts).rows, ApplyAllUnpruned(sts).rows, f, n, a, b);
  }

  lemma RefinedAnswersAgree(p: Table, u: Table, f: Filter, n: nat, a: Option<seq<Record>>, b: Option<seq<Record>>)
    requires Refines(p, u) && n <= MAX_PER_OPERATION && IsAnswer(p, f, n, a) && IsAnswer(u, f, n, b)
    ensures a.Some? && b.Some? ==> SameStarts(a.value, b.value)
    ensures DistinctStarts(u, f) ==> a == b
  {
    var x :| IsTop(p, f, n, x) && Shows(p, x, a);
    var y :| IsTop(u, f, n, y) && Shows(u, y, b);
    ShownAgree(p, u, f, n, x, y, a, b);
  }

  lemma ShownAgree(p: Table, u: Table, f: Filter, n: nat, x: seq<RowId>, y: seq<RowId>, a: Option<seq<Record>>,
      b: Option<seq<Record>>)
    requires Refines(p, u) && n <= MAX_PER_OPERATION && IsTop(p, f, n, x) && IsTop(u, f, n, y)
    requires Shows(p, x, a) && Shows(u, y, b)
    ensures a.Some? && b.Some? ==> SameStarts(a.value, b.value)
    ensures DistinctStarts(u, f) ==> a == b
  {
    ListingsAgree(p, u, f, n, x, y);
    ShownAlike(p, u, x, y, a, b);
  }

  /** Unchanged rows are shown alike. */
  lemma ShownAlike(p: Table, u: Table, x: seq<RowId>, y: seq<RowId>, a: Option<seq<Record>>, b: Option<seq<Record>>)
    requires (forall id :: id in x ==> id in p && id in u && u[id] == p[id]) && (forall id :: id in y ==> id in u)
    requires Starts(u, x) == Starts(u, y) && Shows(p, x, a) && Shows(u, y, b)
    ensures a.Some? && b.Some? ==> SameStarts(a.value, b.value)
    ensures x == y ==> a == b
  {
    if a.Some? && b.Some? {
      assert Starts(p, x) == Starts(u, x);
      ShownByStarts(p, u, x, y, a.value, b.value);
    }
    if x == y {
      assert Shows(u, x, a);
      ShowsOneAnswer(u, x, a, b);
    }
  }

  /** Two listings show the same start times exactly if their selections have them. */
  lemma ShownByStarts(p: Table, u: Table, x: seq<RowId>, y: seq<RowId>, a: seq<Record>, b: seq<Record>)
    requires (forall id :: id in x ==> id in p) && (forall id :: id in y ==> id in u)
    requires Shows(p, x, Some(a)) && Shows(u, y, Some(b))
    ensures SameStarts(a, b) <==> Starts(p, x) == Starts(u, y)
  {
    assert |Starts(p, x)| == |a| && |Starts(u, y)| == |b|;
    assert forall i :: 0 <= i < |a| ==> IsRecordOf(a[i], x[i], p[x[i]]) && a[i].startedAt == Starts(p, x)[i];
    assert forall i :: 0 <= i < |b| ==> IsRecordOf(b[i], y[i], u[y[i]]) && b[i].startedAt == Starts(u, y)[i];
  }

  /** For any limit: two listings that succeed show the same start times exactly if every pruned row is outranked. */
  lemma AnswersAgreeIff(sts: seq<Statement>, f: Filter, n: nat, a: seq<Record>, b: seq<Record>)
    requires Executable(sts)
    requires IsAnswer(ApplyAll(sts).rows, f, n, Some(a)) && IsAnswer(ApplyAllUnpruned(sts).rows, f, n, Some(b))
    ensures SameStarts(a, b) <==> Outranked(ApplyAll(sts).rows, ApplyAllUnpruned(sts).rows, f, n)
  {
    RunRefines(sts);
    ListedAgreeIff(ApplyAll(sts).rows, ApplyAllUnpruned(sts).rows, f, n, a, b);
  }

  lemma ListedAgreeIff(p: Table, u: Table, f: Filter, n: nat, a: seq<Record>, b: seq<Record>)
    requires IsPart(p, u) && IsAnswer(p, f, n, Some(a)) && IsAnswer(u, f, n, Some(b))
    ensures SameStarts(a, b) <==> Outranked(p, u, f, n)
  {
    var x :| IsTop(p, f, n, x) && Shows(p, x, Some(a));
    var y :| IsTop(u, f, n, y) && Shows(u, y, Some(b));
    ListingsAgreeIff(p, u, f, n, x, y);
    ShownByStarts(p, u, x, y, a, b);
  }

  lemma {:induction false} NewestExists(t: Table, ids: set<RowId>) returns (id: RowId)
    requires ids != {} && forall x :: x in ids ==> x in t
    ensures id in ids && forall x :: x in ids ==> t[x].startedAt <= t[id].startedAt
  {
    id :| id in ids;
    if ids != {id} {
      var other := NewestExists(t, ids - {id});
      if t[other].startedAt > t[id].startedAt {
        id := other;
      }
    }
  }

  /** `sel` lists some of the newest matching rows, newest first. */
  ghost predicate IsNewest(t: Table, f: Filter, sel: seq<RowId>)
  {
    IsTop(t, f, |sel|, sel)
  }

  lemma NewestExtends(t: Table, f: Filter, sel: seq<RowId>, id: RowId)
    requires IsNewest(t, f, sel)
    requires id in Ids(t, f) - Elements(sel)
    requires forall x :: x in Ids(t, f) - Elements(sel) ==> t[x].startedAt <= t[id].startedAt
    ensures IsNewest(t, f, sel + [id])
    ensures Elements(sel + [id]) == Elements(sel) + {id}
  {
    DistinctCount(sel);
    assert id !in sel;
    SubsetCount(Elements(sel) + {id}, Ids(t, f));
  }

  lemma NewestIsTop(t: Table, f: Filter, n: nat, sel: seq<RowId>)
    requires IsNewest(t, f, sel) && |sel| <= n
    requires |sel| == n || Ids(t, f) <= Elements(sel)
    ensures IsTop(t, f, n, sel)
  {
    DistinctCount(sel);
    SubsetCount(Elements(sel), Ids(t, f));
    if |sel| < n {
      assert Ids(t, f) == Elements(sel);
    }
  }

  /** One row of `ids` that started last; any of them when there are several. */
  method Newest(t: Table, ids: set<RowId>) returns (id: RowId)
    requires ids != {} && forall x :: x in ids ==> x in t
    ensures id in ids && forall x :: x in ids ==> t[x].startedAt <= t[id].startedAt
  {
    ghost var w := NewestExists(t, ids);
    id :| id in ids && forall x :: x in ids ==> t[x].startedAt <= t[id].startedAt;
  }

  class DB {
    var rows: Table
    var lastId: nat
    /** The same statements without the pruning. */
    ghost var log: Table

    ghost predicate Valid()
      reads this
    {
      && Refines(rows, log)
      && (forall id :: id in log ==> 0 < id.n <= lastId)
    }

    constructor ()
      ensures Valid() && rows == log == map[] && lastId == 0
    {
      rows, lastId, log := map[], 0, map[];
    }

    /** `ok` is whether the statement succeeds; without it the caller gets id 0. */
    method InsertRun(name: string, startedAt: int, ok: bool) returns (id: RowId)
      requires Valid()
      modifies this
      ensures Valid()
      ensures ok ==>
        && id.n == lastId == old(lastId) + 1 && id !in old(log)
        && rows == Inserted(old(rows), id, name, startedAt) && log == Inserted(old(log), id, name, startedAt)
      ensures !ok ==> id.n == 0 && rows == old(rows) && log == old(log) && lastId == old(lastId)
    {
      if !ok { return RowId(0); }
      lastId := lastId + 1;
      id := RowId(lastId);
      InsertRefines(rows, log, id, name, startedAt);
      rows := rows[id := Row(name, startedAt, None, None, None)];
      log := Inserted(log, id, name, startedAt);
    }

    method UpdateRun(id: RowId, finishedAt: int, exitCode: int, output: string, ok: bool)
      requires Valid()
      modifies this
      ensures Valid() && lastId == old(lastId)
      ensures rows == (if ok then Updated(old(rows), id, finishedAt, exitCode, output) else old(rows))
      ensures log == (if ok then Updated(old(log), id, finishedAt, exitCode, output) else old(log))
    {
      if ok {
        UpdateRefines(rows, log, id, finishedAt, exitCode, output);
        if id in rows {
          rows := rows[id := rows[id].(
            finishedAt := Some(finishedAt), exitCode := Some(exitCode), output := Some(output))];
        }
        log := Updated(log, id, finishedAt, exitCode, output);
      }
    }

    method Prune(name: string, ok: bool) returns (ghost keep: seq<RowId>)
      requires Valid()
      modifies this
      ensures Valid() && lastId == old(lastId) && log == old(log)
      ensures ok ==> IsTop(old(rows), ByName(name), 50, keep) && rows == Pruned(old(rows), name, keep)
      ensures !ok ==> rows == old(rows)
    {
      keep := [];
      if ok {
        var newest := Select(ByName(name), MAX_PER_OPERATION);
        keep := newest;
        PruneRefines(rows, log, name, newest);
        rows := map id | id in rows && !(rows[id].name == name && id !in newest) :: rows[id];
        assert rows == Pruned(old(rows), name, newest);
      }
    }

    /** SELECT ... WHERE f ORDER BY started_at DESC LIMIT n. */
    method Select(f: Filter, n: nat) returns (sel: seq<RowId>)
      ensures IsTop(rows, f, n, sel)
    {
      var t := rows;
      var left := Ids(t, f);
      sel := [];
      while |sel| < n && left != {}
        invariant left == Ids(t, f) - Elements(sel)
        invariant IsNewest(t, f, sel) && |sel| <= n
        decreases left
      {
        var id := Newest(t, left);
        NewestExtends(t, f, sel, id);
        sel := sel + [id];
        left := left - {id};
      }
      NewestIsTop(t, f, n, sel);
    }

    /** The row loop shared by the three listings: None is the error of scanning a NULL output. */
    method Scan(sel: seq<RowId>) returns (r: Option<seq<Record>>)
      requires forall id :: id in sel ==> id in rows
      ensures Shows(rows, sel, r)
    {
      var records := [];
      for i := 0 to |sel|
        invariant |records| == i && forall k :: 0 <= k < i ==> IsRecordOf(records[k], sel[k], rows[sel[k]])
      {
        var id := sel[i];
        var row := rows[id];
        if row.output.None? {
          return None;
        }
        records := records + [Record(id, row.name, row.startedAt, row.finishedAt, row.exitCode, row.output.value)];
      }
      return Some(records);
    }

    method ListHistory(name: string, limit: int) returns (r: Option<seq<Record>>)
      ensures IsAnswer(rows, ByName(name), if limit <= 0 then 20 else limit, r)
    {
      var sel := Select(ByName(name), if limit <= 0 then 20 else limit);
      r := Scan(sel);
    }

    method ListAllHistory(limit: int) returns (r: Option<seq<Record>>)
      ensures IsAnswer(rows, AnyName, if limit <= 0 then 50 else limit, r)
    {
      var sel := Select(AnyName, if limit <= 0 then 50 else limit);
      r := Scan(sel);
    }

    method ListAllAppHistory(limit: int) returns (r: Option<seq<Record>>)
      ensures IsAnswer(rows, AppNames, if limit <= 0 then 50 else limit, r)
    {
      var sel := Select(AppNames, if limit <= 0 then 50 else limit);
      r := Scan(sel);
    }
  }
}
