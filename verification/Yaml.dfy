/** YAML documents as trees, and changes at a path of mapping keys. */
module Yaml {
  import opened Strings

  datatype Kind = Document | Mapping | Sequence | Scalar

  /** A mapping's content alternates keys and values. The tag is the one that the parser resolved or read. */
  datatype Tree = Tree(kind: Kind, tag: string, value: string, content: seq<Tree>)

  const STR := "!!str"

  const CURRENT_VERSION := "current_version"
  const ENROLLMENT_TOKEN := "enrollment_token"

  function Str(value: string): Tree
  {
    Tree(Scalar, STR, value, [])
  }

  /** What a parser gives: scalars have no content, the others no value, and mappings come in pairs. */
  predicate Plain(t: Tree)
  {
    && (if t.kind == Scalar then t.content == [] else t.value == "")
    && (t.kind == Mapping ==> |t.content| % 2 == 0)
    && forall i :: 0 <= i < |t.content| ==> Plain(t.content[i])
  }

  /**
   * What is left of a tree after printing and parsing it again. Tags stay: a string that would resolve
   * to another tag is quoted, and any other tag that the value does not resolve to is written out.
   */
  function Printed(t: Tree): Tree
  {
    if t.kind == Scalar then Tree(Scalar, t.tag, t.value, [])
    else Tree(t.kind, t.tag, "", seq(|t.content|, i requires 0 <= i < |t.content| => Printed(t.content[i])))
  }

  lemma {:induction false} PlainIsPrinted(t: Tree)
    requires Plain(t)
    ensures Printed(t) == t
  {
    if t.kind != Scalar {
      forall i | 0 <= i < |t.content| ensures Printed(t).content[i] == t.content[i] {
        PlainIsPrinted(t.content[i]);
      }
      assert Printed(t).content == t.content;
    }
  }

  // ---------- looking up keys ----------

  /** The position of the value of the first pair with this key, from position `from` on. */
  function ValueIndex(content: seq<Tree>, key: string, from: nat): (r: Option<nat>)
    requires from % 2 == 0
    ensures r.Some? ==> from < r.value < |content| && r.value % 2 == 1 && content[r.value - 1].value == key
    decreases |content| - from
  {
    if from + 1 >= |content| then None
    else if content[from].value == key then Some(from + 1)
    else ValueIndex(content, key, from + 2)
  }

  function Find(t: Tree, key: string): (r: Option<nat>)
    ensures r.Some? ==> 0 < r.value < |t.content| && r.value % 2 == 1 && t.content[r.value - 1].value == key
    ensures r.Some? ==> t.kind == Mapping
  {
    if t.kind != Mapping then None else ValueIndex(t.content, key, 0)
  }

  /** Only keys matter: same keys in the same places, and possibly more pairs after them. */
  ghost predicate SameKeys(a: Tree, b: Tree)
  {
    && a.kind == b.kind && |a.content| <= |b.content|
    && forall e :: 0 <= e < |a.content| && e % 2 == 0 ==> a.content[e].value == b.content[e].value
  }

  lemma {:induction false} ValueIndexOfSameKeys(a: seq<Tree>, b: seq<Tree>, key: string, from: nat)
    requires from % 2 == 0 && |a| == |b|
    requires forall e :: 0 <= e < |a| && e % 2 == 0 ==> a[e].value == b[e].value
    ensures ValueIndex(a, key, from) == ValueIndex(b, key, from)
    decreases |a| - from
  {
    if from + 1 < |a| {
      ValueIndexOfSameKeys(a, b, key, from + 2);
    }
  }

  lemma FindSame(a: Tree, b: Tree, key: string)
    requires SameKeys(a, b) && |a.content| == |b.content|
    ensures Find(a, key) == Find(b, key)
  {
    ValueIndexOfSameKeys(a.content, b.content, key, 0);
  }

  lemma {:induction false} ValueIndexOfMore(a: seq<Tree>, b: seq<Tree>, key: string, from: nat)
    requires from % 2 == 0 && |a| % 2 == 0 && |b| == |a| + 2 && b[..|a|] == a && from <= |a|
    ensures ValueIndex(b, key, from) ==
      if ValueIndex(a, key, from).Some? then ValueIndex(a, key, from)
      else if b[|a|].value == key then Some(|a| + 1)
      else None
    decreases |a| - from
  {
    if from + 1 < |a| {
      assert b[..|a|][from] == a[from];
      ValueIndexOfMore(a, b, key, from + 2);
    } else {
      assert ValueIndex(b, key, from + 2) == None;
    }
  }

  /** Contents that agree up to `to` give the same pair there, or leave the search to what follows. */
  lemma {:induction false} ValueIndexUpTo(a: seq<Tree>, b: seq<Tree>, key: string, from: nat, to: nat)
    requires from % 2 == 0 && to % 2 == 0 && from <= to && to <= |a| && to <= |b|
    requires forall e :: from <= e < to ==> b[e] == a[e]
    ensures var r, s := ValueIndex(a, key, from), ValueIndex(b, key, from);
      if r.Some? && r.value < to then s == r else r == ValueIndex(a, key, to) && s == ValueIndex(b, key, to)
    decreases |a| - from
  {
    if from < to {
      assert b[from] == a[from];
      ValueIndexUpTo(a, b, key, from + 2, to);
    }
  }

  lemma {:induction false} ValueIndexShifts(a: seq<Tree>, b: seq<Tree>, key: string, from: nat)
    requires from % 2 == 0 && 2 <= from && |b| == |a| - 2
    requires forall e :: from <= e < |a| ==> b[e - 2] == a[e]
    ensures var r := ValueIndex(a, key, from);
      ValueIndex(b, key, from - 2) == if r.Some? then Some(r.value - 2) else None
    decreases |a| - from
  {
    if from + 1 < |a| {
      ValueIndexShifts(a, b, key, from + 2);
    }
  }

  /** The pair found is the first one with its key. */
  lemma {:induction false} ValueIndexIsFirst(content: seq<Tree>, key: string, from: nat)
    requires from % 2 == 0
    ensures var r := ValueIndex(content, key, from);
      forall e :: from <= e < (if r.Some? then r.value - 1 else |content| - 1) && e % 2 == 0 ==> content[e].value != key
    decreases |content| - from
  {
    if from + 1 < |content| && content[from].value != key {
      ValueIndexIsFirst(content, key, from + 2);
    }
  }

  // ---------- what the writers change ----------

  /** A version set in memory, the same version after printing, and the enrollment token dropped. */
  datatype Change = SetVersion(version: string) | WriteVersion(version: string) | DropToken

  function Versioned(entry: Tree, version: string): Tree
  {
    match Find(entry, CURRENT_VERSION)
    case Some(k) => Put(entry, k, entry.content[k].(value := version))
    case None => entry.(content := entry.content + [Str(CURRENT_VERSION), Str(version)])
  }

  function WithoutToken(runner: Tree): Tree
  {
    match Find(runner, ENROLLMENT_TOKEN)
    case Some(k) => runner.(content := runner.content[..k - 1] + runner.content[k + 1..])
    case None => runner
  }

  function Do(c: Change, t: Tree): Tree
  {
    match c
    case SetVersion(v) => Versioned(t, v)
    case WriteVersion(v) => Printed(Versioned(t, v))
    case DropToken => WithoutToken(t)
  }

  function Put(t: Tree, i: nat, child: Tree): Tree
    requires i < |t.content|
  {
    t.(content := t.content[i := child])
  }

  /** Dropping the token leaves no token, unless the mapping has that key twice. */
  lemma TokenIsGone(runner: Tree)
    ensures Find(WithoutToken(runner), "enrollment_token").None? <==>
      (Find(runner, "enrollment_token").Some? ==>
         ValueIndex(runner.content, "enrollment_token", Find(runner, "enrollment_token").value + 1).None?)
  {
    var k := Find(runner, ENROLLMENT_TOKEN);
    if k.Some? {
      var a, b := runner.content, WithoutToken(runner).content;
      CutContent(a, k.value);
      IndexAfterCut(a, b, ENROLLMENT_TOKEN, k.value);
    }
  }

  /** `b` is `a` without the pair whose value is at `at`. */
  ghost predicate IsCut(a: seq<Tree>, b: seq<Tree>, at: nat)
  {
    && at % 2 == 1 && at < |a| && |b| == |a| - 2
    && (forall e :: 0 <= e < at - 1 ==> b[e] == a[e])
    && (forall e :: at + 1 <= e < |a| ==> b[e - 2] == a[e])
  }

  lemma CutContent(a: seq<Tree>, at: nat)
    requires at % 2 == 1 && at < |a|
    ensures IsCut(a, a[..at - 1] + a[at + 1..], at)
  {
  }

  /** Up to the cut the same pair is found; else the search goes on behind it, two places earlier. */
  lemma IndexAfterCut(a: seq<Tree>, b: seq<Tree>, key: string, at: nat)
    requires IsCut(a, b, at)
    ensures var r, s, more := ValueIndex(a, key, 0), ValueIndex(b, key, 0), ValueIndex(a, key, at + 1);
      if r.Some? && r.value < at - 1 then s == r
      else
        && s == (if more.Some? then Some(more.value - 2) else None)
        && r == if a[at - 1].value == key then Some(at) else more
  {
    ValueIndexUpTo(a, b, key, 0, at - 1);
    ValueIndexShifts(a, b, key, at + 1);
  }

  lemma CutElsewhere(a: seq<Tree>, b: seq<Tree>, key: string, at: nat)
    requires IsCut(a, b, at) && a[at - 1].value != key
    ensures var r, s := ValueIndex(a, key, 0), ValueIndex(b, key, 0);
      r.Some? == s.Some? && (r.Some? ==> b[s.value] == a[r.value])
  {
    IndexAfterCut(a, b, key, at);
    var r := ValueIndex(a, key, 0);
    if r.Some? && r.value > at {
      assert b[r.value - 2] == a[r.value];
    }
  }

  /** Every other key keeps its value. */
  lemma TokenElsewhere(runner: Tree, key: string)
    requires key != "enrollment_token"
    ensures var a, b := Find(runner, key), Find(WithoutToken(runner), key);
      a.Some? == b.Some? && (a.Some? ==> WithoutToken(runner).content[b.value] == runner.content[a.value])
  {
    var k := Find(runner, ENROLLMENT_TOKEN);
    if k.Some? {
      CutContent(runner.content, k.value);
      CutElsewhere(runner.content, WithoutToken(runner).content, key, k.value);
    }
  }

  // ---------- at a path ----------

  function Lookup(t: Tree, path: seq<string>): Option<Tree>
  {
    if path == [] then Some(t)
    else
      match Find(t, path[0])
      case None => None
      case Some(i) => Lookup(t.content[i], path[1..])
  }

  function Update(t: Tree, path: seq<string>, c: Change): Tree
  {
    if path == [] then Do(c, t)
    else
      match Find(t, path[0])
      case None => t
      case Some(i) => Put(t, i, Update(t.content[i], path[1..], c))
  }

  lemma PutKeepsKeys(t: Tree, i: nat, child: Tree, key: string)
    requires i < |t.content| && i % 2 == 1
    ensures Find(Put(t, i, child), key) == Find(t, key)
  {
    FindSame(Put(t, i, child), t, key);
  }

  lemma DifferentKeys(t: Tree, a: string, b: string)
    requires a != b && Find(t, a).Some? && Find(t, b).Some?
    ensures Find(t, a) != Find(t, b)
  {
  }

  /** At the path itself the change is made. */
  lemma {:induction false} LookupUpdated(t: Tree, path: seq<string>, c: Change)
    ensures Lookup(Update(t, path, c), path) ==
      match Lookup(t, path) case None => None case Some(n) => Some(Do(c, n))
  {
    if path != [] {
      var i := Find(t, path[0]);
      if i.Some? {
        PutKeepsKeys(t, i.value, Update(t.content[i.value], path[1..], c), path[0]);
        LookupUpdated(t.content[i.value], path[1..], c);
      }
    }
  }

  /** Below the path nothing is seen but the changed node. */
  lemma {:induction false} LookupBelow(t: Tree, path: seq<string>, rest: seq<string>)
    ensures Lookup(t, path + rest) ==
      match Lookup(t, path) case None => None case Some(n) => Lookup(n, rest)
  {
    if path == [] {
      assert path + rest == rest;
    } else {
      assert (path + rest)[1..] == path[1..] + rest;
      var i := Find(t, path[0]);
      if i.Some? {
        LookupBelow(t.content[i.value], path[1..], rest);
      }
    }
  }

  /** Neither path leads to the other. */
  predicate Apart(p: seq<string>, q: seq<string>)
  {
    p != [] && q != [] && (p[0] != q[0] || Apart(p[1..], q[1..]))
  }

  lemma {:induction false} ApartIsNotPrefix(p: seq<string>, q: seq<string>)
    ensures Apart(p, q) <==> !(p <= q) && !(q <= p)
  {
    if p != [] && q != [] && p[0] == q[0] {
      ApartIsNotPrefix(p[1..], q[1..]);
      assert p == [p[0]] + p[1..] && q == [q[0]] + q[1..];
      if p[1..] <= q[1..] {
        assert q[..|p|] == [q[0]] + q[1..][..|p| - 1];
      }
      if q[1..] <= p[1..] {
        assert p[..|q|] == [p[0]] + p[1..][..|q| - 1];
      }
      if p <= q {
        assert q[1..][..|p| - 1] == q[..|p|][1..];
      }
      if q <= p {
        assert p[1..][..|q| - 1] == p[..|q|][1..];
      }
    }
  }

  /** Every path apart from the changed one reads what it read. */
  lemma {:induction false} LookupApart(t: Tree, path: seq<string>, c: Change, other: seq<string>)
    requires Apart(path, other)
    ensures Lookup(Update(t, path, c), other) == Lookup(t, other)
  {
    var i := Find(t, path[0]);
    if i.Some? {
      var child := Update(t.content[i.value], path[1..], c);
      PutKeepsKeys(t, i.value, child, other[0]);
      if path[0] == other[0] {
        LookupApart(t.content[i.value], path[1..], c, other[1..]);
      } else if Find(t, other[0]).Some? {
        DifferentKeys(t, path[0], other[0]);
      }
    }
  }

  /** On the way to the path: same kinds, values and keys, in the same order. */
  lemma {:induction false} KeysOnTheWay(t: Tree, path: seq<string>, c: Change, n: nat)
    requires n < |path| && Lookup(t, path[..n]).Some?
    ensures Lookup(Update(t, path, c), path[..n]).Some?
    ensures var a, b := Lookup(t, path[..n]).value, Lookup(Update(t, path, c), path[..n]).value;
      SameKeys(a, b) && |a.content| == |b.content| && a.value == b.value
  {
    var i := Find(t, path[0]);
    if n == 0 {
      assert path[..0] == [];
    } else {
      assert path[..n][1..] == path[1..][..n - 1] && path[..n][0] == path[0];
      PutKeepsKeys(t, i.value, Update(t.content[i.value], path[1..], c), path[0]);
      KeysOnTheWay(t.content[i.value], path[1..], c, n - 1);
    }
  }

  lemma {:induction false} ApartUpdatesCommute(t: Tree, p: seq<string>, c: Change, q: seq<string>, d: Change)
    requires Apart(p, q)
    ensures Update(Update(t, p, c), q, d) == Update(Update(t, q, d), p, c)
  {
    var i, j := Find(t, p[0]), Find(t, q[0]);
    if i.Some? {
      PutKeepsKeys(t, i.value, Update(t.content[i.value], p[1..], c), q[0]);
      PutKeepsKeys(t, i.value, Update(t.content[i.value], p[1..], c), p[0]);
    }
    if j.Some? {
      PutKeepsKeys(t, j.value, Update(t.content[j.value], q[1..], d), p[0]);
      PutKeepsKeys(t, j.value, Update(t.content[j.value], q[1..], d), q[0]);
    }
    if i.Some? && j.Some? {
      if p[0] == q[0] {
        ApartUpdatesCommute(t.content[i.value], p[1..], c, q[1..], d);
        PutTwice(t, i.value, Update(t.content[i.value], p[1..], c), Update(t.content[i.value], q[1..], d),
          Update(Update(t.content[i.value], p[1..], c), q[1..], d));
      } else {
        DifferentKeys(t, p[0], q[0]);
        PutsCommute(t, i.value, Update(t.content[i.value], p[1..], c), j.value, Update(t.content[j.value], q[1..], d));
      }
    }
  }

  /** A path that neither leads to the changed one nor passes through it reads what it read. */
  lemma LookupElsewhere(t: Tree, path: seq<string>, c: Change, other: seq<string>)
    requires !(path <= other) && !(other <= path)
    ensures Lookup(Update(t, path, c), other) == Lookup(t, other)
  {
    ApartIsNotPrefix(path, other);
    LookupApart(t, path, c, other);
  }

  /** Changes commute when neither path leads to the other. */
  lemma UpdatesCommute(t: Tree, p: seq<string>, c: Change, q: seq<string>, d: Change)
    requires !(p <= q) && !(q <= p)
    ensures Update(Update(t, p, c), q, d) == Update(Update(t, q, d), p, c)
  {
    ApartIsNotPrefix(p, q);
    ApartUpdatesCommute(t, p, c, q, d);
  }

  lemma PutSame(t: Tree, i: nat)
    requires i < |t.content|
    ensures Put(t, i, t.content[i]) == t
  {
    assert t.content[i := t.content[i]] == t.content;
  }

  lemma PutsCommute(t: Tree, i: nat, a: Tree, j: nat, b: Tree)
    requires i < |t.content| && j < |t.content| && i != j
    ensures Put(Put(t, i, a), j, b) == Put(Put(t, j, b), i, a)
    ensures Put(t, i, a).content[j] == t.content[j] && Put(t, j, b).content[i] == t.content[i]
  {
    assert t.content[i := a][j := b] == t.content[j := b][i := a];
  }

  lemma PutTwice(t: Tree, i: nat, a: Tree, b: Tree, c: Tree)
    requires i < |t.content|
    ensures Put(Put(t, i, a), i, c) == Put(Put(t, i, b), i, c) == Put(t, i, c)
  {
    assert t.content[i := a][i := c] == t.content[i := b][i := c] == t.content[i := c];
  }

  // ---------- printing ----------

  /** For a parsed document, printing after the change is the change printed. */
  lemma {:induction false} PrintedUpdate(t: Tree, path: seq<string>, version: string)
    requires Plain(t)
    ensures Printed(Update(t, path, SetVersion(version))) == Update(t, path, WriteVersion(version))
  {
    if path == [] {
    } else if Find(t, path[0]).Some? {
      var i := Find(t, path[0]).value;
      var a := Put(t, i, Update(t.content[i], path[1..], SetVersion(version)));
      var b := Put(t, i, Update(t.content[i], path[1..], WriteVersion(version)));
      forall j | 0 <= j < |t.content| ensures Printed(a).content[j] == b.content[j] {
        if j == i {
          PrintedUpdate(t.content[i], path[1..], version);
        } else {
          PlainIsPrinted(t.content[j]);
        }
      }
      assert Printed(a).content == b.content;
    } else {
      PlainIsPrinted(t);
    }
  }

  /** An entry on which a version can be stored: a mapping whose version, if there is one, is a scalar. */
  predicate Storable(entry: Tree)
  {
    && entry.kind == Mapping
    && match Find(entry, CURRENT_VERSION) case None => true case Some(k) => entry.content[k].kind == Scalar
  }

  /** The version an entry shows. */
  function Shown(entry: Tree): Option<string>
  {
    match Find(entry, CURRENT_VERSION)
    case Some(k) => if entry.content[k].kind == Scalar then Some(entry.content[k].value) else None
    case None => None
  }

  lemma VersionedFind(entry: Tree, version: string)
    requires Plain(entry)
    ensures entry.kind == Mapping ==>
      Find(Versioned(entry, version), CURRENT_VERSION) ==
        if Find(entry, CURRENT_VERSION).Some? then Find(entry, CURRENT_VERSION) else Some(|entry.content| + 1)
  {
    match Find(entry, CURRENT_VERSION)
    case Some(k) => PutKeepsKeys(entry, k, entry.content[k].(value := version), CURRENT_VERSION);
    case None =>
      if entry.kind == Mapping {
        ValueIndexOfMore(entry.content, Versioned(entry, version).content, CURRENT_VERSION, 0);
      }
  }

  lemma StrIsPlain(s: string)
    ensures Plain(Str(s)) && Printed(Str(s)) == Str(s)
  {
  }

  /** On a storable entry the change survives printing. */
  lemma StorableIsWritten(entry: Tree, version: string)
    requires Plain(entry) && Storable(entry)
    ensures Plain(Versioned(entry, version)) && Do(WriteVersion(version), entry) == Versioned(entry, version)
  {
    StrIsPlain(version);
    StrIsPlain(CURRENT_VERSION);
    PlainIsPrinted(Versioned(entry, version));
  }

  /** On another mapping, or on a scalar, it does not. */
  lemma OthersAreNotWritten(entry: Tree, version: string)
    requires Plain(entry) && !Storable(entry) && entry.kind in {Mapping, Scalar}
    ensures Do(WriteVersion(version), entry) == entry
  {
    if entry.kind == Mapping {
      var k := Find(entry, CURRENT_VERSION).value;
      var a := Versioned(entry, version);
      forall j | 0 <= j < |entry.content| ensures Printed(a).content[j] == entry.content[j] {
        PlainIsPrinted(entry.content[j]);
        if j == k {
          PrintedIgnoresValue(entry.content[k], version);
        }
      }
      assert Printed(a).content == entry.content;
    }
  }

  lemma PrintedIgnoresValue(t: Tree, value: string)
    requires t.kind != Scalar
    ensures Printed(t.(value := value)) == Printed(t)
  {
    assert Printed(t.(value := value)).content == Printed(t).content;
  }

  /** To a sequence two items are added each time. */
  lemma SequenceGrows(entry: Tree, version: string)
    requires Plain(entry) && entry.kind in {Sequence, Document}
    ensures Do(WriteVersion(version), entry) == entry.(content := entry.content + [Str(CURRENT_VERSION), Str(version)])
    ensures Plain(Do(WriteVersion(version), entry))
  {
    var a := entry.(content := entry.content + [Str(CURRENT_VERSION), Str(version)]);
    StrIsPlain(version);
    StrIsPlain(CURRENT_VERSION);
    PlainIsPrinted(a);
  }

  lemma WrittenIsPlain(entry: Tree, version: string)
    requires Plain(entry)
    ensures Plain(Do(WriteVersion(version), entry))
  {
    if Storable(entry) {
      StorableIsWritten(entry, version);
    } else if entry.kind in {Mapping, Scalar} {
      OthersAreNotWritten(entry, version);
    } else {
      SequenceGrows(entry, version);
    }
  }

  lemma {:induction false} UpdateIsPlain(t: Tree, path: seq<string>, version: string)
    requires Plain(t)
    ensures Plain(Update(t, path, WriteVersion(version)))
  {
    if path == [] {
      WrittenIsPlain(t, version);
    } else if Find(t, path[0]).Some? {
      UpdateIsPlain(t.content[Find(t, path[0]).value], path[1..], version);
    }
  }

  /** The entry shows the new version exactly if it is storable, and no other key of it changes. */
  lemma WrittenEntry(entry: Tree, version: string)
    requires Plain(entry)
    ensures Shown(Do(WriteVersion(version), entry)) == Some(version) <==> Storable(entry)
    ensures Storable(Do(WriteVersion(version), entry)) <==> Storable(entry)
    ensures Do(WriteVersion(version), entry).kind == entry.kind
    ensures SameKeys(entry, Do(WriteVersion(version), entry))
  {
    VersionedFind(entry, version);
    if Storable(entry) {
      StorableIsWritten(entry, version);
    } else if entry.kind in {Mapping, Scalar} {
      OthersAreNotWritten(entry, version);
    } else {
      SequenceGrows(entry, version);
    }
  }

  /** The same value under the same key, if there is one. */
  ghost predicate SameAt(a: Tree, b: Tree, key: string)
  {
    Find(a, key) == Find(b, key)
    && (Find(a, key).Some? ==> a.content[Find(a, key).value] == b.content[Find(b, key).value])
  }

  lemma VersionedElsewhere(entry: Tree, version: string, key: string)
    requires Plain(entry) && entry.kind == Mapping && key != CURRENT_VERSION
    ensures SameAt(Versioned(entry, version), entry, key)
  {
    match Find(entry, CURRENT_VERSION)
    case Some(k) => PutKeepsKeys(entry, k, entry.content[k].(value := version), key);
    case None => ValueIndexOfMore(entry.content, Versioned(entry, version).content, key, 0);
  }

  lemma WrittenEntryElsewhere(entry: Tree, version: string, key: string)
    requires Plain(entry) && key != CURRENT_VERSION
    ensures SameAt(Do(WriteVersion(version), entry), entry, key)
  {
    if Storable(entry) {
      StorableIsWritten(entry, version);
      VersionedElsewhere(entry, version, key);
    } else if entry.kind in {Mapping, Scalar} {
      OthersAreNotWritten(entry, version);
    } else {
      SequenceGrows(entry, version);
    }
  }

  /** After one write no further one is wanted exactly if the entry is storable. */
  lemma WriteSettles(entry: Tree, version: string)
    requires Plain(entry) && version != ""
    ensures var once := Do(WriteVersion(version), entry); Versioned(once, version) == once <==> Storable(entry)
  {
    var once := Do(WriteVersion(version), entry);
    if Storable(entry) {
      StorableIsWritten(entry, version);
      VersionedFind(entry, version);
      var k := Find(once, CURRENT_VERSION).value;
      assert once.content[k := once.content[k].(value := version)] == once.content;
    } else if entry.kind == Mapping {
      OthersAreNotWritten(entry, version);
      var k := Find(entry, CURRENT_VERSION).value;
      assert Versioned(entry, version).content[k].value == version != entry.content[k].value;
    } else {
      assert |Versioned(once, version).content| == |once.content| + 2;
    }
  }

  /** What the file holds changes no more exactly if the entry is not a list. */
  lemma WrittenTwice(entry: Tree, version: string)
    requires Plain(entry)
    ensures var once := Do(WriteVersion(version), entry);
      Do(WriteVersion(version), once) == once <==> entry.kind in {Mapping, Scalar}
  {
    var once := Do(WriteVersion(version), entry);
    WrittenEntry(entry, version);
    WrittenIsPlain(entry, version);
    if Storable(entry) {
      StorableWrittenTwice(entry, version);
    } else if entry.kind in {Mapping, Scalar} {
      OthersAreNotWritten(entry, version);
    } else {
      SequenceGrows(once, version);
      assert |Do(WriteVersion(version), once).content| == |once.content| + 2;
    }
  }

  lemma StorableWrittenTwice(entry: Tree, version: string)
    requires Plain(entry) && Storable(entry)
    ensures var once := Do(WriteVersion(version), entry); Do(WriteVersion(version), once) == once
  {
    var once := Do(WriteVersion(version), entry);
    StorableIsWritten(entry, version);
    WrittenEntry(entry, version);
    StorableIsWritten(once, version);
    VersionedFind(entry, version);
    PutSame(once, Find(once, CURRENT_VERSION).value);
  }
}
