/** The configuration file: version write-backs, token removal, and the watcher's poll. */
module Writer {
  import opened Strings
  import opened Yaml
  import opened YamlNodes

  const ZERO_TIME := 0

  datatype Target = Target(section: string, name: string) {
    function Path(): seq<string>
    {
      [section, name]
    }
  }

  /** The document after a version was written for a target. */
  function AfterWrite(doc: Tree, tg: Target, version: string): Tree
  {
    Edited(doc, tg.Path(), WriteVersion(version))
  }

  function AfterClear(doc: Tree): Tree
  {
    Edited(doc, ["runner"], DropToken)
  }

  function LookupIn(doc: Tree, path: seq<string>): Option<Tree>
  {
    if doc.content == [] then None else Lookup(doc.content[0], path)
  }

  /** Whether a write-back would change the file at all. */
  predicate Wants(doc: Tree, tg: Target, version: string)
  {
    ResultOf(doc, tg.section, tg.name, version) == Done(true)
  }

  /** There is nothing to write to, or a version can be stored there. */
  predicate Good(doc: Tree, tg: Target)
  {
    match LookupIn(doc, tg.Path()) case None => true case Some(entry) => Storable(entry)
  }

  lemma WantsByEntry(doc: Tree, tg: Target, version: string)
    ensures Wants(doc, tg, version) <==>
      && LookupIn(doc, tg.Path()).Some?
      && Versioned(LookupIn(doc, tg.Path()).value, version) != LookupIn(doc, tg.Path()).value
  {
  }

  lemma LookupIsPlain(t: Tree, path: seq<string>)
    requires Plain(t) && Lookup(t, path).Some?
    ensures Plain(Lookup(t, path).value)
  {
    if path != [] {
      LookupIsPlain(t.content[Find(t, path[0]).value], path[1..]);
    }
  }

  /** Setting a version in the parsed document and printing it is writing it to the file. */
  lemma PrintedEdit(doc: Tree, tg: Target, version: string)
    requires Plain(doc) && doc.kind != Scalar
    ensures Printed(Edited(doc, tg.Path(), SetVersion(version))) == AfterWrite(doc, tg, version)
    ensures Plain(AfterWrite(doc, tg, version)) && AfterWrite(doc, tg, version).kind == doc.kind
  {
    if doc.content == [] {
      PlainIsPrinted(doc);
    } else {
      var a, b := Edited(doc, tg.Path(), SetVersion(version)), AfterWrite(doc, tg, version);
      PrintedUpdate(doc.content[0], tg.Path(), version);
      UpdateIsPlain(doc.content[0], tg.Path(), version);
      forall i | 0 <= i < |doc.content| ensures Printed(a).content[i] == b.content[i] {
        if i > 0 {
          PlainIsPrinted(doc.content[i]);
        }
      }
      assert Printed(a).content == b.content;
    }
  }

  lemma PrintedClear(doc: Tree)
    requires Plain(doc)
    ensures Printed(AfterClear(doc)) == AfterClear(doc) && Plain(AfterClear(doc))
  {
    if doc.content != [] {
      var root := doc.content[0];
      var i := Find(root, "runner");
      if i.Some? {
        ClearedFound(doc, i.value);
        assert Plain(root.content[i.value]) && Plain(WithoutToken(root.content[i.value]));
      } else {
        PutSame(doc, 0);
      }
    }
    PlainIsPrinted(AfterClear(doc));
  }

  // ---------- what a write-back does to the file ----------

  lemma WrittenTarget(doc: Tree, tg: Target, version: string)
    requires Plain(doc)
    ensures LookupIn(AfterWrite(doc, tg, version), tg.Path()) ==
      match LookupIn(doc, tg.Path()) case None => None case Some(e) => Some(Do(WriteVersion(version), e))
    ensures LookupIn(doc, tg.Path()).Some? ==> Plain(LookupIn(doc, tg.Path()).value)
  {
    if doc.content != [] {
      LookupUpdated(doc.content[0], tg.Path(), WriteVersion(version));
      if Lookup(doc.content[0], tg.Path()).Some? {
        LookupIsPlain(doc.content[0], tg.Path());
      }
    }
  }

  lemma PathBelow(doc: Tree, tg: Target, key: string)
    ensures LookupIn(doc, [tg.section, tg.name, key]) ==
      match LookupIn(doc, tg.Path())
      case None => None
      case Some(entry) => (match Find(entry, key) case None => None case Some(k) => Some(entry.content[k]))
  {
    if doc.content != [] {
      assert [tg.section, tg.name, key] == tg.Path() + [key];
      LookupBelow(doc.content[0], tg.Path(), [key]);
      if Lookup(doc.content[0], tg.Path()).Some? {
        var entry := Lookup(doc.content[0], tg.Path()).value;
        assert [key][1..] == [];
        assert Find(entry, key).Some? ==> Lookup(entry, [key]) == Lookup(entry.content[Find(entry, key).value], []);
      }
    }
  }

  /** A write-back changes the file exactly if the target is there and current_version does not read as the version. */
  lemma WantsIff(doc: Tree, tg: Target, version: string)
    ensures var was := LookupIn(doc, [tg.section, tg.name, "current_version"]);
      Wants(doc, tg, version) <==>
        LookupIn(doc, [tg.section, tg.name]).Some? && (was.None? || was.value.value != version)
  {
    WantsByEntry(doc, tg, version);
    PathBelow(doc, tg, "current_version");
    if LookupIn(doc, tg.Path()).Some? {
      ChangesIff(LookupIn(doc, tg.Path()).value, version);
    }
  }

  lemma ChangesIff(entry: Tree, version: string)
    ensures Versioned(entry, version) != entry <==>
      var k := Find(entry, CURRENT_VERSION); k.None? || entry.content[k.value].value != version
  {
    match Find(entry, CURRENT_VERSION)
    case Some(k) =>
      assert Versioned(entry, version).content[k].value == version;
      if entry.content[k].value == version {
        PutSame(entry, k);
      }
    case None => assert |Versioned(entry, version).content| == |entry.content| + 2;
  }

  /**
   * Afterwards current_version of the target reads the new version exactly if the entry is a mapping in which
   * current_version is missing or a scalar. Only the text of an old one changes, and a new one is a string.
   */
  lemma TargetShowsVersion(doc: Tree, tg: Target, version: string)
    requires Plain(doc) && LookupIn(doc, tg.Path()).Some?
    ensures var entry := LookupIn(doc, tg.Path()).value;
      var was := LookupIn(doc, [tg.section, tg.name, "current_version"]);
      var now := LookupIn(AfterWrite(doc, tg, version), [tg.section, tg.name, "current_version"]);
      var takes := entry.kind == Mapping && (was.None? || was.value.kind == Scalar);
      && (now.Some? && now.value.kind == Scalar && now.value.value == version <==> takes)
      && (takes && was.Some? ==> now == Some(was.value.(value := version)))
      && (takes && was.None? ==> now == Some(Tree(Scalar, "!!str", version, [])))
  {
    var entry := LookupIn(doc, tg.Path()).value;
    WrittenTarget(doc, tg, version);
    WrittenEntry(entry, version);
    PathBelow(doc, tg, "current_version");
    PathBelow(AfterWrite(doc, tg, version), tg, "current_version");
    if Storable(entry) {
      StorableIsWritten(entry, version);
      VersionedFind(entry, version);
    }
  }

  /** Everything that is neither on the path to the target's version nor below it reads as before. */
  lemma OthersStay(doc: Tree, tg: Target, version: string, path: seq<string>)
    requires Plain(doc)
    requires var at := [tg.section, tg.name, "current_version"]; !(at <= path) && !(path <= at)
    ensures LookupIn(AfterWrite(doc, tg, version), path) == LookupIn(doc, path)
  {
    assert tg.Path() + [CURRENT_VERSION] == [tg.section, tg.name, "current_version"];
    ApartIsNotPrefix(tg.Path() + [CURRENT_VERSION], path);
    ApartStays(doc, tg, version, path);
  }

  lemma ApartStays(doc: Tree, tg: Target, version: string, path: seq<string>)
    requires Plain(doc) && Apart(tg.Path() + [CURRENT_VERSION], path)
    ensures LookupIn(AfterWrite(doc, tg, version), path) == LookupIn(doc, path)
  {
    if doc.content != [] {
      var p, root := tg.Path(), doc.content[0];
      if Apart(p, path) {
        LookupApart(root, p, WriteVersion(version), path);
      } else {
        BelowEntry(tg, path);
        LookupBelow(root, p, path[2..]);
        LookupBelow(Update(root, p, WriteVersion(version)), p, path[2..]);
        LookupUpdated(root, p, WriteVersion(version));
        if Lookup(root, p).Some? {
          LookupIsPlain(root, p);
          WrittenEntryElsewhere(Lookup(root, p).value, version, path[2]);
        }
      }
    }
  }

  lemma BelowEntry(tg: Target, path: seq<string>)
    requires Apart(tg.Path() + [CURRENT_VERSION], path) && !Apart(tg.Path(), path)
    ensures |path| > 2 && path == tg.Path() + path[2..] && path[2] != CURRENT_VERSION
  {
    var p, q := tg.Path() + [CURRENT_VERSION], tg.Path();
    assert path[0] == tg.section && !Apart(q[1..], path[1..]) && Apart(p[1..], path[1..]);
    assert path[1..][0] == tg.name && Apart(p[1..][1..], path[1..][1..]);
    assert p[1..][1..] == [CURRENT_VERSION] && path[1..][1..] == path[2..];
    assert !Apart([CURRENT_VERSION][1..], path[2..][1..]);
    assert path[2..] != [] && path[2..][0] != CURRENT_VERSION;
    assert path == q + path[2..];
  }

  /** The keys on the way, and those of the entry, stay in their order; the entry may get one more at its end. */
  lemma KeysStayInOrder(doc: Tree, tg: Target, version: string)
    requires Plain(doc) && LookupIn(doc, tg.Path()).Some?
    ensures forall n :: 0 <= n <= 2 ==> ShowsSameKeys(doc, AfterWrite(doc, tg, version), tg.Path()[..n])
  {
    var c := WriteVersion(version);
    var root, p := doc.content[0], tg.Path();
    assert p[..2] == p;
    forall n | 0 <= n <= 2 ensures ShowsSameKeys(doc, AfterWrite(doc, tg, version), p[..n]) {
      LookupBelow(root, p[..n], p[n..]);
      assert p[..n] + p[n..] == p;
      if n < 2 {
        KeysOnTheWay(root, p, c, n);
      } else {
        WrittenTarget(doc, tg, version);
        WrittenEntry(Lookup(root, p).value, version);
      }
    }
  }

  ghost predicate ShowsSameKeys(a: Tree, b: Tree, path: seq<string>)
  {
    LookupIn(a, path).Some? && LookupIn(b, path).Some? && SameKeys(LookupIn(a, path).value, LookupIn(b, path).value)
  }

  /** A second write-back of the same version writes nothing exactly if the target is good. */
  lemma SettlesIffGood(doc: Tree, tg: Target, version: string)
    requires Plain(doc) && version != ""
    ensures !Wants(AfterWrite(doc, tg, version), tg, version) <==> Good(doc, tg)
  {
    WrittenTarget(doc, tg, version);
    WantsByEntry(AfterWrite(doc, tg, version), tg, version);
    match LookupIn(doc, tg.Path())
    case None =>
    case Some(entry) => WriteSettles(entry, version);
  }

  lemma ApartTargets(a: Target, b: Target)
    requires a != b
    ensures Apart(a.Path(), b.Path())
  {
    assert a.Path()[1..] == [a.name] && b.Path()[1..] == [b.name];
  }

  lemma EditsCommute(doc: Tree, p: seq<string>, c: Change, q: seq<string>, d: Change)
    requires Apart(p, q)
    ensures Edited(Edited(doc, p, c), q, d) == Edited(Edited(doc, q, d), p, c)
  {
    if doc.content != [] {
      var root := doc.content[0];
      ApartUpdatesCommute(root, p, c, q, d);
      PutTwice(doc, 0, Update(root, p, c), Update(root, q, d), Update(Update(root, p, c), q, d));
    }
  }

  /** Write-backs of different targets commute. */
  lemma WritesCommute(doc: Tree, a: Target, v: string, b: Target, w: string)
    requires a != b
    ensures AfterWrite(AfterWrite(doc, a, v), b, w) == AfterWrite(AfterWrite(doc, b, w), a, v)
  {
    ApartTargets(a, b);
    EditsCommute(doc, a.Path(), WriteVersion(v), b.Path(), WriteVersion(w));
  }

  /** And with the removal of the enrollment token. */
  lemma WriteAndClearCommute(doc: Tree, tg: Target, version: string)
    requires tg.section != "runner"
    ensures AfterClear(AfterWrite(doc, tg, version)) == AfterWrite(AfterClear(doc), tg, version)
  {
    EditsCommute(doc, tg.Path(), WriteVersion(version), ["runner"], DropToken);
  }

  /** Another target neither becomes good nor wanting. */
  lemma OtherTargets(doc: Tree, tg: Target, v: string, other: Target, w: string)
    requires Plain(doc) && other != tg
    ensures Wants(AfterWrite(doc, tg, v), other, w) <==> Wants(doc, other, w)
    ensures Good(AfterWrite(doc, tg, v), other) <==> Good(doc, other)
  {
    WantsByEntry(doc, other, w);
    WantsByEntry(AfterWrite(doc, tg, v), other, w);
    ApartTargets(tg, other);
    if doc.content != [] {
      LookupApart(doc.content[0], tg.Path(), WriteVersion(v), other.Path());
    }
  }

  lemma TargetStaysGood(doc: Tree, tg: Target, v: string)
    requires Plain(doc)
    ensures Good(AfterWrite(doc, tg, v), tg) <==> Good(doc, tg)
  {
    WrittenTarget(doc, tg, v);
    match LookupIn(doc, tg.Path())
    case None =>
    case Some(entry) => WrittenEntry(entry, v);
  }

  // ---------- the file ----------

  /** What reading and parsing the file gives. */
  datatype Stored = Unreadable | Unparsable | Parsed(doc: Tree)

  /** What the disk does during a write; `stat` is None if the time of the renamed file cannot be read. */
  datatype Disk = Disk(writes: bool, renames: bool, mtime: int, stat: bool)

  datatype WriteResult = Ok | ReadError | ParseError | EditError(error: Error) | DiskError

  ghost predicate ParsedOk(s: Stored)
  {
    s.Parsed? ==> Plain(s.doc) && s.doc.kind == Document
  }

  predicate IsOwn(lastWriteTime: int, t: int)
  {
    lastWriteTime != ZERO_TIME && t == lastWriteTime
  }

  /** What a write-back reports before it comes to the disk. */
  function EditResult(s: Stored, tg: Target, version: string): WriteResult
  {
    match s
    case Unreadable => ReadError
    case Unparsable => ParseError
    case Parsed(doc) =>
      match ResultOf(doc, tg.section, tg.name, version)
      case Failed(e) => EditError(e)
      case Done(_) => Ok
  }

  /** A write-back of `version` reports `r` and leaves `after` of `before`; `done` is whether the file was replaced. */
  ghost predicate IsOutcome(path: string, before: Stored, tg: Target, version: string, disk: Disk, after: Stored,
      r: WriteResult, done: bool)
  {
    var wanted := path != "" && before.Parsed? && Wants(before.doc, tg, version);
    && (done <==> wanted && disk.writes && disk.renames)
    && after == (if done then Parsed(AfterWrite(before.doc, tg, version)) else before)
    && r == if path == "" then Ok else if wanted && !done then DiskError else EditResult(before, tg, version)
  }

  /** Without an error the file holds the version, and with one it is as it was. */
  lemma OutcomeIs(path: string, before: Stored, tg: Target, version: string, disk: Disk, after: Stored, r: WriteResult,
      done: bool)
    requires ParsedOk(before) && IsOutcome(path, before, tg, version, disk, after, r, done)
    ensures path != "" && r == Ok ==>
      before.Parsed? && after.Parsed? && after.doc == AfterWrite(before.doc, tg, version)
    ensures path == "" || r != Ok ==> after == before && !done
    ensures r == DiskError ==> !disk.writes || !disk.renames
  {
    UnwantedIsUnchanged(before, tg, version);
  }

  class ConfigFile {
    const path: string
    var stored: Stored
    var mtime: int
    var lastWriteTime: int
    /** The watcher's variable. */
    var lastMod: int

    constructor (path: string, stored: Stored, mtime: int)
      ensures this.path == path && this.stored == stored && this.mtime == mtime
      ensures lastWriteTime == ZERO_TIME && lastMod == mtime
    {
      this.path, this.stored, this.mtime := path, stored, mtime;
      lastWriteTime, lastMod := ZERO_TIME, mtime;
    }

    method UpdateVersion(tg: Target, version: string, disk: Disk) returns (r: WriteResult, ghost done: bool)
      requires ParsedOk(stored)
      modifies this
      ensures ParsedOk(stored) && lastMod == old(lastMod)
      ensures IsOutcome(path, old(stored), tg, version, disk, stored, r, done)
      ensures mtime == (if done then disk.mtime else old(mtime))
      ensures lastWriteTime == if done && disk.stat then disk.mtime else old(lastWriteTime)
    {
      done := false;
      if path == "" {
        return Ok, done;
      }
      if stored.Unreadable? {
        return ReadError, done;
      }
      if stored.Unparsable? {
        return ParseError, done;
      }
      var doc, nodes := Unmarshal(stored.doc, 0);
      PrintedEdit(stored.doc, tg, version);
      var edit, nodes' := SetVersionInPlace(doc, tg.section, tg.name, version, nodes);
      if edit.Failed? {
        return EditError(edit.error), done;
      }
      if !edit.changed {
        return Ok, done;
      }
      var out := Marshal(doc, nodes');
      if !disk.writes || !disk.renames {
        return DiskError, done;
      }
      stored, mtime := Parsed(out), disk.mtime;
      RecordWriteTime(disk.stat);
      done := true;
      return Ok, done;
    }

    method RecordWriteTime(stat: bool)
      modifies `lastWriteTime
      ensures lastWriteTime == if stat then mtime else old(lastWriteTime)
    {
      if stat {
        lastWriteTime := mtime;
      }
    }

    method UpdateOperationVersion(name: string, version: string, disk: Disk) returns (r: WriteResult, ghost done: bool)
      requires ParsedOk(stored)
      modifies this
      ensures ParsedOk(stored) && lastMod == old(lastMod)
      ensures IsOutcome(path, old(stored), Target("operations", name), version, disk, stored, r, done)
      ensures path != "" && r == Ok ==> stored.Parsed? && old(stored).Parsed?
      ensures path != "" && r == Ok ==> stored.doc == AfterWrite(old(stored).doc, Target("operations", name), version)
      ensures path == "" || r != Ok ==> stored == old(stored)
      ensures mtime == (if done then disk.mtime else old(mtime))
      ensures lastWriteTime == if done && disk.stat then disk.mtime else old(lastWriteTime)
    {
      r, done := UpdateVersion(Target("operations", name), version, disk);
      OutcomeIs(path, old(stored), Target("operations", name), version, disk, stored, r, done);
    }

    method UpdateAppVersion(name: string, version: string, disk: Disk) returns (r: WriteResult, ghost done: bool)
      requires ParsedOk(stored)
      modifies this
      ensures ParsedOk(stored) && lastMod == old(lastMod)
      ensures IsOutcome(path, old(stored), Target("apps", name), version, disk, stored, r, done)
      ensures path != "" && r == Ok ==> stored.Parsed? && old(stored).Parsed?
      ensures path != "" && r == Ok ==> stored.doc == AfterWrite(old(stored).doc, Target("apps", name), version)
      ensures path == "" || r != Ok ==> stored == old(stored)
      ensures mtime == (if done then disk.mtime else old(mtime))
      ensures lastWriteTime == if done && disk.stat then disk.mtime else old(lastWriteTime)
    {
      r, done := UpdateVersion(Target("apps", name), version, disk);
      OutcomeIs(path, old(stored), Target("apps", name), version, disk, stored, r, done);
    }

    /**
     * Not counted as an own write, and not under the lock of the write-backs. The file itself is rewritten:
     * when that fails, anything may be left of it, which is what `left` says.
     */
    method ClearEnrollmentToken(disk: Disk, left: Stored) returns (r: WriteResult)
      requires ParsedOk(stored) && ParsedOk(left)
      modifies `stored, `mtime
      ensures ParsedOk(stored)
      ensures path != "" && old(stored).Unreadable? ==> r == ReadError
      ensures path != "" && old(stored).Unparsable? ==> r == ParseError
      ensures path != "" && old(stored).Parsed? ==>
        var doc := old(stored).doc;
        r == if doc.content == [] then EditError(EmptyDocument)
             else if doc.content[0].kind != Mapping then EditError(NoMapping)
             else if disk.writes then Ok
             else DiskError
      ensures r == Ok && path != "" ==> old(stored).Parsed? && stored == Parsed(AfterClear(old(stored).doc))
      ensures r == DiskError ==> stored == left
      ensures mtime == if path != "" && r in {Ok, DiskError} then disk.mtime else old(mtime)
      ensures path == "" || r !in {Ok, DiskError} ==> stored == old(stored)
      ensures path == "" ==> r == Ok
    {
      if path == "" {
        return Ok;
      }
      if stored.Unreadable? {
        return ReadError;
      }
      if stored.Unparsable? {
        return ParseError;
      }
      var doc, nodes := Unmarshal(stored.doc, 0);
      var edit := ClearTokenInPlace(doc, nodes);
      if edit.Failed? {
        return EditError(edit.error);
      }
      PrintedClear(stored.doc);
      var out := Marshal(doc, nodes);
      mtime := disk.mtime;
      if !disk.writes {
        stored := left;
        return DiskError;
      }
      stored := Parsed(out);
      return Ok;
    }

    method IsOwnWrite(t: int) returns (own: bool)
      ensures own <==> IsOwn(lastWriteTime, t)
    {
      return lastWriteTime != ZERO_TIME && t == lastWriteTime;
    }

    /** One tick of the watcher; `t` is the time of the file, zero if it cannot be read. */
    method Poll(t: int) returns (reload: bool)
      modifies `lastMod
      ensures reload <==> t != ZERO_TIME && t != old(lastMod) && !IsOwn(lastWriteTime, t)
      ensures lastMod == if t != ZERO_TIME then t else old(lastMod)
    {
      if t != ZERO_TIME && t != lastMod {
        lastMod := t;
        var own := IsOwnWrite(t);
        return !own;
      }
      return false;
    }
  }

  /** What is not wanted would change nothing. */
  lemma UnwantedIsUnchanged(s: Stored, tg: Target, version: string)
    requires ParsedOk(s)
    ensures s.Parsed? && !Wants(s.doc, tg, version) ==> AfterWrite(s.doc, tg, version) == s.doc
  {
    if s.Parsed? && !Wants(s.doc, tg, version) && s.doc.content != [] {
      PrintedEdit(s.doc, tg, version);
      var j := Find(s.doc.content[0], tg.section);
      if j.Some? && Find(s.doc.content[0].content[j.value], tg.name).Some? {
        var k := Find(s.doc.content[0].content[j.value], tg.name).value;
        EditedFound(s.doc, tg.section, tg.name, SetVersion(version), j.value, k);
        PutSame(s.doc.content[0].content[j.value], k);
        PutSame(s.doc.content[0], j.value);
        PutSame(s.doc, 0);
        PlainIsPrinted(s.doc);
      } else {
        EditedMissing(s.doc, tg.section, tg.name, WriteVersion(version));
      }
    }
  }
}
