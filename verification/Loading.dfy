/** Whether the configuration can be loaded after a write-back: a version node that is changed keeps its tag. */
module Loading {
  import opened Strings
  import opened Yaml
  import opened YamlNodes
  import opened Writer

  /** The tags that the decoder of gopkg.in/yaml.v3 checks a value against. */
  const CHECKED_TAGS: set<string> := {"!!bool", "!!int", "!!float", "!!null", "!!timestamp"}

  /** `resolve` gives the tag that plain text has by itself. An integer will do for a float. */
  predicate Accepts(tag: string, value: string, resolve: string -> string)
  {
    tag !in CHECKED_TAGS || resolve(value) == tag || (tag == "!!float" && resolve(value) == "!!int")
  }

  /** Every scalar can be decoded as its tag says. */
  predicate Loadable(t: Tree, resolve: string -> string)
  {
    && (t.kind == Scalar ==> Accepts(t.tag, t.value, resolve))
    && forall i :: 0 <= i < |t.content| ==> Loadable(t.content[i], resolve)
  }

  /** The entry takes the version without a clash: it has none yet, or its tag accepts the new one. */
  predicate Fits(entry: Tree, version: string, resolve: string -> string)
  {
    Storable(entry) ==>
      match Find(entry, CURRENT_VERSION)
      case None => true
      case Some(k) => Accepts(entry.content[k].tag, version, resolve)
  }

  lemma LoadablePut(t: Tree, i: nat, child: Tree, resolve: string -> string)
    requires i < |t.content| && Loadable(t, resolve)
    ensures Loadable(Put(t, i, child), resolve) <==> Loadable(child, resolve)
  {
    assert Put(t, i, child).content[i] == child;
  }

  lemma LoadableAppend(t: Tree, a: string, b: string, resolve: string -> string)
    requires Loadable(t, resolve)
    ensures Loadable(t.(content := t.content + [Str(a), Str(b)]), resolve)
  {
    assert Loadable(Str(a), resolve) && Loadable(Str(b), resolve);
  }

  lemma LoadableEntry(entry: Tree, version: string, resolve: string -> string)
    requires Plain(entry) && Loadable(entry, resolve)
    ensures Loadable(Do(WriteVersion(version), entry), resolve) <==> Fits(entry, version, resolve)
  {
    if Storable(entry) {
      StorableIsWritten(entry, version);
      match Find(entry, CURRENT_VERSION)
      case Some(k) =>
        assert Plain(entry.content[k]);
        LoadablePut(entry, k, entry.content[k].(value := version), resolve);
      case None => LoadableAppend(entry, CURRENT_VERSION, version, resolve);
    } else if entry.kind in {Mapping, Scalar} {
      OthersAreNotWritten(entry, version);
    } else {
      SequenceGrows(entry, version);
      LoadableAppend(entry, CURRENT_VERSION, version, resolve);
    }
  }

  lemma {:induction false} LoadableUpdate(t: Tree, path: seq<string>, version: string, resolve: string -> string)
    requires Plain(t) && Loadable(t, resolve)
    ensures Loadable(Update(t, path, WriteVersion(version)), resolve) <==>
      Lookup(t, path).None? || Fits(Lookup(t, path).value, version, resolve)
  {
    if path == [] {
      LoadableEntry(t, version, resolve);
    } else if Find(t, path[0]).Some? {
      var i := Find(t, path[0]).value;
      LoadableUpdate(t.content[i], path[1..], version, resolve);
      LoadablePut(t, i, Update(t.content[i], path[1..], WriteVersion(version)), resolve);
    }
  }

  /**
   * A file that can be loaded can still be loaded after a write-back exactly if the entry had no version
   * to change, or the tag of that version accepts the new one.
   */
  lemma WriteStaysLoadableIff(doc: Tree, tg: Target, version: string, resolve: string -> string)
    requires Plain(doc) && Loadable(doc, resolve)
    ensures var was := LookupIn(doc, [tg.section, tg.name, "current_version"]);
      Loadable(AfterWrite(doc, tg, version), resolve) <==>
        was.None? || was.value.kind != Scalar
        || was.value.tag !in {"!!bool", "!!int", "!!float", "!!null", "!!timestamp"}
        || resolve(version) == was.value.tag || (was.value.tag == "!!float" && resolve(version) == "!!int")
  {
    PathBelow(doc, tg, "current_version");
    if doc.content != [] {
      LoadableUpdate(doc.content[0], tg.Path(), version, resolve);
      LoadablePut(doc, 0, Update(doc.content[0], tg.Path(), WriteVersion(version)), resolve);
    }
  }

  /** An unquoted 1.5 that becomes 1.5.1 cannot be loaded, as the one is a float and the other is not. */
  lemma FloatVersionBreaks(resolve: string -> string) returns (doc: Tree, tg: Target)
    requires resolve("1.5") == "!!float" && resolve("1.5.1") == STR
    ensures Plain(doc) && Loadable(doc, resolve) && Good(doc, tg) && Wants(doc, tg, "1.5.1")
    ensures !Loadable(AfterWrite(doc, tg, "1.5.1"), resolve)
  {
    tg := Target("apps", "web");
    var version := Tree(Scalar, "!!float", "1.5", []);
    var entry := Pair(CURRENT_VERSION, version);
    var apps := Pair("web", entry);
    var root := Pair("apps", apps);
    doc := Tree(Document, "", "", [root]);
    PairFacts(CURRENT_VERSION, version, resolve);
    PairFacts("web", entry, resolve);
    PairFacts("apps", apps, resolve);
    EditedFound(doc, "apps", "web", WriteVersion("1.5.1"), 1, 1);
    WantsByEntry(doc, tg, "1.5.1");
    assert Versioned(entry, "1.5.1").content[1].value == "1.5.1" && "1.5.1"[3] == '.';
    PathBelow(doc, tg, "current_version");
    WriteStaysLoadableIff(doc, tg, "1.5.1", resolve);
  }

  function Pair(key: string, value: Tree): Tree
  {
    Tree(Mapping, "!!map", "", [Str(key), value])
  }

  lemma PairFacts(key: string, value: Tree, resolve: string -> string)
    ensures Find(Pair(key, value), key) == Some(1)
    ensures Plain(value) ==> Plain(Pair(key, value))
    ensures Loadable(value, resolve) ==> Loadable(Pair(key, value), resolve)
  {
  }
}
