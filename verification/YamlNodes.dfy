/** YAML documents as linked nodes that are changed in place; the ghost field `tree` is the tree below a node. */
module YamlNodes {
  import opened Strings
  import opened Yaml

  class Node {
    const kind: Kind
    const tag: string
    var value: string
    var content: seq<Node>
    ghost var tree: Tree
    ghost var depth: nat
    ghost var parent: Node?

    constructor (kind: Kind, tag: string, value: string, content: seq<Node>, ghost tree: Tree, ghost depth: nat,
        ghost parent: Node?)
      ensures this.kind == kind && this.tag == tag && this.value == value && this.content == content
      ensures this.tree == tree && this.depth == depth && this.parent == parent
    {
      this.kind, this.tag, this.value, this.content := kind, tag, value, content;
      this.tree, this.depth, this.parent := tree, depth, parent;
    }

    ghost predicate Describes(t: Tree)
      reads this
    {
      t.kind == kind && t.tag == tag && t.value == value && |t.content| == |content|
    }
  }

  /** A set of nodes closed under content, in which every node has at most one place. */
  ghost predicate Forest(nodes: set<Node>)
    reads nodes
  {
    && (forall n: Node, i: int {:trigger n.content[i]} :: n in nodes && 0 <= i < |n.content| ==>
          n.content[i] in nodes && n.content[i].depth == n.depth + 1 && n.content[i].parent == n)
    && (forall n: Node, i: int, j: int {:trigger n.content[i], n.content[j]} ::
          n in nodes && 0 <= i < j < |n.content| ==> n.content[i] != n.content[j])
  }

  /** Every node's tree is made of its own fields and the trees of its content; `x` may be out of date in its place. */
  ghost predicate UpToDate(nodes: set<Node>, x: Node?)
    reads nodes
  {
    && (forall n :: n in nodes ==> n.Describes(n.tree))
    && (forall n: Node, i: int {:trigger n.content[i]} ::
          n in nodes && 0 <= i < |n.content| && n.content[i] in nodes ==> Follows(n, i, x))
  }

  ghost predicate Follows(n: Node, i: nat, x: Node?)
    requires i < |n.content|
    reads n, n.content[i]
  {
    n.Describes(n.tree) && (n.content[i] != x ==> n.tree.content[i] == n.content[i].tree)
  }

  ghost predicate Valid(nodes: set<Node>)
    reads nodes
  {
    Forest(nodes) && UpToDate(nodes, null)
  }

  /** The content of `parent` at `i` has changed: its tree follows, and now the parent is out of date in its place. */
  ghost method Refresh(parent: Node, i: nat, nodes: set<Node>)
    requires parent in nodes && i < |parent.content| && Forest(nodes) && UpToDate(nodes, parent.content[i])
    modifies parent`tree
    ensures Forest(nodes) && UpToDate(nodes, parent)
    ensures parent.tree == Put(old(parent.tree), i, parent.content[i].tree)
  {
    parent.tree := Put(parent.tree, i, parent.content[i].tree);
  }

  lemma KeysAreScalarValues(node: Node, nodes: set<Node>)
    requires Valid(nodes) && node in nodes
    ensures node.Describes(node.tree)
    ensures forall i :: 0 <= i < |node.content| ==>
      && node.content[i] in nodes && node.tree.content[i] == node.content[i].tree
      && node.content[i].Describes(node.tree.content[i])
  {
    forall i | 0 <= i < |node.content|
      ensures node.content[i] in nodes && node.tree.content[i] == node.content[i].tree
      ensures node.content[i].Describes(node.tree.content[i])
    {
      assert node.content[i] in nodes;
    }
  }

  /** The value node of the first pair with this key, and where it is. */
  method MappingGet(node: Node?, key: string, ghost nodes: set<Node>) returns (r: Node?, ghost at: nat)
    requires Valid(nodes) && (node != null ==> node in nodes)
    ensures r == null <==> node == null || Find(node.tree, key).None?
    ensures r != null ==> Find(node.tree, key) == Some(at) && at < |node.content| && r == node.content[at]
  {
    at := 0;
    if node == null || node.kind != Mapping {
      return null, 0;
    }
    KeysAreScalarValues(node, nodes);
    var i := 0;
    while i + 1 < |node.content|
      invariant i % 2 == 0 && 0 <= i <= |node.content|
      invariant ValueIndex(node.tree.content, key, 0) == ValueIndex(node.tree.content, key, i)
    {
      if node.content[i].value == key {
        at := i + 1;
        return node.content[i + 1], at;
      }
      i := i + 2;
    }
    return null, 0;
  }

  datatype Error = EmptyDocument | NoSection | NoEntry | NoMapping

  datatype Result = Done(changed: bool) | Failed(error: Error)

  /** What setting a version reports. */
  function ResultOf(doc: Tree, section: string, name: string, version: string): Result
  {
    if doc.content == [] then Failed(EmptyDocument)
    else if Find(doc.content[0], section).None? then Failed(NoSection)
    else
      match Lookup(doc.content[0], [section, name])
      case None => Failed(NoEntry)
      case Some(entry) => Done(Versioned(entry, version) != entry)
  }

  /** A change below the root of a document. */
  function Edited(doc: Tree, path: seq<string>, c: Change): Tree
  {
    if doc.content == [] then doc else Put(doc, 0, Update(doc.content[0], path, c))
  }

  /** Nodes that are not below depth `d`, other than `x`, are as they were. */
  twostate predicate OthersSame(nodes: set<Node>, d: nat, x: Node)
    reads nodes
  {
    && (forall n :: n in nodes ==> n.depth == old(n.depth))
    && (forall n :: n in nodes && n.depth <= d && n != x ==> n.content == old(n.content) && n.tree == old(n.tree))
  }

  method SetValue(cvNode: Node, version: string, ghost entry: Node, ghost k: nat, ghost nodes: set<Node>)
    requires Valid(nodes) && entry in nodes && k < |entry.content| && entry.content[k] == cvNode
    modifies nodes
    ensures Forest(nodes) && UpToDate(nodes, entry) && OthersSame(nodes, entry.depth, entry)
    ensures entry.tree == Put(old(entry.tree), k, old(entry.tree).content[k].(value := version))
  {
    KeysAreScalarValues(entry, nodes);
    cvNode.value := version;
    cvNode.tree := cvNode.tree.(value := version);
    Refresh(entry, k, nodes);
  }

  /** A leaf that has no place yet becomes the last content of an entry. */
  method Append(entry: Node, leaf: Node, ghost nodes: set<Node>) returns (ghost nodes': set<Node>)
    requires Forest(nodes) && UpToDate(nodes, entry) && entry in nodes
    requires leaf !in nodes && leaf.content == [] && leaf.depth == entry.depth + 1 && leaf.parent == entry
    requires leaf.Describes(leaf.tree)
    modifies entry
    ensures nodes' == nodes + {leaf} && Forest(nodes') && UpToDate(nodes', entry)
    ensures entry.depth == old(entry.depth)
    ensures entry.tree == old(entry.tree).(content := old(entry.tree).content + [leaf.tree])
  {
    nodes' := nodes + {leaf};
    entry.content := entry.content + [leaf];
    entry.tree := entry.tree.(content := entry.tree.content + [leaf.tree]);
  }

  method AppendText(entry: Node, text: string, ghost nodes: set<Node>) returns (ghost nodes': set<Node>)
    requires Forest(nodes) && UpToDate(nodes, entry) && entry in nodes
    modifies entry
    ensures nodes <= nodes' && fresh(nodes' - nodes) && Forest(nodes') && UpToDate(nodes', entry)
    ensures entry.depth == old(entry.depth)
    ensures entry.tree == old(entry.tree).(content := old(entry.tree).content + [Str(text)])
  {
    var leaf := new Node(Scalar, STR, text, [], Str(text), entry.depth + 1, entry);
    nodes' := Append(entry, leaf, nodes);
  }

  method AppendPair(entry: Node, key: string, value: string, ghost nodes: set<Node>) returns (ghost nodes': set<Node>)
    requires Valid(nodes) && entry in nodes
    modifies entry
    ensures nodes <= nodes' && fresh(nodes' - nodes) && Forest(nodes') && UpToDate(nodes', entry)
    ensures entry.depth == old(entry.depth)
    ensures entry.tree == old(entry.tree).(content := old(entry.tree).content + [Str(key), Str(value)])
  {
    nodes' := AppendText(entry, key, nodes);
    nodes' := AppendText(entry, value, nodes');
    assert entry.tree.content == old(entry.tree).content + [Str(key), Str(value)];
  }

  /** Find or create the version of an entry. */
  method SetEntryVersion(entry: Node, version: string, ghost nodes: set<Node>)
    returns (changed: bool, ghost nodes': set<Node>)
    requires Valid(nodes) && entry in nodes
    modifies nodes
    ensures nodes <= nodes' && fresh(nodes' - nodes) && Forest(nodes') && UpToDate(nodes', entry)
    ensures OthersSame(nodes, entry.depth, entry)
    ensures entry.tree == Versioned(old(entry.tree), version)
    ensures changed <==> Versioned(old(entry.tree), version) != old(entry.tree)
  {
    nodes' := nodes;
    var cvNode, k := MappingGet(entry, CURRENT_VERSION, nodes);
    if cvNode != null {
      KeysAreScalarValues(entry, nodes);
      if cvNode.value == version {
        assert Versioned(entry.tree, version).content == entry.tree.content;
        return false, nodes';
      }
      assert Versioned(entry.tree, version).content[k].value != entry.tree.content[k].value;
      SetValue(cvNode, version, entry, k, nodes);
    } else {
      assert entry in nodes;
      nodes' := AppendPair(entry, CURRENT_VERSION, version, nodes);
    }
    changed := true;
  }

  /** The version of an entry has been set: the trees of the nodes above it follow. */
  ghost method RefreshAbove(doc: Node, root: Node, section: Node, j: nat, entry: Node, k: nat, nodes: set<Node>)
    requires Forest(nodes) && UpToDate(nodes, entry) && doc in nodes && doc.depth == 0
    requires |doc.content| > 0 && doc.content[0] == root && root in nodes
    requires j < |root.content| && root.content[j] == section && section in nodes
    requires k < |section.content| && section.content[k] == entry
    modifies nodes
    ensures Valid(nodes)
    ensures section.tree == Put(old(section.tree), k, old(entry.tree))
    ensures root.tree == Put(old(root.tree), j, section.tree)
    ensures doc.tree == Put(old(doc.tree), 0, root.tree)
    ensures forall n :: n in nodes ==> n.content == old(n.content) && n.value == old(n.value)
  {
    Refresh(section, k, nodes);
    Refresh(root, j, nodes);
    Refresh(doc, 0, nodes);
    assert forall n: Node, i: int {:trigger n.content[i]} :: n in nodes && 0 <= i < |n.content| ==> n.content[i] != doc;
  }

  method SetFoundVersion(doc: Node, root: Node, opsNode: Node, ghost j: nat, opNode: Node, ghost k: nat,
      version: string,
      ghost nodes: set<Node>)
    returns (changed: bool, ghost nodes': set<Node>)
    requires Valid(nodes) && doc in nodes && doc.depth == 0
    requires |doc.content| > 0 && doc.content[0] == root && root in nodes
    requires j < |root.content| && root.content[j] == opsNode && opsNode in nodes
    requires k < |opsNode.content| && opsNode.content[k] == opNode && opNode in nodes
    modifies nodes
    ensures doc in nodes' && Valid(nodes')
    ensures changed <==> Versioned(old(opNode.tree), version) != old(opNode.tree)
    ensures doc.tree
         == Put(old(doc.tree), 0, Put(old(root.tree), j,
                Put(old(opsNode.tree), k, Versioned(old(opNode.tree), version))))
  {
    changed, nodes' := SetEntryVersion(opNode, version, nodes);
    RefreshAbove(doc, root, opsNode, j, opNode, k, nodes');
  }

  lemma EditedFound(doc: Tree, section: string, name: string, c: Change, j: nat, k: nat)
    requires doc.content != [] && Find(doc.content[0], section) == Some(j)
    requires Find(doc.content[0].content[j], name) == Some(k)
    ensures var root := doc.content[0];
      var entry := root.content[j].content[k];
      && Lookup(root, [section, name]) == Some(entry)
      && Edited(doc, [section, name], c) == Put(doc, 0, Put(root, j, Put(root.content[j], k, Do(c, entry))))
  {
    var ops := doc.content[0].content[j];
    assert [section, name][1..] == [name] && [name][1..] == [];
    assert Lookup(ops, [name]) == Lookup(ops.content[k], []);
    assert Update(ops, [name], c) == Put(ops, k, Update(ops.content[k], [], c));
  }

  lemma EditedMissing(doc: Tree, section: string, name: string, c: Change)
    requires doc.content != []
    requires var ops := Find(doc.content[0], section); ops.Some? ==> Find(doc.content[0].content[ops.value], name).None?
    ensures Edited(doc, [section, name], c) == doc
    ensures Lookup(doc.content[0], [section, name]).None?
  {
    var root := doc.content[0];
    assert [section, name][1..] == [name] && [name][1..] == [];
    PutSame(doc, 0);
    if Find(root, section).Some? {
      var ops := root.content[Find(root, section).value];
      PutSame(root, Find(root, section).value);
      assert Lookup(ops, [name]).None? && Update(ops, [name], c) == ops;
    }
  }

  /** The version of one entry in a parsed document, in memory. */
  method SetVersionInPlace(doc: Node, section: string, name: string, version: string, ghost nodes: set<Node>)
    returns (r: Result, ghost nodes': set<Node>)
    requires Valid(nodes) && doc in nodes && doc.depth == 0
    modifies nodes
    ensures doc in nodes' && Valid(nodes')
    ensures r == ResultOf(old(doc.tree), section, name, version)
    ensures doc.tree == Edited(old(doc.tree), [section, name], SetVersion(version))
  {
    nodes' := nodes;
    KeysAreScalarValues(doc, nodes);
    if |doc.content| == 0 {
      return Failed(EmptyDocument), nodes';
    }
    var root := doc.content[0];
    var opsNode, j := MappingGet(root, section, nodes);
    if opsNode == null {
      EditedMissing(doc.tree, section, name, SetVersion(version));
      return Failed(NoSection), nodes';
    }
    KeysAreScalarValues(root, nodes);
    var opNode, k := MappingGet(opsNode, name, nodes);
    assert [section, name][1..] == [name];
    if opNode == null {
      EditedMissing(doc.tree, section, name, SetVersion(version));
      return Failed(NoEntry), nodes';
    }
    KeysAreScalarValues(opsNode, nodes);
    EditedFound(doc.tree, section, name, SetVersion(version), j, k);
    var changed;
    changed, nodes' := SetFoundVersion(doc, root, opsNode, j, opNode, k, version, nodes);
    r := Done(changed);
  }

  /** The first pair with the enrollment token, cut out of its mapping. */
  method DropTokenInPlace(runner: Node, ghost nodes: set<Node>)
    requires Valid(nodes) && runner in nodes && runner.kind == Mapping
    modifies runner
    ensures Forest(nodes) && UpToDate(nodes, runner) && runner.depth == old(runner.depth)
    ensures runner.tree == WithoutToken(old(runner.tree))
  {
    KeysAreScalarValues(runner, nodes);
    ghost var before := runner.tree;
    var j := 0;
    while j < |runner.content| - 1
      invariant j % 2 == 0 && 0 <= j <= |runner.content|
      invariant ValueIndex(before.content, ENROLLMENT_TOKEN, 0) == ValueIndex(before.content, ENROLLMENT_TOKEN, j)
    {
      if runner.content[j].value == ENROLLMENT_TOKEN {
        CutPair(runner, j, nodes);
        return;
      }
      j := j + 2;
    }
  }

  method CutPair(node: Node, j: nat, ghost nodes: set<Node>)
    requires Valid(nodes) && node in nodes && j + 1 < |node.content|
    modifies node
    ensures Forest(nodes) && UpToDate(nodes, node) && node.depth == old(node.depth)
    ensures node.tree == old(node.tree).(content := old(node.tree).content[..j] + old(node.tree).content[j + 2..])
  {
    assert node.Describes(node.tree);
    node.content := node.content[..j] + node.content[j + 2..];
    node.tree := node.tree.(content := node.tree.content[..j] + node.tree.content[j + 2..]);
  }

  method ClearRunner(doc: Node, topMap: Node, ghost i: nat, runnerMap: Node, ghost nodes: set<Node>)
    requires Valid(nodes) && doc in nodes && doc.depth == 0
    requires |doc.content| > 0 && doc.content[0] == topMap && topMap in nodes
    requires i < |topMap.content| && topMap.content[i] == runnerMap && runnerMap in nodes && runnerMap.kind == Mapping
    modifies nodes
    ensures Valid(nodes)
    ensures doc.tree == Put(old(doc.tree), 0, Put(old(topMap.tree), i, WithoutToken(old(runnerMap.tree))))
  {
    DropTokenInPlace(runnerMap, nodes);
    Refresh(topMap, i, nodes);
    Refresh(doc, 0, nodes);
    assert forall n: Node, i: int {:trigger n.content[i]} :: n in nodes && 0 <= i < |n.content| ==> n.content[i] != doc;
  }

  lemma ClearedFound(doc: Tree, i: nat)
    requires doc.content != [] && Find(doc.content[0], "runner") == Some(i)
    ensures var root := doc.content[0];
      Edited(doc, ["runner"], DropToken) == Put(doc, 0, Put(root, i, WithoutToken(root.content[i])))
  {
    var runner := doc.content[0].content[i];
    assert ["runner"][1..] == [] && Update(runner, [], DropToken) == WithoutToken(runner);
  }

  /** The enrollment token of a parsed document, in memory. The file is written back in any case. */
  method ClearTokenInPlace(doc: Node, ghost nodes: set<Node>) returns (r: Result)
    requires Valid(nodes) && doc in nodes && doc.depth == 0
    modifies nodes
    ensures Valid(nodes) && doc in nodes
    ensures r == (if doc.kind != Document || old(doc.tree).content == [] then Failed(EmptyDocument)
                  else if old(doc.tree).content[0].kind != Mapping then Failed(NoMapping)
                  else Done(true))
    ensures doc.tree == if r.Done? then Edited(old(doc.tree), ["runner"], DropToken) else old(doc.tree)
  {
    KeysAreScalarValues(doc, nodes);
    if doc.kind != Document || |doc.content| == 0 {
      return Failed(EmptyDocument);
    }
    var topMap := doc.content[0];
    if topMap.kind != Mapping {
      return Failed(NoMapping);
    }
    KeysAreScalarValues(topMap, nodes);
    ghost var before := doc.tree;
    ghost var root := topMap.tree;
    var i := 0;
    while i < |topMap.content| - 1
      invariant i % 2 == 0 && 0 <= i <= |topMap.content|
      invariant ValueIndex(root.content, "runner", 0) == ValueIndex(root.content, "runner", i)
    {
      if topMap.content[i].value == "runner" {
        var runnerMap := topMap.content[i + 1];
        ClearedFound(before, i + 1);
        if runnerMap.kind == Mapping {
          ClearRunner(doc, topMap, i + 1, runnerMap, nodes);
        } else {
          PutSame(root, i + 1);
          PutSame(before, 0);
        }
        return Done(true);
      }
      i := i + 2;
    }
    PutSame(before, 0);
    return Done(true);
  }

  // ---------- parsing and printing ----------

  /** Fresh nodes for a tree. */
  method Unmarshal(t: Tree, ghost depth: nat) returns (node: Node, ghost nodes: set<Node>)
    ensures fresh(nodes) && node in nodes && Valid(nodes)
    ensures node.tree == t && node.depth == depth && node.parent == null
    decreases t
  {
    var content: seq<Node> := [];
    nodes := {};
    var i := 0;
    while i < |t.content|
      invariant 0 <= i <= |t.content| && |content| == i && fresh(nodes) && Valid(nodes)
      invariant forall k :: 0 <= k < i ==> IsChild(content[k], nodes, depth, t.content[k])
      invariant forall k, l :: 0 <= k < l < i ==> content[k] != content[l]
    {
      var child, more := Unmarshal(t.content[i], depth + 1);
      content := content + [child];
      nodes := nodes + more;
      i := i + 1;
    }
    node, nodes := Plant(t, content, depth, nodes);
  }

  /** A node that has no place yet, one level below `depth`. */
  ghost predicate IsChild(n: Node, nodes: set<Node>, depth: nat, t: Tree)
    reads n
  {
    n in nodes && n.depth == depth + 1 && n.tree == t && n.parent == null
  }

  /** A parent for nodes that have no place yet. */
  method Plant(t: Tree, content: seq<Node>, ghost depth: nat, ghost below: set<Node>)
    returns (node: Node, ghost nodes: set<Node>)
    requires Valid(below) && |content| == |t.content|
    requires forall k :: 0 <= k < |content| ==> IsChild(content[k], below, depth, t.content[k])
    requires forall k, l :: 0 <= k < l < |content| ==> content[k] != content[l]
    modifies below
    ensures fresh(node) && nodes == below + {node} && Valid(nodes)
    ensures node.tree == t && node.depth == depth && node.parent == null
  {
    node := new Node(t.kind, t.tag, t.value, content, t, depth, null);
    nodes := below + {node};
    forall c | c in content {
      c.parent := node;
    }
  }

  /** The tree of a node, as printing walks it. */
  method Marshal(node: Node, ghost nodes: set<Node>) returns (t: Tree)
    requires Valid(nodes) && node in nodes
    ensures t == Printed(node.tree)
    decreases node.tree
  {
    if node.kind == Scalar {
      return Tree(Scalar, node.tag, node.value, []);
    }
    KeysAreScalarValues(node, nodes);
    var content: seq<Tree> := [];
    var i := 0;
    while i < |node.content|
      invariant 0 <= i <= |node.content| && |content| == i
      invariant forall k :: 0 <= k < i ==> content[k] == Printed(node.tree.content[k])
    {
      var c := Marshal(node.content[i], nodes);
      content := content + [c];
      i := i + 1;
    }
    t := Tree(node.kind, node.tag, "", content);
    assert t.content == Printed(node.tree).content;
  }
}
