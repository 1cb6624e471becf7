/** The code viewer's logic (`components/fragment-code.tsx`): the folder/file
    tree built from slash-separated file names, its folders-first ordering,
    the map of expanded folders, the lookup of the selected file and the
    displayed language.

    The tree's nodes live in one sequence and refer to their children by
    position: node 0 is the root, and pushing onto a node's `children` array
    becomes appending a position to that node's `children` field. The builder
    keeps two ghost sequences beside the nodes: the parent of every node and
    the path of segments leading to it. */
module FragmentCode {
  import opened Wrappers
  import opened Js
  import opened Schema

  datatype Kind = Folder | File

  datatype TreeNode = TreeNode(key: string, name: string, kind: Kind, children: seq<nat>)

  const RootKey := "/"

  /** The non-empty `/`-separated segments of a file name. */
  function Parts(name: string): seq<string> {
    Segments(name, '/')
  }

  /** The key of the folder for the first `n` segments. */
  function FolderKey(parts: seq<string>, n: nat): string
    requires 1 <= n <= |parts|
  {
    Join(parts[..n], '/') + "/"
  }

  // ---------------------------------------------------------------------------
  // The shape the builder maintains

  /** Each child position refers to a later node whose recorded parent is the
      node listing it. */
  ghost predicate ChildLinks(nodes: seq<TreeNode>, parent: seq<int>) {
    |parent| == |nodes| &&
    forall j, k :: 0 <= j < |nodes| && 0 <= k < |nodes[j].children| ==>
      0 < nodes[j].children[k] < |nodes| && parent[nodes[j].children[k]] == j
  }

  /** Each non-root node is listed by its parent, which comes earlier. */
  ghost predicate ParentLinks(nodes: seq<TreeNode>, parent: seq<int>) {
    |parent| == |nodes| &&
    forall c :: 0 < c < |nodes| ==> 0 <= parent[c] < c && c in nodes[parent[c]].children
  }

  /** A node's path extends its parent's by its name and is the segment list
      of its own key; a folder's key is its joined path plus `/`. */
  ghost predicate PathLinks(nodes: seq<TreeNode>, parent: seq<int>, paths: seq<seq<string>>) {
    && |parent| == |nodes| && |paths| == |nodes|
    && (forall c :: 0 < c < |nodes| ==> 0 <= parent[c] < c)
    && (forall c {:trigger parent[c]} :: 0 < c < |nodes| ==> paths[c] == paths[parent[c]] + [nodes[c].name])
    && (forall c :: 0 <= c < |nodes| ==> Parts(nodes[c].key) == paths[c])
    && (forall c :: 0 < c < |nodes| && nodes[c].kind == Folder ==> nodes[c].key == Join(paths[c], '/') + "/")
  }

  /** No child shares its key with a folder created after it under the same
      parent. */
  ghost predicate DistinctFolders(nodes: seq<TreeNode>, parent: seq<int>) {
    |parent| == |nodes| &&
    forall c1, c2 {:trigger parent[c1], parent[c2]} ::
      0 < c1 < c2 < |nodes| && parent[c1] == parent[c2] && nodes[c2].kind == Folder ==>
      nodes[c1].key != nodes[c2].key
  }

  /** A node below the root that has children carries the key of the folder
      for its path, whatever its kind: the builder only descends into a child
      found or created under that key. */
  ghost predicate KeyedParents(nodes: seq<TreeNode>, paths: seq<seq<string>>) {
    |paths| == |nodes| &&
    forall j :: 0 < j < |nodes| && nodes[j].children != [] ==> nodes[j].key == Join(paths[j], '/') + "/"
  }

  /** The shape the builder maintains: the root at position 0 with the empty
      path, and the five families of links above. */
  ghost predicate Shaped(nodes: seq<TreeNode>, parent: seq<int>, paths: seq<seq<string>>) {
    && |nodes| >= 1 && |parent| == |nodes| && |paths| == |nodes|
    && nodes[0].key == RootKey && nodes[0].name == RootKey && nodes[0].kind == Folder
    && paths[0] == []
    && ChildLinks(nodes, parent)
    && ParentLinks(nodes, parent)
    && PathLinks(nodes, parent, paths)
    && DistinctFolders(nodes, parent)
    && KeyedParents(nodes, paths)
  }

  /** `cursor.children.push(node)`, with the node stored at the next position. */
  function Attach(nodes: seq<TreeNode>, cursor: nat, node: TreeNode): (r: seq<TreeNode>)
    requires cursor < |nodes|
    ensures |r| == |nodes| + 1 && r[|nodes|] == node
    ensures forall j :: 0 <= j < |nodes| ==>
      r[j].key == nodes[j].key && r[j].name == nodes[j].name && r[j].kind == nodes[j].kind
    ensures r[cursor].children == nodes[cursor].children + [|nodes|]
    ensures forall j :: 0 <= j < |nodes| && j != cursor ==> r[j].children == nodes[j].children
  {
    nodes[cursor := nodes[cursor].(children := nodes[cursor].children + [|nodes|])] + [node]
  }

  lemma AttachChildLinks(nodes: seq<TreeNode>, parent: seq<int>, cursor: nat, node: TreeNode)
    requires ChildLinks(nodes, parent) && cursor < |nodes| && node.children == []
    ensures ChildLinks(Attach(nodes, cursor, node), parent + [cursor])
  {
    var n := |nodes|;
    var r := Attach(nodes, cursor, node);
    var parent' := parent + [cursor];
    forall j, k | 0 <= j < |r| && 0 <= k < |r[j].children|
      ensures 0 < r[j].children[k] < |r| && parent'[r[j].children[k]] == j
    {
      if j < n && k < |nodes[j].children| {
        assert r[j].children[k] == nodes[j].children[k];
      }
    }
  }

  lemma AttachParentLinks(nodes: seq<TreeNode>, parent: seq<int>, cursor: nat, node: TreeNode)
    requires ParentLinks(nodes, parent) && cursor < |nodes|
    ensures ParentLinks(Attach(nodes, cursor, node), parent + [cursor])
  {
    var n := |nodes|;
    var r := Attach(nodes, cursor, node);
    var parent' := parent + [cursor];
    forall c | 0 < c < |r|
      ensures 0 <= parent'[c] < c && c in r[parent'[c]].children
    {
      if c < n {
        assert c in nodes[parent[c]].children;
      }
    }
  }

  lemma AttachPathLinks(nodes: seq<TreeNode>, parent: seq<int>, paths: seq<seq<string>>,
                        cursor: nat, node: TreeNode, path: seq<string>)
    requires PathLinks(nodes, parent, paths) && cursor < |nodes|
    requires path == paths[cursor] + [node.name]
    requires Parts(node.key) == path
    requires node.kind == Folder ==> node.key == Join(path, '/') + "/"
    ensures PathLinks(Attach(nodes, cursor, node), parent + [cursor], paths + [path])
  {
    var n := |nodes|;
    var r := Attach(nodes, cursor, node);
    var parent', paths' := parent + [cursor], paths + [path];
    forall c | 0 < c < |r|
      ensures 0 <= parent'[c] < c && paths'[c] == paths'[parent'[c]] + [r[c].name]
    {
      if c < n {
        assert parent'[c] == parent[c] && paths'[c] == paths[c] && r[c].name == nodes[c].name;
        assert paths'[parent[c]] == paths[parent[c]];
      }
    }
    forall c | 0 <= c < |r|
      ensures Parts(r[c].key) == paths'[c]
    {
      if c < n {
        assert r[c].key == nodes[c].key && paths'[c] == paths[c];
      }
    }
    forall c | 0 < c < |r| && r[c].kind == Folder
      ensures r[c].key == Join(paths'[c], '/') + "/"
    {
      if c < n {
        assert r[c].key == nodes[c].key && r[c].kind == nodes[c].kind && paths'[c] == paths[c];
      }
    }
  }

  lemma AttachDistinctFolders(nodes: seq<TreeNode>, parent: seq<int>, cursor: nat, node: TreeNode)
    requires ChildLinks(nodes, parent) && DistinctFolders(nodes, parent) && ParentLinks(nodes, parent) && cursor < |nodes|
    requires node.kind == Folder ==>
      forall k :: 0 <= k < |nodes[cursor].children| ==> nodes[nodes[cursor].children[k]].key != node.key
    ensures DistinctFolders(Attach(nodes, cursor, node), parent + [cursor])
  {
    var n := |nodes|;
    var r := Attach(nodes, cursor, node);
    var parent' := parent + [cursor];
    forall c1, c2 | 0 < c1 < c2 < |r| && parent'[c1] == parent'[c2] && r[c2].kind == Folder
      ensures r[c1].key != r[c2].key
    {
      if c2 == n {
        assert c1 in nodes[cursor].children;
      }
    }
  }

  lemma AttachKeyedParents(nodes: seq<TreeNode>, paths: seq<seq<string>>, cursor: nat, node: TreeNode, path: seq<string>)
    requires KeyedParents(nodes, paths) && cursor < |nodes| && node.children == []
    requires cursor == 0 || nodes[cursor].key == Join(paths[cursor], '/') + "/"
    ensures KeyedParents(Attach(nodes, cursor, node), paths + [path])
  {
    var n := |nodes|;
    var r := Attach(nodes, cursor, node);
    var paths' := paths + [path];
    forall j | 0 < j < |r| && r[j].children != []
      ensures r[j].key == Join(paths'[j], '/') + "/"
    {
      if j < n {
        assert r[j].key == nodes[j].key && paths'[j] == paths[j];
        if j != cursor {
          assert r[j].children == nodes[j].children;
        }
      }
    }
  }

  lemma AttachShaped(nodes: seq<TreeNode>, parent: seq<int>, paths: seq<seq<string>>,
                     cursor: nat, node: TreeNode, path: seq<string>)
    requires Shaped(nodes, parent, paths)
    requires cursor < |nodes|
    requires node.children == []
    requires path == paths[cursor] + [node.name]
    requires Parts(node.key) == path
    requires node.kind == Folder ==> node.key == Join(path, '/') + "/"
    requires node.kind == Folder ==>
      forall k :: 0 <= k < |nodes[cursor].children| ==> nodes[nodes[cursor].children[k]].key != node.key
    requires cursor == 0 || nodes[cursor].key == Join(paths[cursor], '/') + "/"
    ensures Shaped(Attach(nodes, cursor, node), parent + [cursor], paths + [path])
  {
    AttachChildLinks(nodes, parent, cursor, node);
    AttachParentLinks(nodes, parent, cursor, node);
    AttachPathLinks(nodes, parent, paths, cursor, node, path);
    AttachDistinctFolders(nodes, parent, cursor, node);
    AttachKeyedParents(nodes, paths, cursor, node, path);
  }

  /** The position in `cs` of the first child whose key is `key`
      (`cursor.children?.find((c) => c.key === nextKey)`), of whatever kind. */
  function FindChild(nodes: seq<TreeNode>, cs: seq<nat>, key: string): (r: Option<nat>)
    requires forall k :: 0 <= k < |cs| ==> cs[k] < |nodes|
    ensures r.Some? ==> r.value < |cs| && nodes[cs[r.value]].key == key
    ensures r.Some? ==> forall k :: 0 <= k < r.value ==> nodes[cs[k]].key != key
    ensures r.None? ==> forall k :: 0 <= k < |cs| ==> nodes[cs[k]].key != key
    decreases |cs|
  {
    if cs == [] then None
    else if nodes[cs[0]].key == key then Some(0)
    else
      var rest := FindChild(nodes, cs[1..], key);
      if rest.Some? then Some(rest.value + 1) else None
  }

  // ---------------------------------------------------------------------------
  // The file leaves

  datatype Leaf = Leaf(key: string, name: string)

  /** The file nodes, in the order they were created. */
  function FileLeaves(nodes: seq<TreeNode>): seq<Leaf>
    decreases |nodes|
  {
    if nodes == [] then []
    else
      var last := nodes[|nodes| - 1];
      FileLeaves(nodes[..|nodes| - 1]) + (if last.kind == File then [Leaf(last.key, last.name)] else [])
  }

  function Last(ps: seq<string>): string
    requires ps != []
  {
    ps[|ps| - 1]
  }

  /** What one file contributes: a leaf named by its last segment, keyed by its
      full name, or nothing when the name has no non-empty segment. */
  function LeafOf(f: FileEntry): seq<Leaf> {
    var parts := Parts(f.name);
    if parts == [] then [] else [Leaf(f.name, Last(parts))]
  }

  function ExpectedLeaves(files: seq<FileEntry>): (r: seq<Leaf>)
    ensures |r| <= |files|
    decreases |files|
  {
    if files == [] then [] else ExpectedLeaves(files[..|files| - 1]) + LeafOf(files[|files| - 1])
  }

  /** Changing only the children of nodes leaves the file leaves as they were. */
  lemma {:induction false} FileLeavesIgnoreChildren(a: seq<TreeNode>, b: seq<TreeNode>)
    requires |a| == |b|
    requires forall j :: 0 <= j < |a| ==> a[j].key == b[j].key && a[j].name == b[j].name && a[j].kind == b[j].kind
    ensures FileLeaves(a) == FileLeaves(b)
    decreases |a|
  {
    if a != [] {
      FileLeavesIgnoreChildren(a[..|a| - 1], b[..|b| - 1]);
    }
  }

  lemma FileLeavesAttach(nodes: seq<TreeNode>, cursor: nat, node: TreeNode)
    requires cursor < |nodes|
    ensures FileLeaves(Attach(nodes, cursor, node)) ==
      FileLeaves(nodes) + (if node.kind == File then [Leaf(node.key, node.name)] else [])
  {
    var r := Attach(nodes, cursor, node);
    assert r[..|r| - 1] == nodes[cursor := nodes[cursor].(children := nodes[cursor].children + [|nodes|])];
    FileLeavesIgnoreChildren(r[..|r| - 1], nodes);
  }

  // ---------------------------------------------------------------------------
  // Building the tree

  /** Segment lists as `Parts` produces them. */
  predicate WellFormedParts(parts: seq<string>) {
    forall k :: 0 <= k < |parts| ==> parts[k] != "" && '/' !in parts[k]
  }

  /** The cursor may receive children: it is the root or carries the key of
      the folder for its path. */
  ghost predicate ParentKeyed(nodes: seq<TreeNode>, paths: seq<seq<string>>, cursor: nat)
    requires cursor < |nodes| && |paths| == |nodes|
  {
    cursor == 0 || nodes[cursor].key == Join(paths[cursor], '/') + "/"
  }

  /** One step of the walk down a file's folders: move the cursor to the
      first child keyed by the first `idx + 1` segments joined plus `/`
      (of whatever kind), creating that folder under the cursor, and nothing
      else, when the cursor has no such child. */
  method Descend(nodes: seq<TreeNode>, ghost parent: seq<int>, ghost paths: seq<seq<string>>,
                 parts: seq<string>, idx: nat, cursor: nat)
    returns (nodes': seq<TreeNode>, ghost parent': seq<int>, ghost paths': seq<seq<string>>, cursor': nat)
    requires Shaped(nodes, parent, paths)
    requires idx < |parts| && WellFormedParts(parts)
    requires cursor < |nodes| && paths[cursor] == parts[..idx] && ParentKeyed(nodes, paths, cursor)
    ensures Shaped(nodes', parent', paths')
    ensures 0 < cursor' < |nodes'| && paths'[cursor'] == parts[..idx + 1]
    ensures nodes'[cursor'].key == FolderKey(parts, idx + 1)
    ensures FileLeaves(nodes') == FileLeaves(nodes)
    ensures var found := FindChild(nodes, nodes[cursor].children, FolderKey(parts, idx + 1));
      && (found.Some? ==>
            nodes' == nodes && parent' == parent && paths' == paths
            && cursor' == nodes[cursor].children[found.value])
      && (found.None? ==>
            nodes' == Attach(nodes, cursor, TreeNode(FolderKey(parts, idx + 1), parts[idx], Folder, []))
            && parent' == parent + [cursor] && paths' == paths + [parts[..idx + 1]] && cursor' == |nodes|)
  {
    var part := parts[idx];
    var nextKey := FolderKey(parts, idx + 1);
    FolderKeyParts(parts, idx);
    ChildrenOfShapedAreValid(nodes, parent, paths, cursor);
    var found := FindChild(nodes, nodes[cursor].children, nextKey);
    if found.None? {
      var folder := TreeNode(nextKey, part, Folder, []);
      AttachShaped(nodes, parent, paths, cursor, folder, parts[..idx + 1]);
      FileLeavesAttach(nodes, cursor, folder);
      nodes', parent', paths' := Attach(nodes, cursor, folder), parent + [cursor], paths + [parts[..idx + 1]];
      cursor' := |nodes|;
    } else {
      nodes', parent', paths' := nodes, parent, paths;
      cursor' := nodes[cursor].children[found.value];
      ChildWithKeyHasItsPath(nodes, parent, paths, cursor, found.value);
    }
  }

  /** Every child position of a node refers to a later node. */
  lemma ChildrenOfShapedAreValid(nodes: seq<TreeNode>, parent: seq<int>, paths: seq<seq<string>>, cursor: nat)
    requires Shaped(nodes, parent, paths) && cursor < |nodes|
    ensures ValidChildren(nodes, nodes[cursor].children)
    ensures forall k :: 0 <= k < |nodes[cursor].children| ==> 0 < nodes[cursor].children[k]
  {
    assert ChildLinks(nodes, parent);
  }

  /** The folder key for the first `idx + 1` segments splits back into them. */
  lemma FolderKeyParts(parts: seq<string>, idx: nat)
    requires idx < |parts| && WellFormedParts(parts)
    ensures Parts(FolderKey(parts, idx + 1)) == parts[..idx + 1]
    ensures parts[..idx + 1] == parts[..idx] + [parts[idx]]
  {
    var ps := parts[..idx + 1];
    assert forall k :: 0 <= k < |ps| ==> ps[k] == parts[k];
    SegmentsOfJoinSep(ps, '/');
  }

  /** A child of the cursor sits at the path its key spells. */
  lemma ChildWithKeyHasItsPath(nodes: seq<TreeNode>, parent: seq<int>, paths: seq<seq<string>>, cursor: nat, k: nat)
    requires Shaped(nodes, parent, paths)
    requires cursor < |nodes| && k < |nodes[cursor].children|
    ensures 0 < nodes[cursor].children[k] < |nodes|
    ensures paths[nodes[cursor].children[k]] == Parts(nodes[nodes[cursor].children[k]].key)
  {
    assert ChildLinks(nodes, parent) && PathLinks(nodes, parent, paths);
  }

  /** The node for a file. */
  function FileLeaf(f: FileEntry): TreeNode
    requires Parts(f.name) != []
  {
    TreeNode(f.name, Last(Parts(f.name)), File, [])
  }

  /** Pushing a file's leaf under the folder of all but its last segment. */
  lemma AttachLeaf(nodes: seq<TreeNode>, parent: seq<int>, paths: seq<seq<string>>, cursor: nat, f: FileEntry)
    requires Shaped(nodes, parent, paths)
    requires Parts(f.name) != []
    requires cursor < |nodes| && paths[cursor] == Parts(f.name)[..|Parts(f.name)| - 1]
    requires ParentKeyed(nodes, paths, cursor)
    ensures Shaped(Attach(nodes, cursor, FileLeaf(f)), parent + [cursor], paths + [Parts(f.name)])
  {
    var parts := Parts(f.name);
    var leaf := FileLeaf(f);
    assert parts == paths[cursor] + [leaf.name] by {
      assert parts == parts[..|parts| - 1] + [Last(parts)];
    }
    AttachShaped(nodes, parent, paths, cursor, leaf, parts);
  }

  lemma AttachLeafLeaves(nodes: seq<TreeNode>, cursor: nat, f: FileEntry)
    requires Parts(f.name) != [] && cursor < |nodes|
    ensures FileLeaves(Attach(nodes, cursor, FileLeaf(f))) == FileLeaves(nodes) + LeafOf(f)
  {
    FileLeavesAttach(nodes, cursor, FileLeaf(f));
  }

  /** `b` grows `a`: the first `|a|` nodes keep their key, name, kind and
      path, and only their children may change. */
  ghost predicate Extends(a: seq<TreeNode>, pa: seq<seq<string>>, b: seq<TreeNode>, pb: seq<seq<string>>) {
    && |a| <= |b| && |pa| == |a| && |pb| == |b|
    && (forall j :: 0 <= j < |a| ==> b[j].key == a[j].key && b[j].name == a[j].name && b[j].kind == a[j].kind)
    && (forall j :: 0 <= j < |a| ==> pb[j] == pa[j])
  }

  /** The nodes from position `n` on lie along `parts`: each has a prefix of
      it as its path, and a proper prefix when it is a folder. */
  ghost predicate AddedAlong(n: nat, nodes: seq<TreeNode>, paths: seq<seq<string>>, parts: seq<string>)
    requires |paths| == |nodes|
  {
    forall j :: n <= j < |nodes| ==> paths[j] <= parts && (nodes[j].kind == Folder ==> paths[j] < parts)
  }

  lemma ExtendsAttach(nodes: seq<TreeNode>, paths: seq<seq<string>>, cursor: nat, node: TreeNode, path: seq<string>)
    requires cursor < |nodes| && |paths| == |nodes|
    ensures Extends(nodes, paths, Attach(nodes, cursor, node), paths + [path])
  {
  }

  lemma ExtendsTransitive(a: seq<TreeNode>, pa: seq<seq<string>>, b: seq<TreeNode>, pb: seq<seq<string>>,
                          c: seq<TreeNode>, pc: seq<seq<string>>)
    requires Extends(a, pa, b, pb) && Extends(b, pb, c, pc)
    ensures Extends(a, pa, c, pc)
  {
  }

  /** One folder step as seen from the nodes before the walk began. */
  lemma DescendGrows(n: nat, nodes: seq<TreeNode>, paths: seq<seq<string>>, nodes': seq<TreeNode>, paths': seq<seq<string>>,
                     parts: seq<string>, idx: nat, cursor: nat)
    requires |paths| == |nodes| && n <= |nodes| && cursor < |nodes| && idx + 1 < |parts|
    requires AddedAlong(n, nodes, paths, parts) && forall j :: n <= j < |nodes| ==> nodes[j].kind == Folder
    requires (nodes' == nodes && paths' == paths) ||
      (nodes' == Attach(nodes, cursor, TreeNode(FolderKey(parts, idx + 1), parts[idx], Folder, [])) && paths' == paths + [parts[..idx + 1]])
    ensures Extends(nodes, paths, nodes', paths') && |nodes'| <= |nodes| + 1
    ensures AddedAlong(n, nodes', paths', parts) && forall j :: n <= j < |nodes'| ==> nodes'[j].kind == Folder
  {
    if nodes' != nodes || paths' != paths {
      ExtendsAttach(nodes, paths, cursor, TreeNode(FolderKey(parts, idx + 1), parts[idx], Folder, []), parts[..idx + 1]);
      assert parts[..idx + 1] < parts;
    }
  }

  /** Inserting one file: walk the cursor down from the root through the
      folder for each proper prefix of its segments, then push the file leaf
      under the cursor. The source's loop over the segments treats the last
      one as the file; here that last step follows the loop over the others.
      The nodes added are the folders the walk did not find, then the leaf,
      all along the file's path, and the leaf hangs under the root or under
      the node keyed by the folder of all but its last segment. */
  method InsertFile(nodes: seq<TreeNode>, ghost parent: seq<int>, ghost paths: seq<seq<string>>, f: FileEntry)
    returns (nodes': seq<TreeNode>, ghost parent': seq<int>, ghost paths': seq<seq<string>>)
    requires Shaped(nodes, parent, paths)
    ensures Shaped(nodes', parent', paths')
    ensures FileLeaves(nodes') == FileLeaves(nodes) + LeafOf(f)
    ensures Extends(nodes, paths, nodes', paths') && |nodes'| <= |nodes| + |Parts(f.name)|
    ensures AddedAlong(|nodes|, nodes', paths', Parts(f.name))
    ensures Parts(f.name) == [] ==> nodes' == nodes
    ensures Parts(f.name) != [] ==>
      && |nodes'| > |nodes| && nodes'[|nodes'| - 1] == FileLeaf(f)
      && (forall j :: |nodes| <= j < |nodes'| - 1 ==> nodes'[j].kind == Folder)
      && (|Parts(f.name)| == 1 ==> parent'[|nodes'| - 1] == 0)
      && (|Parts(f.name)| > 1 ==> nodes'[parent'[|nodes'| - 1]].key == FolderKey(Parts(f.name), |Parts(f.name)| - 1))
  {
    nodes', parent', paths' := nodes, parent, paths;
    var parts := Parts(f.name);
    SegmentsShape(f.name, '/');
    if parts != [] {
      var cursor;
      nodes', parent', paths', cursor := Walk(nodes, parent, paths, parts);
      LeafUnderWalk(nodes', parent', paths', cursor, f);
      LeafAlongWalk(nodes', paths', nodes, paths, cursor, f);
      nodes', parent', paths' := Attach(nodes', cursor, FileLeaf(f)), parent' + [cursor], paths' + [parts];
    }
  }

  /** The walk from the root through the folder of every proper prefix of
      `parts`, ending at the node the leaf goes under. */
  method Walk(nodes: seq<TreeNode>, ghost parent: seq<int>, ghost paths: seq<seq<string>>, parts: seq<string>)
    returns (nodes': seq<TreeNode>, ghost parent': seq<int>, ghost paths': seq<seq<string>>, cursor: nat)
    requires Shaped(nodes, parent, paths) && parts != [] && WellFormedParts(parts)
    ensures Shaped(nodes', parent', paths')
    ensures FileLeaves(nodes') == FileLeaves(nodes)
    ensures WalkedTo(nodes, paths, nodes', paths', parts, |parts| - 1, cursor)
  {
    nodes', parent', paths' := nodes, parent, paths;
    cursor := 0;
    for idx := 0 to |parts| - 1
      invariant Shaped(nodes', parent', paths')
      invariant FileLeaves(nodes') == FileLeaves(nodes)
      invariant WalkedTo(nodes, paths, nodes', paths', parts, idx, cursor)
    {
      nodes', parent', paths', cursor := Advance(nodes, paths, nodes', parent', paths', parts, idx, cursor);
    }
  }

  /** One iteration of the walk: a folder step, seen from the nodes before the walk began. */
  method Advance(ghost nodes0: seq<TreeNode>, ghost paths0: seq<seq<string>>,
                 nodes: seq<TreeNode>, ghost parent: seq<int>, ghost paths: seq<seq<string>>,
                 parts: seq<string>, idx: nat, cursor: nat)
    returns (nodes': seq<TreeNode>, ghost parent': seq<int>, ghost paths': seq<seq<string>>, cursor': nat)
    requires Shaped(nodes, parent, paths) && WellFormedParts(parts) && idx + 1 < |parts|
    requires WalkedTo(nodes0, paths0, nodes, paths, parts, idx, cursor)
    ensures Shaped(nodes', parent', paths')
    ensures FileLeaves(nodes') == FileLeaves(nodes)
    ensures WalkedTo(nodes0, paths0, nodes', paths', parts, idx + 1, cursor')
  {
    WalkedIsParentKeyed(nodes0, paths0, nodes, paths, parts, idx, cursor);
    nodes', parent', paths', cursor' := Descend(nodes, parent, paths, parts, idx, cursor);
    WalkStep(nodes0, paths0, nodes, paths, cursor, nodes', paths', parts, idx, cursor');
  }

  /** Where the walk stands after `idx` folder steps: the cursor is at the
      node for the first `idx` segments (the root at the start, otherwise
      one keyed by their folder), and the nodes added so far, at most one a
      step, are folders along `parts`. */
  ghost predicate WalkedTo(nodes: seq<TreeNode>, paths: seq<seq<string>>, nodes': seq<TreeNode>, paths': seq<seq<string>>,
                           parts: seq<string>, idx: nat, cursor: nat)
  {
    && idx <= |parts| && cursor < |nodes'| && |paths'| == |nodes'|
    && paths'[cursor] == parts[..idx]
    && (idx == 0 ==> cursor == 0)
    && (idx > 0 ==> nodes'[cursor].key == FolderKey(parts, idx))
    && Extends(nodes, paths, nodes', paths') && |nodes'| <= |nodes| + idx
    && AddedAlong(|nodes|, nodes', paths', parts) && forall j :: |nodes| <= j < |nodes'| ==> nodes'[j].kind == Folder
  }

  lemma WalkedIsParentKeyed(nodes: seq<TreeNode>, paths: seq<seq<string>>, nodes': seq<TreeNode>, paths': seq<seq<string>>,
                            parts: seq<string>, idx: nat, cursor: nat)
    requires WalkedTo(nodes, paths, nodes', paths', parts, idx, cursor)
    ensures cursor < |nodes'| && paths'[cursor] == parts[..idx] && ParentKeyed(nodes', paths', cursor)
  {
  }

  /** One folder step keeps the walk's bookkeeping. */
  lemma WalkStep(nodes: seq<TreeNode>, paths: seq<seq<string>>, before: seq<TreeNode>, pathsBefore: seq<seq<string>>, from: nat,
                 nodes': seq<TreeNode>, paths': seq<seq<string>>, parts: seq<string>, idx: nat, cursor: nat)
    requires idx + 1 < |parts| && WalkedTo(nodes, paths, before, pathsBefore, parts, idx, from)
    requires (nodes' == before && paths' == pathsBefore) ||
      (nodes' == Attach(before, from, TreeNode(FolderKey(parts, idx + 1), parts[idx], Folder, [])) && paths' == pathsBefore + [parts[..idx + 1]])
    requires 0 < cursor < |nodes'| && |paths'| == |nodes'| && paths'[cursor] == parts[..idx + 1]
    requires nodes'[cursor].key == FolderKey(parts, idx + 1)
    ensures WalkedTo(nodes, paths, nodes', paths', parts, idx + 1, cursor)
  {
    DescendGrows(|nodes|, before, pathsBefore, nodes', paths', parts, idx, from);
    ExtendsTransitive(nodes, paths, before, pathsBefore, nodes', paths');
  }

  /** Pushing the leaf at the end of the walk. */
  lemma LeafUnderWalk(nodes': seq<TreeNode>, parent': seq<int>, paths': seq<seq<string>>, cursor: nat, f: FileEntry)
    requires Parts(f.name) != [] && WellFormedParts(Parts(f.name))
    requires Shaped(nodes', parent', paths') && cursor < |nodes'|
    requires paths'[cursor] == Parts(f.name)[..|Parts(f.name)| - 1]
    requires |Parts(f.name)| == 1 ==> cursor == 0
    requires |Parts(f.name)| > 1 ==> nodes'[cursor].key == FolderKey(Parts(f.name), |Parts(f.name)| - 1)
    ensures Shaped(Attach(nodes', cursor, FileLeaf(f)), parent' + [cursor], paths' + [Parts(f.name)])
    ensures FileLeaves(Attach(nodes', cursor, FileLeaf(f))) == FileLeaves(nodes') + LeafOf(f)
  {
    assert ParentKeyed(nodes', paths', cursor);
    AttachLeaf(nodes', parent', paths', cursor, f);
    AttachLeafLeaves(nodes', cursor, f);
  }

  /** The leaf, too, lies along the file's path, after the folders the walk added. */
  lemma LeafAlongWalk(nodes': seq<TreeNode>, paths': seq<seq<string>>,
                      nodes: seq<TreeNode>, paths: seq<seq<string>>, cursor: nat, f: FileEntry)
    requires Parts(f.name) != [] && cursor < |nodes'| && |paths'| == |nodes'|
    requires Extends(nodes, paths, nodes', paths') && AddedAlong(|nodes|, nodes', paths', Parts(f.name))
    requires forall j :: |nodes| <= j < |nodes'| ==> nodes'[j].kind == Folder
    ensures var r, pr := Attach(nodes', cursor, FileLeaf(f)), paths' + [Parts(f.name)];
      && Extends(nodes, paths, r, pr) && AddedAlong(|nodes|, r, pr, Parts(f.name))
      && (forall j :: |nodes| <= j < |r| - 1 ==> r[j].kind == Folder)
  {
    var parts := Parts(f.name);
    var r, pr := Attach(nodes', cursor, FileLeaf(f)), paths' + [parts];
    ExtendsAttach(nodes', paths', cursor, FileLeaf(f), parts);
    ExtendsTransitive(nodes, paths, nodes', paths', r, pr);
    assert forall j :: |nodes| <= j < |nodes'| ==> r[j].kind == nodes'[j].kind && pr[j] == paths'[j];
  }

  const Root := TreeNode(RootKey, RootKey, Folder, [])

  /** The tree starts as the root alone. */
  lemma RootShaped()
    ensures Shaped([Root], [-1], [[]])
  {
    assert Parts(RootKey) == [];
  }

  lemma ExpectedLeavesStep(files: seq<FileEntry>, i: nat)
    requires i < |files|
    ensures ExpectedLeaves(files[..i + 1]) == ExpectedLeaves(files[..i]) + LeafOf(files[i])
  {
    assert files[..i + 1][..i] == files[..i];
  }

  /** Every node below the root lies along some file's path: its path is a
      prefix of that file's segments, a proper prefix when it is a folder. */
  ghost predicate Covered(nodes: seq<TreeNode>, paths: seq<seq<string>>, files: seq<FileEntry>) {
    |paths| == |nodes| &&
    forall c :: 0 < c < |nodes| ==> OnSomePath(paths[c], nodes[c].kind, files)
  }

  /** `path` leads to one of the files: a prefix of its segments, a proper one for a folder. */
  ghost predicate OnSomePath(path: seq<string>, kind: Kind, files: seq<FileEntry>) {
    exists i :: 0 <= i < |files| && OnPathOf(path, kind, files[i])
  }

  ghost predicate OnPathOf(path: seq<string>, kind: Kind, f: FileEntry) {
    path <= Parts(f.name) && (kind == Folder ==> path < Parts(f.name))
  }

  /** Inserting the next file keeps every node covered. */
  lemma CoveredStep(nodes: seq<TreeNode>, paths: seq<seq<string>>, nodes': seq<TreeNode>, paths': seq<seq<string>>,
                    files: seq<FileEntry>, i: nat)
    requires i < |files| && Covered(nodes, paths, files[..i])
    requires Extends(nodes, paths, nodes', paths') && AddedAlong(|nodes|, nodes', paths', Parts(files[i].name))
    ensures Covered(nodes', paths', files[..i + 1])
  {
    var fs := files[..i + 1];
    forall c | 0 < c < |nodes'|
      ensures OnSomePath(paths'[c], nodes'[c].kind, fs)
    {
      if c < |nodes| {
        var j :| 0 <= j < i && OnPathOf(paths[c], nodes[c].kind, files[..i][j]);
        assert fs[j] == files[..i][j];
      } else {
        assert fs[i] == files[i] && OnPathOf(paths'[c], nodes'[c].kind, fs[i]);
      }
    }
  }

  /** The insertion loop of the tree builder, over every file in order. */
  method InsertFiles(files: seq<FileEntry>) returns (nodes: seq<TreeNode>, ghost parent: seq<int>, ghost paths: seq<seq<string>>)
    ensures Shaped(nodes, parent, paths)
    ensures FileLeaves(nodes) == ExpectedLeaves(files)
    ensures Covered(nodes, paths, files)
  {
    nodes, parent, paths := [Root], [-1], [[]];
    RootShaped();
    for i := 0 to |files|
      invariant Shaped(nodes, parent, paths)
      invariant FileLeaves(nodes) == ExpectedLeaves(files[..i])
      invariant Covered(nodes, paths, files[..i])
    {
      ghost var before, pathsBefore := nodes, paths;
      nodes, parent, paths := InsertFile(nodes, parent, paths, files[i]);
      ExpectedLeavesStep(files, i);
      CoveredStep(before, pathsBefore, nodes, paths, files, i);
    }
    assert files[..|files|] == files;
  }

  // ---------------------------------------------------------------------------
  // Ordering the children

  /** Code-point lexicographic order, standing for `localeCompare`. */
  predicate LexLess(a: string, b: string)
    decreases |a|
  {
    if a == [] then b != []
    else b != [] && (a[0] < b[0] || (a[0] == b[0] && LexLess(a[1..], b[1..])))
  }

  lemma {:induction false} LexLessTransitive(a: string, b: string, c: string)
    requires LexLess(a, b) && LexLess(b, c)
    ensures LexLess(a, c)
    decreases |a|
  {
    if a != [] && a[0] == b[0] && b[0] == c[0] {
      LexLessTransitive(a[1..], b[1..], c[1..]);
    }
  }

  lemma {:induction false} LexLessIrreflexive(a: string)
    ensures !LexLess(a, a)
    decreases |a|
  {
    if a != [] {
      LexLessIrreflexive(a[1..]);
    }
  }

  /** The comparator of `sort`: folders before files, same kind by name. */
  predicate Before(x: TreeNode, y: TreeNode) {
    if x.kind == y.kind then LexLess(x.name, y.name) else x.kind == Folder
  }

  lemma BeforeTransitive(x: TreeNode, y: TreeNode, z: TreeNode)
    requires Before(x, y) && Before(y, z)
    ensures Before(x, z)
  {
    if x.kind == y.kind && y.kind == z.kind {
      LexLessTransitive(x.name, y.name, z.name);
    }
  }

  lemma BeforeAsymmetric(x: TreeNode, y: TreeNode)
    requires Before(x, y)
    ensures !Before(y, x)
  {
    if x.kind == y.kind && LexLess(y.name, x.name) {
      LexLessTransitive(x.name, y.name, x.name);
      LexLessIrreflexive(x.name);
    }
  }

  predicate ValidChildren(nodes: seq<TreeNode>, cs: seq<nat>) {
    forall k :: 0 <= k < |cs| ==> cs[k] < |nodes|
  }

  /** No child is placed after one that sorts strictly after it. */
  predicate ChildrenSorted(nodes: seq<TreeNode>, cs: seq<nat>)
    requires ValidChildren(nodes, cs)
  {
    forall i, j :: 0 <= i < j < |cs| ==> !Before(nodes[cs[j]], nodes[cs[i]])
  }

  /** A child that sorts no later than everything in a sorted list can go in
      front of it. */
  lemma ConsSorted(nodes: seq<TreeNode>, x: nat, cs: seq<nat>)
    requires x < |nodes| && ValidChildren(nodes, cs) && ChildrenSorted(nodes, cs)
    requires forall y :: y in multiset(cs) ==> !Before(nodes[y], nodes[x])
    ensures ValidChildren(nodes, [x] + cs) && ChildrenSorted(nodes, [x] + cs)
  {
    var r := [x] + cs;
    forall i, j | 0 <= i < j < |r| ensures !Before(nodes[r[j]], nodes[r[i]]) {
      if i == 0 {
        assert r[j] in multiset(cs);
      } else {
        assert r[i] == cs[i - 1] && r[j] == cs[j - 1];
      }
    }
  }

  /** A child sorting strictly before the head of a sorted list sorts no
      later than any of its elements. */
  lemma FrontIsLeast(nodes: seq<TreeNode>, c: nat, cs: seq<nat>)
    requires c < |nodes| && ValidChildren(nodes, cs) && ChildrenSorted(nodes, cs)
    requires cs != [] && Before(nodes[c], nodes[cs[0]])
    ensures forall y :: y in multiset(cs) ==> !Before(nodes[y], nodes[c])
  {
    forall y | y in multiset(cs) ensures !Before(nodes[y], nodes[c]) {
      var j :| 0 <= j < |cs| && cs[j] == y;
      if Before(nodes[y], nodes[c]) {
        if j == 0 {
          BeforeAsymmetric(nodes[c], nodes[cs[0]]);
        } else {
          BeforeTransitive(nodes[y], nodes[c], nodes[cs[0]]);
        }
      }
    }
  }

  /** The head of a sorted list still sorts no later than anything in the
      tail with a child added that does not sort before it. */
  lemma HeadStaysLeast(nodes: seq<TreeNode>, c: nat, cs: seq<nat>, rest: seq<nat>)
    requires c < |nodes| && ValidChildren(nodes, cs) && ChildrenSorted(nodes, cs)
    requires cs != [] && !Before(nodes[c], nodes[cs[0]])
    requires multiset(rest) == multiset(cs[1..]) + multiset{c}
    ensures forall y :: y in multiset(rest) ==> !Before(nodes[y], nodes[cs[0]])
  {
    forall y | y in multiset(rest) ensures !Before(nodes[y], nodes[cs[0]]) {
      if y != c {
        assert y in multiset(cs[1..]);
        var j :| 0 <= j < |cs[1..]| && cs[1..][j] == y;
        assert cs[j + 1] == y;
      }
    }
  }

  /** Puts `c` into the sorted `cs` before the first child that sorts strictly
      after it, so that equal children keep their order. */
  function InsertChild(nodes: seq<TreeNode>, c: nat, cs: seq<nat>): (r: seq<nat>)
    requires c < |nodes| && ValidChildren(nodes, cs)
    requires ChildrenSorted(nodes, cs)
    ensures ValidChildren(nodes, r) && ChildrenSorted(nodes, r)
    ensures multiset(r) == multiset(cs) + multiset{c}
    decreases |cs|
  {
    if cs == [] then [c]
    else if Before(nodes[c], nodes[cs[0]]) then
      FrontIsLeast(nodes, c, cs);
      ConsSorted(nodes, c, cs);
      [c] + cs
    else
      var rest := InsertChild(nodes, c, cs[1..]);
      assert cs == [cs[0]] + cs[1..];
      HeadStaysLeast(nodes, c, cs, rest);
      ConsSorted(nodes, cs[0], rest);
      [cs[0]] + rest
  }

  /** `children.sort(comparator)`: insertion of each child in turn. */
  function SortChildren(nodes: seq<TreeNode>, cs: seq<nat>): (r: seq<nat>)
    requires ValidChildren(nodes, cs)
    ensures ValidChildren(nodes, r) && ChildrenSorted(nodes, r)
    ensures multiset(r) == multiset(cs)
    decreases |cs|
  {
    if cs == [] then []
    else
      assert cs == cs[..|cs| - 1] + [cs[|cs| - 1]];
      InsertChild(nodes, cs[|cs| - 1], SortChildren(nodes, cs[..|cs| - 1]))
  }

  /** Sortedness reads only names and kinds. */
  lemma SortedKeepsUnderSameNames(a: seq<TreeNode>, b: seq<TreeNode>, cs: seq<nat>)
    requires |a| == |b| && ValidChildren(a, cs) && ChildrenSorted(a, cs)
    requires forall j :: 0 <= j < |a| ==> a[j].name == b[j].name && a[j].kind == b[j].kind
    ensures ValidChildren(b, cs) && ChildrenSorted(b, cs)
  {
    forall i, j | 0 <= i < j < |cs| ensures !Before(b[cs[j]], b[cs[i]]) {
      assert !Before(a[cs[j]], a[cs[i]]);
    }
  }

  /** The recursive `sort` over the tree: every node's children are reordered.
      Each node is reachable from the root along exactly one path, and the
      comparator reads only names and kinds, which sorting does not change,
      so sorting the lists in position order gives the same tree. */
  method SortTree(nodes: seq<TreeNode>) returns (sorted: seq<TreeNode>)
    requires forall j :: 0 <= j < |nodes| ==> ValidChildren(nodes, nodes[j].children)
    ensures |sorted| == |nodes|
    ensures forall j :: 0 <= j < |nodes| ==>
      && sorted[j].key == nodes[j].key && sorted[j].name == nodes[j].name && sorted[j].kind == nodes[j].kind
      && multiset(sorted[j].children) == multiset(nodes[j].children)
      && ValidChildren(sorted, sorted[j].children)
      && ChildrenSorted(sorted, sorted[j].children)
  {
    sorted := nodes;
    for j := 0 to |nodes|
      invariant |sorted| == |nodes|
      invariant forall i :: 0 <= i < |nodes| ==>
        sorted[i].key == nodes[i].key && sorted[i].name == nodes[i].name && sorted[i].kind == nodes[i].kind
      invariant forall i :: 0 <= i < |nodes| ==> multiset(sorted[i].children) == multiset(nodes[i].children)
      invariant forall i :: 0 <= i < j ==> sorted[i].children == SortChildren(nodes, nodes[i].children)
    {
      sorted := sorted[j := sorted[j].(children := SortChildren(nodes, nodes[j].children))];
    }
    forall j | 0 <= j < |nodes|
      ensures ValidChildren(sorted, sorted[j].children) && ChildrenSorted(sorted, sorted[j].children)
    {
      SortedKeepsUnderSameNames(nodes, sorted, sorted[j].children);
    }
  }

  /** Coverage reads only paths and kinds, which sorting keeps. */
  lemma CoveredUnderReorder(nodes: seq<TreeNode>, sorted: seq<TreeNode>, paths: seq<seq<string>>, files: seq<FileEntry>)
    requires Covered(nodes, paths, files) && |sorted| == |nodes|
    requires forall j :: 0 <= j < |nodes| ==> sorted[j].kind == nodes[j].kind
    ensures Covered(sorted, paths, files)
  {
    forall c | 0 < c < |sorted|
      ensures OnSomePath(paths[c], sorted[c].kind, files)
    {
      assert sorted[c].kind == nodes[c].kind && OnSomePath(paths[c], nodes[c].kind, files);
    }
  }

  /** Reordering children lists keeps the shape. */
  lemma ShapedUnderReorder(nodes: seq<TreeNode>, sorted: seq<TreeNode>, parent: seq<int>, paths: seq<seq<string>>)
    requires Shaped(nodes, parent, paths)
    requires |sorted| == |nodes|
    requires forall j :: 0 <= j < |nodes| ==>
      && sorted[j].key == nodes[j].key && sorted[j].name == nodes[j].name && sorted[j].kind == nodes[j].kind
      && multiset(sorted[j].children) == multiset(nodes[j].children)
    ensures Shaped(sorted, parent, paths)
  {
    ReorderChildLinks(nodes, sorted, parent);
    ReorderParentLinks(nodes, sorted, parent);
  }

  lemma ReorderChildLinks(nodes: seq<TreeNode>, sorted: seq<TreeNode>, parent: seq<int>)
    requires ChildLinks(nodes, parent) && |sorted| == |nodes|
    requires forall j :: 0 <= j < |nodes| ==> multiset(sorted[j].children) == multiset(nodes[j].children)
    ensures ChildLinks(sorted, parent)
  {
    forall j, k | 0 <= j < |sorted| && 0 <= k < |sorted[j].children|
      ensures 0 < sorted[j].children[k] < |sorted| && parent[sorted[j].children[k]] == j
    {
      var c := sorted[j].children[k];
      assert c in multiset(sorted[j].children);
      assert c in nodes[j].children;
    }
  }

  lemma ReorderParentLinks(nodes: seq<TreeNode>, sorted: seq<TreeNode>, parent: seq<int>)
    requires ParentLinks(nodes, parent) && |sorted| == |nodes|
    requires forall j :: 0 <= j < |nodes| ==> multiset(sorted[j].children) == multiset(nodes[j].children)
    ensures ParentLinks(sorted, parent)
  {
    forall c | 0 < c < |sorted|
      ensures c in sorted[parent[c]].children
    {
      assert c in multiset(nodes[parent[c]].children);
    }
  }

  // ---------------------------------------------------------------------------
  // The whole builder and what it guarantees

  /** `tree`: insert every file, then sort. */
  method BuildTree(files: seq<FileEntry>) returns (nodes: seq<TreeNode>, ghost parent: seq<int>, ghost paths: seq<seq<string>>)
    ensures Shaped(nodes, parent, paths)
    ensures FileLeaves(nodes) == ExpectedLeaves(files)
    ensures forall j :: 0 <= j < |nodes| ==> ValidChildren(nodes, nodes[j].children) && ChildrenSorted(nodes, nodes[j].children)
    ensures forall c :: 0 < c < |nodes| && nodes[c].kind == Folder ==> EndsWith(nodes[c].key, "/")
    ensures Covered(nodes, paths, files)
  {
    var inserted;
    inserted, parent, paths := InsertFiles(files);
    nodes := SortTree(inserted);
    ShapedUnderReorder(inserted, nodes, parent, paths);
    FileLeavesIgnoreChildren(inserted, nodes);
    CoveredUnderReorder(inserted, nodes, paths, files);
    forall c | 0 < c < |nodes| && nodes[c].kind == Folder
      ensures EndsWith(nodes[c].key, "/")
    {
      var k := nodes[c].key;
      assert k == Join(paths[c], '/') + "/";
      assert k[|k| - 1..] == "/";
    }
  }

  /** When every name has a non-empty segment, each file contributes exactly
      its own leaf, in order: keyed by its full name and named by its last
      segment (so duplicate names give duplicate leaves). */
  lemma {:induction false} ExpectedLeavesOfNamedFiles(files: seq<FileEntry>)
    requires forall i :: 0 <= i < |files| ==> Parts(files[i].name) != []
    ensures var leaves := ExpectedLeaves(files);
      && |leaves| == |files|
      && forall i :: 0 <= i < |files| ==> leaves[i] == Leaf(files[i].name, Last(Parts(files[i].name)))
    decreases |files|
  {
    if files != [] {
      var init, f := files[..|files| - 1], files[|files| - 1];
      assert forall i :: 0 <= i < |init| ==> init[i] == files[i];
      ExpectedLeavesOfNamedFiles(init);
      var before := ExpectedLeaves(init);
      assert ExpectedLeaves(files) == before + [Leaf(f.name, Last(Parts(f.name)))];
      forall i | 0 <= i < |files|
        ensures ExpectedLeaves(files)[i] == Leaf(files[i].name, Last(Parts(files[i].name)))
      {
        if i < |init| {
          assert ExpectedLeaves(files)[i] == before[i];
        }
      }
    }
  }

  /** A file whose name has no non-empty segment contributes no leaf. */
  lemma UnnamedFileAddsNoLeaf(files: seq<FileEntry>, f: FileEntry)
    requires Parts(f.name) == []
    ensures ExpectedLeaves(files + [f]) == ExpectedLeaves(files)
  {
    assert (files + [f])[..|files|] == files;
  }

  /** The number of edges from the root down to a node. */
  ghost function Depth(parent: seq<int>, c: nat): nat
    requires c < |parent|
    requires forall d :: 0 < d < |parent| ==> 0 <= parent[d] < d
    decreases c
  {
    if c == 0 then 0 else 1 + Depth(parent, parent[c])
  }

  /** A file leaf sits as deep as its name has non-empty segments. */
  lemma {:induction false} DepthIsSegmentCount(nodes: seq<TreeNode>, parent: seq<int>, paths: seq<seq<string>>, c: nat)
    requires Shaped(nodes, parent, paths) && c < |nodes|
    ensures Depth(parent, c) == |paths[c]| == |Parts(nodes[c].key)|
    decreases c
  {
    if c > 0 {
      DepthIsSegmentCount(nodes, parent, paths, parent[c]);
    }
  }

  /** The node `k` levels above `c`. */
  ghost function Ancestor(parent: seq<int>, c: nat, k: nat): nat
    requires c < |parent|
    requires forall d :: 0 < d < |parent| ==> 0 <= parent[d] < d
    ensures Ancestor(parent, c, k) < |parent|
    decreases k
  {
    if k == 0 || c == 0 then c else Ancestor(parent, parent[c], k - 1)
  }

  /** Dropping the last `k` segments of a path one segment longer than its
      parent's is dropping `k - 1` of the parent's. */
  lemma DropFromExtended(p: seq<string>, q: seq<string>, x: string, k: nat)
    requires p == q + [x] && 1 <= k <= |p|
    ensures p[..|p| - k] == q[..|q| - (k - 1)]
  {
  }

  /** The ancestor `k` levels up has the first `|path| - k` segments of the
      node's path as its own. */
  lemma {:induction false} AncestorPath(nodes: seq<TreeNode>, parent: seq<int>, paths: seq<seq<string>>, c: nat, k: nat)
    requires PathLinks(nodes, parent, paths) && |nodes| >= 1 && paths[0] == []
    requires c < |nodes| && k <= |paths[c]|
    ensures paths[Ancestor(parent, c, k)] == paths[c][..|paths[c]| - k]
    decreases k
  {
    if c == 0 {
      assert paths[c][..|paths[c]| - k] == [];
    } else if k == 0 {
      assert paths[c][..|paths[c]|] == paths[c];
    } else {
      var p := parent[c];
      assert paths[c] == paths[p] + [nodes[c].name];
      AncestorPath(nodes, parent, paths, p, k - 1);
      DropFromExtended(paths[c], paths[p], nodes[c].name, k);
    }
  }

  /** A node strictly above another has children. */
  lemma {:induction false} ProperAncestorHasChildren(nodes: seq<TreeNode>, parent: seq<int>, c: nat, k: nat)
    requires ParentLinks(nodes, parent) && 0 < c < |nodes| && k > 0
    ensures nodes[Ancestor(parent, c, k)].children != []
    decreases k
  {
    var p := parent[c];
    assert c in nodes[p].children;
    if k > 1 && p > 0 {
      ProperAncestorHasChildren(nodes, parent, p, k - 1);
    }
  }

  /** The chain above a node is the chain of its prefixes: the ancestor `k`
      levels up has the first `|path| - k` segments as its path, and, when it
      is below the root and is a folder or lies strictly above the node, that
      prefix joined with `/` plus `/` as its key, whatever its kind. Climbing
      the full length of the path arrives at the root. */
  lemma AncestorsArePrefixes(nodes: seq<TreeNode>, parent: seq<int>, paths: seq<seq<string>>, c: nat, k: nat)
    requires Shaped(nodes, parent, paths) && c < |nodes| && k <= |paths[c]|
    ensures var a := Ancestor(parent, c, k);
      && paths[a] == paths[c][..|paths[c]| - k]
      && (a > 0 && nodes[a].kind == Folder ==> nodes[a].key == Join(paths[c][..|paths[c]| - k], '/') + "/")
      && (a > 0 && k > 0 ==> nodes[a].key == Join(paths[c][..|paths[c]| - k], '/') + "/")
      && (k == |paths[c]| ==> a == 0)
  {
    AncestorPath(nodes, parent, paths, c, k);
    var a := Ancestor(parent, c, k);
    assert PathLinks(nodes, parent, paths) && KeyedParents(nodes, paths);
    DepthIsSegmentCount(nodes, parent, paths, a);
    if k > 0 {
      assert c > 0;
      ProperAncestorHasChildren(nodes, parent, c, k);
    }
  }

  /** After sorting, within every children list all folders come before all
      files, and children of the same kind appear in name order. */
  lemma SortedMeansFoldersFirstByName(nodes: seq<TreeNode>, cs: seq<nat>, i: nat, j: nat)
    requires ValidChildren(nodes, cs) && ChildrenSorted(nodes, cs)
    requires i < j < |cs|
    ensures nodes[cs[i]].kind == File ==> nodes[cs[j]].kind == File
    ensures nodes[cs[i]].kind == nodes[cs[j]].kind ==> !LexLess(nodes[cs[j]].name, nodes[cs[i]].name)
  {
  }

  /** Under one parent there is at most one folder with a given key. */
  lemma FolderKeysUnique(nodes: seq<TreeNode>, parent: seq<int>, paths: seq<seq<string>>, c1: nat, c2: nat)
    requires Shaped(nodes, parent, paths)
    requires 0 < c1 < |nodes| && 0 < c2 < |nodes| && c1 != c2
    requires parent[c1] == parent[c2] && nodes[c1].kind == Folder && nodes[c2].kind == Folder
    ensures nodes[c1].key != nodes[c2].key
  {
  }

  // ---------------------------------------------------------------------------
  // Expanded folders

  type Expanded = map<string, bool>

  /** Initially only the root is recorded, as open. */
  const InitialExpanded: Expanded := map[RootKey := true]

  /** A folder without an entry is shown open (`expanded[key] ?? true`). */
  function IsOpen(expanded: Expanded, key: string): bool {
    if key in expanded then expanded[key] else true
  }

  /** `toggle` as written: the entry becomes the negation of `prev[key]`,
      which is `true` for a missing entry. */
  function Toggle(expanded: Expanded, key: string): (r: Expanded)
    ensures r.Keys == expanded.Keys + {key}
    ensures r[key] == !(key in expanded && expanded[key])
    ensures forall k :: k in expanded && k != key ==> r[k] == expanded[k]
  {
    expanded[key := !(key in expanded && expanded[key])]
  }

  /** The first toggle of a folder without an entry leaves it open: it was
      shown open before and is recorded as open after. */
  lemma ToggleOfUnrecordedFolderKeepsItOpen(expanded: Expanded, key: string)
    requires key !in expanded
    ensures IsOpen(expanded, key) && IsOpen(Toggle(expanded, key), key)
  {
  }

  /** The toggle the display rule calls for: flip what is shown. */
  function ToggleShown(expanded: Expanded, key: string): (r: Expanded)
    ensures IsOpen(r, key) == !IsOpen(expanded, key)
    ensures forall k :: k != key ==> IsOpen(r, k) == IsOpen(expanded, k)
  {
    expanded[key := !IsOpen(expanded, key)]
  }

  /** Toggling twice restores what is shown. */
  lemma ToggleShownTwice(expanded: Expanded, key: string, k: string)
    ensures IsOpen(ToggleShown(ToggleShown(expanded, key), key), k) == IsOpen(expanded, k)
  {
  }

  // ---------------------------------------------------------------------------
  // The selected file

  /** The initial selection, the first file's name; the viewer is only shown
      with at least one file. */
  function InitialFile(files: seq<FileEntry>): (r: string)
    requires |files| > 0
    ensures r == files[0].name
    ensures exists i :: 0 <= i < |files| && files[i].name == r
  {
    files[0].name
  }

  /** The content of the first file with the selected name
      (`files.find((file) => file.name === currentFile)?.content`). */
  function CurrentContent(files: seq<FileEntry>, current: string): (r: Option<string>)
    ensures r.None? <==> forall i :: 0 <= i < |files| ==> files[i].name != current
    ensures r.Some? ==> exists i :: (0 <= i < |files| && files[i].name == current && files[i].content == r.value
      && forall i' :: 0 <= i' < i ==> files[i'].name != current)
    decreases |files|
  {
    if files == [] then None
    else if files[0].name == current then
      Some(files[0].content)
    else
      var rest := CurrentContent(files[1..], current);
      if rest.Some? then
        ghost var i :| 0 <= i < |files[1..]| && files[1..][i].name == current && files[1..][i].content == rest.value
          && forall i' :: 0 <= i' < i ==> files[1..][i'].name != current;
        assert files[i + 1].name == current && forall i' :: 0 <= i' < i + 1 ==> files[i'].name != current;
        rest
      else
        None
  }

  /** The language shown for a file: the text after its last `.`, or the
      whole name when it has none (`currentFile.split('.').pop() || ''`). */
  function Lang(currentFile: string): string {
    var pieces := Split(currentFile, '.');
    pieces[|pieces| - 1]
  }

  lemma {:induction false} JoinSnoc(ps: seq<string>, sep: char)
    requires |ps| >= 2
    ensures Join(ps, sep) == Join(ps[..|ps| - 1], sep) + [sep] + ps[|ps| - 1]
    decreases |ps|
  {
    if |ps| > 2 {
      JoinSnoc(ps[1..], sep);
      assert ps[1..][..|ps| - 2] == ps[..|ps| - 1][1..];
    }
  }

  /** A name without a dot is its own language; otherwise the name is some
      prefix, a dot, and the language, which holds no dot. */
  lemma LangIsExtension(name: string)
    ensures '.' !in name ==> Lang(name) == name
    ensures '.' in name ==> ('.' !in Lang(name) && exists prefix :: name == prefix + "." + Lang(name))
  {
    var ps := Split(name, '.');
    SplitPiecesSepFree(name, '.');
    JoinSplit(name, '.');
    if '.' !in name {
      SplitWithoutSep(name, '.');
    } else {
      JoinSnoc(ps, '.');
      assert name == Join(ps[..|ps| - 1], '.') + "." + Lang(name);
    }
  }
}
