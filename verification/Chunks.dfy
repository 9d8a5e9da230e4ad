/** Splitting a data directory into chunks: a tree of chunk declarations is expanded over the
    directory tree, and what a parent's children leave over becomes chunks of its own. */
module Chunks {
  import opened Domain
  import opened Paths

  /** A declared chunk. Declarations may be missing, paths may be empty. `skipUpdate` says that updates
      leave the chunk alone; packing does not look at it. */
  datatype Declared = Missing | Declared(path: string, skipUpdate: bool, children: seq<Declared>)

  /** The directory tree: the entries of every directory, the other files, and what a pattern
      matches, `None` when it is malformed. */
  datatype Tree = Tree(dirs: map<Path, seq<string>>, files: set<Path>, glob: Path -> Option<seq<Path>>)

  predicate Exists(tree: Tree, p: Path) {
    p in tree.dirs || p in tree.files
  }

  ghost predicate Distinct(names: seq<string>) {
    forall i, j :: 0 <= i < j < |names| ==> names[i] != names[j]
  }

  /** Directories list what exists below them, and everything that exists is listed. */
  ghost predicate ValidTree(tree: Tree) {
    && (forall p :: p in tree.dirs ==> Distinct(tree.dirs[p]) && p !in tree.files)
    && (forall p, e :: p in tree.dirs ==> (e in tree.dirs[p] <==> Exists(tree, p + [e])))
    && (forall p :: Exists(tree, p) && p != [] ==> p[..|p| - 1] in tree.dirs)
  }

  datatype Listing = Entries(names: seq<string>) | NotThere | Broken

  /** Reading a directory: below a plain file it fails differently from where nothing exists. */
  function ReadDir(tree: Tree, p: Path): Listing {
    if p in tree.dirs then Entries(tree.dirs[p])
    else if exists i :: 0 <= i <= |p| && p[..i] in tree.files then Broken
    else NotThere
  }

  // ---- one declaration ------------------------------------------------------------------------------

  /** The components a chunk path is cleaned from: blanks around it do not count, an absolute path counts
      from the data directory (its leading slashes are empty components), a relative one from the parent. */
  function ResolvedParts(parent: Path, raw: string): seq<string> {
    if Absolute(TrimSpace(raw)) then Split(TrimSpace(raw)) else parent + Split(TrimSpace(raw))
  }

  /** `resolveChunkPath`: the path may not come out as the data directory itself or above it. */
  function ResolveChunkPath(parent: Path, raw: string): Option<Path> {
    var p := Clean(ResolvedParts(parent, raw));
    if p == [] || Escapes(p) then None else Some(p)
  }

  /** A resolved path names something inside the data directory. */
  lemma {:induction false} ResolvedIsInside(parent: Path, raw: string)
    requires ResolveChunkPath(parent, raw).Some?
    ensures Plain(ResolveChunkPath(parent, raw).value) && ResolveChunkPath(parent, raw).value != []
  {
    CleanInsideIsPlain(ResolvedParts(parent, raw));
  }

  predicate HasGlobMeta(p: Path) {
    exists i :: 0 <= i < |p| && ('*' in p[i] || '?' in p[i] || '[' in p[i])
  }

  predicate AnyEscapes(paths: seq<Path>) {
    exists i :: 0 <= i < |paths| && Escapes(paths[i])
  }

  /** `expandChunkPaths`. */
  function ExpandPaths(tree: Tree, parent: Path, raw: string): Option<seq<Path>> {
    var resolved := ResolveChunkPath(parent, raw);
    if resolved.None? then None
    else if !HasGlobMeta(resolved.value) then Some([resolved.value])
    else
      var matches := tree.glob(resolved.value);
      if matches.None? || AnyEscapes(matches.value) then None else matches
  }

  // ---- the expansion, as a function --------------------------------------------------------------------

  predicate AllWithin(paths: seq<Path>, parent: Path) {
    forall i :: 0 <= i < |paths| ==> parent <= paths[i]
  }

  function ExpandNode(tree: Tree, parent: Path, node: Declared): Option<seq<Path>>
    decreases node, 2
  {
    if node.Missing? then Some([])
    else if node.path == "" then None
    else
      var paths := ExpandPaths(tree, parent, node.path);
      if paths.None? then None else ExpandEach(tree, node, paths.value)
  }

  function ExpandEach(tree: Tree, node: Declared, paths: seq<Path>): Option<seq<Path>>
    requires node.Declared?
    decreases node, 1, |paths|
  {
    if paths == [] then Some([])
    else
      var before := ExpandEach(tree, node, paths[..|paths| - 1]);
      var last := ExpandOne(tree, node, paths[|paths| - 1]);
      if before.None? || last.None? then None else Some(before.value + last.value)
  }

  /** One concrete path of a declaration: itself, or the remainder and the children. */
  function ExpandOne(tree: Tree, node: Declared, p: Path): Option<seq<Path>>
    requires node.Declared?
    decreases node, 0
  {
    if node.children == [] then Some([p])
    else
      var children := ExpandChildren(tree, node.children, p);
      if children.None? then None
      else
        var rest := Remainder(tree, p, children.value);
        if rest.None? then None else Some(rest.value + children.value)
  }

  function ExpandChildren(tree: Tree, nodes: seq<Declared>, p: Path): Option<seq<Path>>
    decreases nodes
  {
    if nodes == [] then Some([])
    else
      var before := ExpandChildren(tree, nodes[..|nodes| - 1], p);
      var last := ExpandNode(tree, p, nodes[|nodes| - 1]);
      if before.None? || last.None? || !AllWithin(last.value, p) then None else Some(before.value + last.value)
  }

  // ---- the remainder of a parent ------------------------------------------------------------------------

  predicate StrictlyWithin(paths: seq<Path>, parent: Path) {
    forall i :: 0 <= i < |paths| ==> parent < paths[i]
  }

  /** The entries of the parent that some child lies in. */
  function Taken(parent: Path, children: seq<Path>): set<string>
    requires StrictlyWithin(children, parent)
  {
    set i | 0 <= i < |children| :: children[i][|parent|]
  }

  function Others(parent: Path, names: seq<string>, excluded: set<string>): seq<Path> {
    if names == [] then []
    else
      var name := names[|names| - 1];
      Others(parent, names[..|names| - 1], excluded) + if name in excluded then [] else [parent + [name]]
  }

  /** `expandParentRemainder`: a chunk for every entry no child lies in. A child that is the parent
      itself is an error, but only if the parent can be read. */
  function Remainder(tree: Tree, parent: Path, children: seq<Path>): Option<seq<Path>> {
    match ReadDir(tree, parent)
    case NotThere => Some([])
    case Broken => None
    case Entries(names) =>
      if !StrictlyWithin(children, parent) then None
      else Some(Others(parent, names, Taken(parent, children)))
  }

  // ---- the loops ---------------------------------------------------------------------------------------------

  method ExpandChunkPaths(tree: Tree, parent: Path, raw: string) returns (paths: Option<seq<Path>>)
    ensures paths == ExpandPaths(tree, parent, raw)
    ensures var resolved := ResolveChunkPath(parent, raw);
            if resolved.Some? && (exists part ::
                                    part in resolved.value && ('*' in part || '?' in part || '[' in part)) then
              var matches := tree.glob(resolved.value);
              && (paths.Some? <==> matches.Some? && forall q :: q in matches.value ==> q == [] || q[0] != "..")
              && (paths.Some? ==> |paths.value| == |matches.value| && forall q :: q in matches.value ==>
                  q in paths.value)
            else paths == if resolved.Some? then Some([resolved.value]) else None
  {
    var resolved := ResolveChunkPath(parent, raw);
    if resolved.None? {
      return None;
    }
    if !HasGlobMeta(resolved.value) {
      return Some([resolved.value]);
    }
    var matches := tree.glob(resolved.value);
    if matches.None? {
      return None;
    }
    for i := 0 to |matches.value|
      invariant forall j :: 0 <= j < i ==> !Escapes(matches.value[j])
    {
      if Escapes(matches.value[i]) {
        return None;
      }
    }
    return matches;
  }

  method ExpandParentRemainder(tree: Tree, parent: Path, children: seq<Path>) returns (rest: Option<seq<Path>>)
    ensures rest == Remainder(tree, parent, children)
    ensures rest.None? <==>
              if parent in tree.dirs then exists i :: 0 <= i < |children| && !(parent < children[i])
              else exists i :: 0 <= i <= |parent| && parent[..i] in tree.files
    ensures rest.Some? && parent !in tree.dirs ==> rest.value == []
    ensures rest.Some? && parent in tree.dirs ==>
              forall q :: q in rest.value <==>
                && |q| == |parent| + 1 && parent < q && q[|parent|] in tree.dirs[parent]
                && forall i :: 0 <= i < |children| ==> children[i][|parent|] != q[|parent|]
  {
    var listing := ReadDir(tree, parent);
    match listing {
      case NotThere => return Some([]);
      case Broken => return None;
      case Entries(_) =>
    }
    var excluded: set<string> := {};
    for i := 0 to |children|
      invariant StrictlyWithin(children[..i], parent) && excluded == Taken(parent, children[..i])
    {
      assert children[..i + 1] == children[..i] + [children[i]];
      if !(parent < children[i]) {
        return None;
      }
      TakenMore(parent, children, i);
      excluded := excluded + {children[i][|parent|]};
    }
    assert children[..|children|] == children;
    var names, remainder := listing.names, [];
    for i := 0 to |names|
      invariant remainder == Others(parent, names[..i], excluded)
    {
      assert names[..i + 1][..i] == names[..i];
      if names[i] in excluded {
        continue;
      }
      remainder := remainder + [parent + [names[i]]];
    }
    assert names[..|names|] == names;
    OthersAmong(parent, names, excluded);
    return Some(remainder);
  }

  lemma {:induction false} OthersAmong(parent: Path, names: seq<string>, excluded: set<string>)
    ensures forall q :: q in Others(parent, names, excluded) <==>
              |q| == |parent| + 1 && parent < q && q[|parent|] in names && q[|parent|] !in excluded
    decreases |names|
  {
    if names != [] {
      var init, name := names[..|names| - 1], names[|names| - 1];
      OthersAmong(parent, init, excluded);
      assert names == init + [name];
      assert forall q: Path :: |q| == |parent| + 1 && parent < q && q[|parent|] == name <==> q == parent + [name];
    }
  }

  lemma TakenMore(parent: Path, children: seq<Path>, i: nat)
    requires i < |children| && StrictlyWithin(children[..i], parent) && parent < children[i]
    ensures StrictlyWithin(children[..i + 1], parent)
    ensures Taken(parent, children[..i + 1]) == Taken(parent, children[..i]) + {children[i][|parent|]}
  {
    var before, after := children[..i], children[..i + 1];
    assert forall j :: 0 <= j < i ==> after[j] == before[j];
    assert after[i] == children[i];
    forall e | e in Taken(parent, before) ensures e in Taken(parent, after) {
      var j :| 0 <= j < i && before[j][|parent|] == e;
      assert after[j][|parent|] == e;
    }
  }

  lemma {:induction false} EachNext(tree: Tree, node: Declared, paths: seq<Path>, i: nat, before: seq<Path>,
                                    last: Option<seq<Path>>)
    requires node.Declared? && i < |paths| && ExpandEach(tree, node, paths[..i]) == Some(before)
             && last == ExpandOne(tree, node, paths[i])
    ensures ExpandEach(tree, node, paths[..i + 1]) == if last.None? then None else Some(before + last.value)
  {
    var upTo := paths[..i + 1];
    assert upTo[..|upTo| - 1] == paths[..i] && upTo[|upTo| - 1] == paths[i];
  }

  /** `expandChunkNode`. */
  method ExpandChunkNode(tree: Tree, parent: Path, node: Declared) returns (result: Option<seq<Path>>)
    ensures result == ExpandNode(tree, parent, node)
    ensures node.Missing? ==> result == Some([])
    ensures node.Declared? && (node.path == "" || ResolveChunkPath(parent, node.path).None?) ==> result == None
    decreases node, 2
  {
    if node.Missing? {
      return Some([]);
    }
    if node.path == "" {
      return None;
    }
    var paths := ExpandChunkPaths(tree, parent, node.path);
    if paths.None? {
      return None;
    }
    var expanded := [];
    for i := 0 to |paths.value|
      invariant ExpandEach(tree, node, paths.value[..i]) == Some(expanded)
    {
      var one := ExpandConcrete(tree, node, paths.value[i]);
      EachNext(tree, node, paths.value, i, expanded, one);
      if one.None? {
        EachFails(tree, node, paths.value, i + 1);
        return None;
      }
      expanded := expanded + one.value;
    }
    assert paths.value[..|paths.value|] == paths.value;
    return Some(expanded);
  }

  lemma {:induction false} EachFails(tree: Tree, node: Declared, paths: seq<Path>, n: nat)
    requires node.Declared? && n <= |paths| && ExpandEach(tree, node, paths[..n]).None?
    ensures ExpandEach(tree, node, paths).None?
    decreases |paths|
  {
    if n < |paths| {
      assert paths[..|paths| - 1][..n] == paths[..n];
      EachFails(tree, node, paths[..|paths| - 1], n);
    } else {
      assert paths[..n] == paths;
    }
  }

  lemma {:induction false} ChildrenNext(tree: Tree, nodes: seq<Declared>, p: Path, i: nat, before: seq<Path>,
                                        last: Option<seq<Path>>)
    requires i < |nodes| && ExpandChildren(tree, nodes[..i], p) == Some(before) && last == ExpandNode(tree, p, nodes[i])
    ensures ExpandChildren(tree, nodes[..i + 1], p)
         == if last.None? || !AllWithin(last.value, p) then None else Some(before + last.value)
  {
    var upTo := nodes[..i + 1];
    assert upTo[..|upTo| - 1] == nodes[..i] && upTo[|upTo| - 1] == nodes[i];
  }

  /** The body of the loop over the concrete paths of a declaration. */
  method ExpandConcrete(tree: Tree, node: Declared, p: Path) returns (result: Option<seq<Path>>)
    requires node.Declared?
    ensures result == ExpandOne(tree, node, p)
    ensures node.children == [] ==> result == Some([p])
    ensures node.children != [] && result.Some? ==>
              && ExpandChildren(tree, node.children, p).Some?
              && Remainder(tree, p, ExpandChildren(tree, node.children, p).value).Some?
              && result.value == Remainder(tree, p, ExpandChildren(tree, node.children, p).value).value
                                 + ExpandChildren(tree, node.children, p).value
    decreases node, 1
  {
    if |node.children| == 0 {
      return Some([p]);
    }
    var children := ExpandChildChunks(tree, node, p);
    if children.None? {
      return None;
    }
    var rest := ExpandParentRemainder(tree, p, children.value);
    if rest.None? {
      return None;
    }
    return Some(rest.value + children.value);
  }

  /** The declaration cannot be expanded at `p`, or leads out of it. */
  ghost predicate ChildFails(tree: Tree, node: Declared, p: Path) {
    ExpandNode(tree, p, node).None? || exists c :: c in ExpandNode(tree, p, node).value && !(p <= c)
  }

  lemma {:induction false} OneChildFails(tree: Tree, node: Declared, p: Path)
    ensures ChildFails(tree, node, p) <==>
              ExpandNode(tree, p, node).None? || !AllWithin(ExpandNode(tree, p, node).value, p)
  {
    var expanded := ExpandNode(tree, p, node);
    if expanded.Some? && !AllWithin(expanded.value, p) {
      var i :| 0 <= i < |expanded.value| && !(p <= expanded.value[i]);
      assert expanded.value[i] in expanded.value;
    }
  }

  /** Children fail exactly if one of them does. */
  lemma {:induction false} ChildrenExactly(tree: Tree, nodes: seq<Declared>, p: Path)
    ensures ExpandChildren(tree, nodes, p).None? <==> exists node :: node in nodes && ChildFails(tree, node, p)
    decreases |nodes|
  {
    if nodes != [] {
      var init, last := nodes[..|nodes| - 1], nodes[|nodes| - 1];
      ChildrenExactly(tree, init, p);
      OneChildFails(tree, last, p);
      assert nodes == init + [last];
    }
  }

  /** The children of one concrete path; each has to stay within it. */
  method ExpandChildChunks(tree: Tree, node: Declared, p: Path) returns (result: Option<seq<Path>>)
    requires node.Declared?
    ensures result == ExpandChildren(tree, node.children, p)
    ensures result.None? <==> exists child :: child in node.children && ChildFails(tree, child, p)
    decreases node, 0
  {
    ChildrenExactly(tree, node.children, p);
    var nodes, children := node.children, [];
    for i := 0 to |nodes|
      invariant ExpandChildren(tree, nodes[..i], p) == Some(children)
    {
      var expanded := ExpandChunkNode(tree, p, nodes[i]);
      ChildrenNext(tree, nodes, p, i, children, expanded);
      if expanded.None? || !AllWithin(expanded.value, p) {
        ChildrenFail(tree, nodes, p, i + 1);
        return None;
      }
      children := children + expanded.value;
    }
    assert nodes[..|nodes|] == nodes;
    return Some(children);
  }

  lemma {:induction false} ChildrenFail(tree: Tree, nodes: seq<Declared>, p: Path, n: nat)
    requires n <= |nodes| && ExpandChildren(tree, nodes[..n], p).None?
    ensures ExpandChildren(tree, nodes, p).None?
    decreases |nodes|
  {
    if n < |nodes| {
      assert nodes[..|nodes| - 1][..n] == nodes[..n];
      ChildrenFail(tree, nodes[..|nodes| - 1], p, n);
    } else {
      assert nodes[..n] == nodes;
    }
  }

  ghost predicate Incomparable(paths: seq<Path>) {
    forall i, j :: 0 <= i < j < |paths| ==> !Comparable(paths[i], paths[j])
  }

  /** `validateNoOverlappingChunks`: accepts exactly the lists of pairwise incomparable paths. */
  method ValidateNoOverlap(paths: seq<Path>) returns (ok: bool)
    ensures ok <==> Incomparable(paths)
  {
    for i := 0 to |paths|
      invariant forall a, b :: 0 <= a < i && a < b < |paths| ==> !Comparable(paths[a], paths[b])
    {
      for j := i + 1 to |paths|
        invariant forall b :: i < b < j ==> !Comparable(paths[i], paths[b])
      {
        if paths[i] == paths[j] || paths[j] < paths[i] || paths[i] < paths[j] {
          assert Comparable(paths[i], paths[j]);
          return false;
        }
      }
    }
    return true;
  }

  /** `AutoChunkDataDir` with explicit chunks, without its symlink check. On success no chunk
      overlaps another, so every file is in at most one. */
  method AutoChunk(tree: Tree, declared: seq<Declared>) returns (chunks: Option<seq<Path>>)
    ensures chunks.Some? <==>
              ExpandChildren(tree, declared, []).Some? && Incomparable(ExpandChildren(tree, declared, []).value)
    ensures chunks.Some? ==> chunks == ExpandChildren(tree, declared, [])
    ensures chunks.Some? ==> InOneAtMost(chunks.value)
    ensures chunks.Some? ==> LeavesPacked(tree, declared, chunks.value) && OnlyYielded(tree, declared, chunks.value)
  {
    var expanded := [];
    for i := 0 to |declared|
      invariant ExpandChildren(tree, declared[..i], []) == Some(expanded)
    {
      var more := ExpandChunkNode(tree, [], declared[i]);
      ChildrenNext(tree, declared, [], i, expanded, more);
      if more.None? {
        ChildrenFail(tree, declared, [], i + 1);
        return None;
      }
      expanded := expanded + more.value;
    }
    assert declared[..|declared|] == declared;
    var ok := ValidateNoOverlap(expanded);
    if !ok {
      return None;
    }
    OneChunkAtMost(expanded);
    LeavesArePacked(tree, declared, expanded);
    ChunksAreYielded(tree, declared, expanded);
    return Some(expanded);
  }

  // ---- what a parent directory's chunks cover -------------------------------------------------------------------

  lemma {:induction false} OthersAre(parent: Path, names: seq<string>, excluded: set<string>)
    requires Distinct(names)
    ensures forall q :: q in Others(parent, names, excluded) <==>
              |q| == |parent| + 1 && parent < q && q[|parent|] in names && q[|parent|] !in excluded
    ensures forall i, j :: 0 <= i < j < |Others(parent, names, excluded)| ==>
              Others(parent, names, excluded)[i] != Others(parent, names, excluded)[j]
    decreases |names|
  {
    OthersAmong(parent, names, excluded);
    if names != [] {
      var init := names[..|names| - 1];
      OthersAre(parent, init, excluded);
      OthersAmong(parent, init, excluded);
    }
  }

  /** What is left over never overlaps a child. */
  lemma RemainderAvoidsChildren(tree: Tree, parent: Path, children: seq<Path>, i: nat, j: nat)
    requires ValidTree(tree) && Remainder(tree, parent, children).Some?
    requires i < |Remainder(tree, parent, children).value| && j < |children|
    ensures !Comparable(Remainder(tree, parent, children).value[i], children[j])
  {
    if parent in tree.dirs {
      var names := tree.dirs[parent];
      OthersAre(parent, names, Taken(parent, children));
      var q, c := Remainder(tree, parent, children).value[i], children[j];
      assert q in Remainder(tree, parent, children).value;
      assert c[|parent|] in Taken(parent, children);
      assert q[|parent|] != c[|parent|];
    }
  }

  /** Everything a declaration expands to at a path lies within that path. */
  lemma ExpandedWithin(tree: Tree, node: Declared, p: Path)
    requires ValidTree(tree) && node.Declared? && ExpandOne(tree, node, p).Some?
    ensures AllWithin(ExpandOne(tree, node, p).value, p)
  {
    if node.children != [] {
      ChildrenWithin(tree, node.children, p);
      var children := ExpandChildren(tree, node.children, p).value;
      if p in tree.dirs {
        OthersAre(p, tree.dirs[p], Taken(p, children));
        forall i | 0 <= i < |Remainder(tree, p, children).value| ensures p <= Remainder(tree, p, children).value[i] {
          assert Remainder(tree, p, children).value[i] in Remainder(tree, p, children).value;
        }
      }
    }
  }

  lemma {:induction false} ChildrenWithin(tree: Tree, nodes: seq<Declared>, p: Path)
    requires ExpandChildren(tree, nodes, p).Some?
    ensures AllWithin(ExpandChildren(tree, nodes, p).value, p)
    decreases |nodes|
  {
    if nodes != [] {
      ChildrenWithin(tree, nodes[..|nodes| - 1], p);
    }
  }

  /** Chunk `i` contains `x`. */
  predicate In(chunks: seq<Path>, i: int, x: Path) {
    0 <= i < |chunks| && chunks[i] <= x
  }

  ghost predicate Covered(chunks: seq<Path>, x: Path) {
    exists i :: In(chunks, i, x)
  }

  /** `rest` has one chunk for every entry that is not taken, and no other. */
  ghost predicate RestOf(names: seq<string>, parent: Path, taken: set<string>, rest: seq<Path>) {
    && (forall e :: e in names && e !in taken ==> parent + [e] in rest)
    && (forall i :: 0 <= i < |rest| ==> |rest[i]| == |parent| + 1 && parent < rest[i] && rest[i][|parent|] !in taken)
    && (forall i, j :: 0 <= i < j < |rest| ==> rest[i] != rest[j])
  }

  lemma RemainderIsRest(tree: Tree, parent: Path, children: seq<Path>, rest: seq<Path>)
    requires ValidTree(tree) && parent in tree.dirs && Remainder(tree, parent, children) == Some(rest)
    ensures RestOf(tree.dirs[parent], parent, Taken(parent, children), rest)
  {
    OthersAre(parent, tree.dirs[parent], Taken(parent, children));
    forall i | 0 <= i < |rest|
      ensures |rest[i]| == |parent| + 1 && parent < rest[i] && rest[i][|parent|] !in Taken(parent, children)
    {
      assert rest[i] in rest;
    }
  }

  lemma OwnEntryCovers(names: seq<string>, parent: Path, taken: set<string>, rest: seq<Path>, children: seq<Path>,
                       x: Path)
    requires RestOf(names, parent, taken, rest) && parent < x && x[|parent|] in names && x[|parent|] !in taken
    ensures Covered(rest + children, x)
  {
    var q := parent + [x[|parent|]];
    var i :| 0 <= i < |rest| && rest[i] == q;
    assert (rest + children)[i] == q && q <= x;
    assert In(rest + children, i, x);
  }

  /** A chunk of the remainder contains what lies below its own entry, which is no child's. */
  lemma RestHolds(names: seq<string>, parent: Path, taken: set<string>, rest: seq<Path>, x: Path, i: nat)
    requires RestOf(names, parent, taken, rest) && parent < x && i < |rest| && rest[i] <= x
    ensures rest[i] == parent + [x[|parent|]] && x[|parent|] !in taken
  {
    assert rest[i][|parent|] == x[|parent|];
  }

  /** A child only contains what lies below its own entry. */
  lemma ChildHolds(parent: Path, children: seq<Path>, x: Path, k: nat)
    requires StrictlyWithin(children, parent) && k < |children| && parent < x && children[k] <= x
    ensures x[|parent|] in Taken(parent, children)
  {
    assert children[k][|parent|] in Taken(parent, children);
  }

  /** Exactly what the chunks of an existing parent directory cover: everything below an entry no
      child lies in, and what the children cover themselves. A file next to a nested child, below
      the same entry, is in no chunk at all. */
  lemma CoveredExactly(tree: Tree, parent: Path, children: seq<Path>, rest: seq<Path>, x: Path)
    requires ValidTree(tree) && parent in tree.dirs && Remainder(tree, parent, children) == Some(rest)
    requires Exists(tree, x) && parent < x
    ensures Covered(rest + children, x) <==> x[|parent|] !in Taken(parent, children) || Covered(children, x)
  {
    if x[|parent|] !in Taken(parent, children) {
      RemainderIsRest(tree, parent, children, rest);
      EntryListed(tree, parent, x);
      OwnEntryCovers(tree.dirs[parent], parent, Taken(parent, children), rest, children, x);
    } else {
      CoveredByChild(tree, parent, children, rest, x);
    }
  }

  lemma CoveredByChild(tree: Tree, parent: Path, children: seq<Path>, rest: seq<Path>, x: Path)
    requires ValidTree(tree) && parent in tree.dirs && Remainder(tree, parent, children) == Some(rest)
    requires parent < x && x[|parent|] in Taken(parent, children)
    ensures Covered(rest + children, x) <==> Covered(children, x)
  {
    RemainderIsRest(tree, parent, children, rest);
    if j :| In(children, j, x) {
      assert (rest + children)[|rest| + j] == children[j];
      assert In(rest + children, |rest| + j, x);
    }
    forall i | 0 <= i < |rest| ensures !In(rest + children, i, x) {
      assert (rest + children)[i] == rest[i] && rest[i][|parent|] != x[|parent|];
    }
    if i :| In(rest + children, i, x) {
      assert In(children, i - |rest|, x);
    }
  }

  /** What exists below a directory lies in one of its entries. */
  lemma {:induction false} EntryListed(tree: Tree, parent: Path, x: Path)
    requires ValidTree(tree) && parent in tree.dirs && Exists(tree, x) && parent < x
    ensures x[|parent|] in tree.dirs[parent]
    decreases |x|
  {
    if |x| == |parent| + 1 {
      assert x == parent + [x[|parent|]];
    } else {
      EntryListed(tree, parent, x[..|x| - 1]);
    }
  }

  /** A file whose entry no child lies in is in exactly one chunk of an existing parent directory. */
  lemma LeftOverInOneChunk(tree: Tree, parent: Path, children: seq<Path>, rest: seq<Path>, x: Path) returns (i: int)
    requires ValidTree(tree) && parent in tree.dirs && Remainder(tree, parent, children) == Some(rest)
    requires Exists(tree, x) && parent < x && x[|parent|] !in Taken(parent, children)
    ensures In(rest + children, i, x) && forall j :: In(rest + children, j, x) ==> j == i
  {
    CoveredExactly(tree, parent, children, rest, x);
    i :| In(rest + children, i, x);
    RemainderIsRest(tree, parent, children, rest);
    forall j | In(rest + children, j, x) ensures j < |rest| && rest[j] == parent + [x[|parent|]] {
      HeldByRest(tree, parent, children, rest, x, j);
    }
  }

  lemma HeldByRest(tree: Tree, parent: Path, children: seq<Path>, rest: seq<Path>, x: Path, j: int)
    requires ValidTree(tree) && parent in tree.dirs && Remainder(tree, parent, children) == Some(rest)
    requires parent < x && x[|parent|] !in Taken(parent, children) && In(rest + children, j, x)
    ensures j < |rest| && rest[j] == parent + [x[|parent|]]
  {
    var k := if j >= |rest| then j - |rest| else 0;
    assert j < |rest| ==> (rest + children)[j] == rest[j];
    assert j >= |rest| ==> (rest + children)[j] == children[k];
    RemainderIsRest(tree, parent, children, rest);
    if j < |rest| {
      RestHolds(tree.dirs[parent], parent, Taken(parent, children), rest, x, j);
    } else if children[k] <= x {
      ChildHolds(parent, children, x, k);
      assert false;
    }
  }

  // ---- the same for the whole packing ---------------------------------------------------------------------

  /** One of the paths a declaration stands for at `parent`: what its pattern matches or, without a pattern,
      the path it resolves to. */
  predicate ConcretePath(tree: Tree, parent: Path, node: Declared, q: Path)
    requires node.Declared?
  {
    var resolved := ResolveChunkPath(parent, node.path);
    resolved.Some?
    && if HasGlobMeta(resolved.value) then
         tree.glob(resolved.value).Some? && q in tree.glob(resolved.value).value
       else q == resolved.value
  }

  lemma {:induction false} ExpandedToConcrete(tree: Tree, parent: Path, node: Declared, paths: seq<Path>)
    requires node.Declared? && ExpandPaths(tree, parent, node.path) == Some(paths)
    ensures forall q :: q in paths <==> ConcretePath(tree, parent, node, q)
  {
  }

  /** Somewhere below `parent` the declaration `node` is expanded at the concrete path `p`. */
  ghost predicate Occurs(tree: Tree, parent: Path, nodes: seq<Declared>, node: Declared, p: Path)
    decreases nodes
  {
    exists i, q :: 0 <= i < |nodes| && nodes[i].Declared? && ConcretePath(tree, parent, nodes[i], q)
                   && ((node == nodes[i] && p == q) || Occurs(tree, q, nodes[i].children, node, p))
  }

  ghost predicate Included(some: Option<seq<Path>>, all: Option<seq<Path>>) {
    some.Some? && all.Some? && forall c :: c in some.value ==> c in all.value
  }

  lemma {:induction false} NodeIncluded(tree: Tree, nodes: seq<Declared>, p: Path, i: nat)
    requires i < |nodes| && ExpandChildren(tree, nodes, p).Some?
    ensures Included(ExpandNode(tree, p, nodes[i]), ExpandChildren(tree, nodes, p))
    decreases |nodes|
  {
    if i < |nodes| - 1 {
      NodeIncluded(tree, nodes[..|nodes| - 1], p, i);
    }
  }

  lemma {:induction false} OneIncluded(tree: Tree, node: Declared, paths: seq<Path>, q: Path)
    requires node.Declared? && ExpandEach(tree, node, paths).Some? && q in paths
    ensures Included(ExpandOne(tree, node, q), ExpandEach(tree, node, paths))
    decreases |paths|
  {
    if q != paths[|paths| - 1] {
      OneIncluded(tree, node, paths[..|paths| - 1], q);
    }
  }

  /** What a nested declaration expands to is part of the whole. */
  lemma {:induction false} OccurrenceIncluded(tree: Tree, parent: Path, nodes: seq<Declared>, node: Declared, p: Path)
    requires ExpandChildren(tree, nodes, parent).Some? && Occurs(tree, parent, nodes, node, p)
    ensures node.Declared? && Included(ExpandOne(tree, node, p), ExpandChildren(tree, nodes, parent))
    decreases nodes
  {
    var i, q :| 0 <= i < |nodes| && nodes[i].Declared? && ConcretePath(tree, parent, nodes[i], q)
                && ((node == nodes[i] && p == q) || Occurs(tree, q, nodes[i].children, node, p));
    NodeIncluded(tree, nodes, parent, i);
    ExpandedToConcrete(tree, parent, nodes[i], ExpandPaths(tree, parent, nodes[i].path).value);
    OneIncluded(tree, nodes[i], ExpandPaths(tree, parent, nodes[i].path).value, q);
    if !(node == nodes[i] && p == q) {
      ChildrenIncluded(tree, nodes[i], q);
      OccurrenceIncluded(tree, q, nodes[i].children, node, p);
    }
  }

  lemma {:induction false} ChildrenIncluded(tree: Tree, node: Declared, q: Path)
    requires node.Declared? && ExpandOne(tree, node, q).Some? && node.children != []
    ensures Included(ExpandChildren(tree, node.children, q), ExpandOne(tree, node, q))
  {
  }

  // ---- where chunks come from -------------------------------------------------------------------------------

  /** The declaration `node` occurs at `p`, and `c` is its chunk there: `p` itself or, if it has children, an
      entry of the directory `p`. */
  ghost predicate Yields(tree: Tree, parent: Path, nodes: seq<Declared>, node: Declared, p: Path, c: Path) {
    && Occurs(tree, parent, nodes, node, p) && node.Declared?
    && if node.children == [] then c == p
       else p in tree.dirs && |c| == |p| + 1 && p < c && c[|p|] in tree.dirs[p]
  }

  ghost predicate LeavesPacked(tree: Tree, declared: seq<Declared>, chunks: seq<Path>) {
    forall node, p ::
      (Occurs(tree, [], declared, node, p) && node.Declared? && node.children == [] ==> p in chunks)
  }

  ghost predicate OnlyYielded(tree: Tree, declared: seq<Declared>, chunks: seq<Path>) {
    forall c :: c in chunks ==> exists node, p :: Yields(tree, [], declared, node, p, c)
  }

  /** No path is in two chunks. */
  ghost predicate InOneAtMost(chunks: seq<Path>) {
    forall x, i, j :: In(chunks, i, x) && In(chunks, j, x) ==> i == j
  }

  lemma {:induction false} OneChunkAtMost(chunks: seq<Path>)
    requires Incomparable(chunks)
    ensures InOneAtMost(chunks)
  {
    forall x, i, j | In(chunks, i, x) && In(chunks, j, x) ensures i == j {
      PrefixesAreComparable(chunks[i], chunks[j], x);
      assert Comparable(chunks[j], chunks[i]);
    }
  }

  /** Every path a declaration without children stands for is a chunk, wherever the declaration is nested. */
  lemma {:induction false} LeavesArePacked(tree: Tree, declared: seq<Declared>, chunks: seq<Path>)
    requires ExpandChildren(tree, declared, []) == Some(chunks)
    ensures LeavesPacked(tree, declared, chunks)
  {
    forall node, p | Occurs(tree, [], declared, node, p) && node.Declared? && node.children == [] ensures p in chunks {
      OccurrenceIncluded(tree, [], declared, node, p);
      assert p in ExpandOne(tree, node, p).value;
    }
  }

  lemma {:induction false} OccursHere(tree: Tree, parent: Path, nodes: seq<Declared>, i: nat, q: Path)
    requires i < |nodes| && nodes[i].Declared? && ConcretePath(tree, parent, nodes[i], q)
    ensures Occurs(tree, parent, nodes, nodes[i], q)
    ensures forall node, p :: Occurs(tree, q, nodes[i].children, node, p) ==> Occurs(tree, parent, nodes, node, p)
  {
  }

  lemma {:induction false} FromNode(tree: Tree, nodes: seq<Declared>, parent: Path, c: Path) returns (i: nat)
    requires ExpandChildren(tree, nodes, parent).Some? && c in ExpandChildren(tree, nodes, parent).value
    ensures i < |nodes| && ExpandNode(tree, parent, nodes[i]).Some? && c in ExpandNode(tree, parent, nodes[i]).value
    decreases |nodes|
  {
    var init := nodes[..|nodes| - 1];
    if c in ExpandChildren(tree, init, parent).value {
      i := FromNode(tree, init, parent, c);
    } else {
      i := |nodes| - 1;
    }
  }

  lemma {:induction false} FromPath(tree: Tree, node: Declared, paths: seq<Path>, c: Path) returns (q: Path)
    requires node.Declared? && ExpandEach(tree, node, paths).Some? && c in ExpandEach(tree, node, paths).value
    ensures q in paths && ExpandOne(tree, node, q).Some? && c in ExpandOne(tree, node, q).value
    decreases |paths|
  {
    var init := paths[..|paths| - 1];
    if c in ExpandEach(tree, node, init).value {
      q := FromPath(tree, node, init, c);
    } else {
      q := paths[|paths| - 1];
    }
  }

  /** A chunk of a parent directory is left over or comes from a child. */
  lemma {:induction false} FromParent(tree: Tree, node: Declared, q: Path, c: Path)
    requires node.Declared? && node.children != [] && ExpandOne(tree, node, q).Some?
             && c in ExpandOne(tree, node, q).value
    ensures ExpandChildren(tree, node.children, q).Some?
    ensures c in ExpandChildren(tree, node.children, q).value
            || (q in tree.dirs && |c| == |q| + 1 && q < c && c[|q|] in tree.dirs[q])
  {
    var children := ExpandChildren(tree, node.children, q).value;
    if q in tree.dirs {
      OthersAmong(q, tree.dirs[q], Taken(q, children));
    }
  }

  lemma {:induction false} ChunkIsYielded(tree: Tree, parent: Path, nodes: seq<Declared>, c: Path)
    returns (node: Declared, p: Path)
    requires ExpandChildren(tree, nodes, parent).Some? && c in ExpandChildren(tree, nodes, parent).value
    ensures Yields(tree, parent, nodes, node, p, c)
    decreases nodes
  {
    var i := FromNode(tree, nodes, parent, c);
    node := nodes[i];
    var paths := ExpandPaths(tree, parent, node.path).value;
    p := FromPath(tree, node, paths, c);
    ExpandedToConcrete(tree, parent, node, paths);
    OccursHere(tree, parent, nodes, i, p);
    if node.children != [] {
      FromParent(tree, node, p, c);
      if c in ExpandChildren(tree, node.children, p).value {
        node, p := ChunkIsYielded(tree, p, node.children, c);
      }
    }
  }

  /** Nothing else is a chunk. */
  lemma {:induction false} ChunksAreYielded(tree: Tree, declared: seq<Declared>, chunks: seq<Path>)
    requires ExpandChildren(tree, declared, []) == Some(chunks)
    ensures OnlyYielded(tree, declared, chunks)
  {
    forall c | c in chunks ensures exists node, p :: Yields(tree, [], declared, node, p, c) {
      var node, p := ChunkIsYielded(tree, [], declared, c);
    }
  }

  /** A successful packing of a declared pattern without children, from what the pattern matches: every match
      is a chunk, and everything at or below a match lies in this chunk and in no other. */
  lemma {:induction false} MatchIsPackedOnce(tree: Tree, declared: seq<Declared>, chunks: seq<Path>, i: nat, q: Path,
                                             x: Path)
    returns (k: int)
    requires ExpandChildren(tree, declared, []) == Some(chunks) && Incomparable(chunks)
    requires i < |declared| && declared[i].Declared? && declared[i].children == []
    requires var resolved := ResolveChunkPath([], declared[i].path);
             && resolved.Some? && HasGlobMeta(resolved.value)
             && tree.glob(resolved.value).Some? && q in tree.glob(resolved.value).value
    requires q <= x
    ensures In(chunks, k, x) && chunks[k] == q && forall j :: In(chunks, j, x) ==> j == k
  {
    OccursHere(tree, [], declared, i, q);
    k := LeafIsPackedOnce(tree, declared, chunks, declared[i], q, x);
  }

  /** The same for every declaration without children, at any depth and below matches of patterns. */
  lemma {:induction false} LeafIsPackedOnce(tree: Tree, declared: seq<Declared>, chunks: seq<Path>, node: Declared,
                                            p: Path, x: Path)
    returns (k: int)
    requires ExpandChildren(tree, declared, []) == Some(chunks) && Incomparable(chunks)
    requires Occurs(tree, [], declared, node, p) && node.Declared? && node.children == [] && p <= x
    ensures In(chunks, k, x) && chunks[k] == p && forall j :: In(chunks, j, x) ==> j == k
  {
    LeavesArePacked(tree, declared, chunks);
    k :| 0 <= k < |chunks| && chunks[k] == p;
    forall j | In(chunks, j, x) ensures j == k {
      PrefixesAreComparable(chunks[k], chunks[j], x);
      assert Comparable(chunks[j], chunks[k]);
    }
  }

  /** `x` lies below the directory `p` at which `node` is expanded, in an entry that no child lies in. */
  ghost predicate LeftOver(tree: Tree, node: Declared, p: Path, x: Path) {
    && node.Declared? && node.children != [] && p in tree.dirs && Exists(tree, x) && p < x
    && ExpandChildren(tree, node.children, p).Some? && StrictlyWithin(ExpandChildren(tree, node.children, p).value, p)
    && x[|p|] !in Taken(p, ExpandChildren(tree, node.children, p).value)
  }

  /** However deep a declaration is nested: what its children leave over is in exactly one chunk of the
      whole packing, the one of its entry. */
  lemma {:induction false} LeftOverIsPackedOnce(tree: Tree, declared: seq<Declared>, chunks: seq<Path>, node: Declared,
                                                p: Path, x: Path)
    returns (i: int)
    requires ValidTree(tree) && ExpandChildren(tree, declared, []) == Some(chunks) && Incomparable(chunks)
    requires Occurs(tree, [], declared, node, p) && LeftOver(tree, node, p, x)
    ensures In(chunks, i, x) && chunks[i] == p + [x[|p|]] && forall j :: In(chunks, j, x) ==> j == i
  {
    OccurrenceIncluded(tree, [], declared, node, p);
    var children := ExpandChildren(tree, node.children, p).value;
    var rest := Remainder(tree, p, children).value;
    var k := LeftOverInOneChunk(tree, p, children, rest, x);
    HeldByRest(tree, p, children, rest, x, k);
    var chunk := p + [x[|p|]];
    assert (rest + children)[k] == chunk && chunk in ExpandOne(tree, node, p).value;
    i :| 0 <= i < |chunks| && chunks[i] == chunk;
    forall j | In(chunks, j, x) ensures j == i {
      PrefixesAreComparable(chunks[i], chunks[j], x);
      assert Comparable(chunks[j], chunks[i]);
    }
  }
}
