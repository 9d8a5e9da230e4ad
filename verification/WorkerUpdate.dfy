/** Updating a runtime in place from a pulled scroll: the new tree is merged into the old one, and
    data under a skip path is left alone. */
module WorkerUpdate {
  import opened Domain
  import opened Paths
  import opened SkippedChunks
  import Chunks

  // ---- trees ------------------------------------------------------------------------------------------

  datatype Entry = File(content: string) | Directory

  /** The pulled tree, its directories in the order a walk visits them. */
  datatype Node = FileNode(content: string) | DirNode(children: seq<Child>)
  datatype Child = Child(name: string, node: Node)

  /** The tree that is updated. */
  type Files = map<Path, Entry>

  function At(files: Files, p: Path): Option<Entry> {
    if p in files then Some(files[p]) else None
  }

  /** Everything lies in a directory. */
  ghost predicate TreeShaped(files: Files) {
    forall p :: p in files && p != [] ==> At(files, p[..|p| - 1]) == Some(Directory)
  }

  function Find(children: seq<Child>, name: string): Option<Node> {
    if children == [] then None
    else if children[|children| - 1].name == name then Some(children[|children| - 1].node)
    else Find(children[..|children| - 1], name)
  }

  function Kind(node: Node): Entry {
    if node.FileNode? then File(node.content) else Directory
  }

  function Lookup(node: Node, r: Path): Option<Entry>
    decreases |r|, 1
  {
    if r == [] then Some(Kind(node))
    else if node.FileNode? then None
    else LookupIn(node.children, r)
  }

  function LookupIn(children: seq<Child>, r: Path): Option<Entry>
    requires r != []
    decreases |r|, 0
  {
    var child := Find(children, r[0]);
    if child.None? then None else Lookup(child.value, r[1..])
  }

  ghost predicate DistinctNames(children: seq<Child>) {
    forall i, j :: 0 <= i < j < |children| ==> children[i].name != children[j].name
  }

  ghost predicate ValidNode(node: Node) {
    node.DirNode? ==> ValidChildren(node.children)
  }

  ghost predicate ValidChildren(children: seq<Child>) {
    DistinctNames(children) && forall i :: 0 <= i < |children| ==> ValidNode(children[i].node)
  }

  // ---- merging ------------------------------------------------------------------------------------------------

  /** What copying a node to `at` wants to be at `p`: the walk without its skipped parts, seen as a
      filter on the whole tree. */
  function Wanted(node: Node, rel: Path, at: Path, skip: set<Place>, p: Path): Option<Entry> {
    if at <= p && !Skipped(rel + p[|at|..], skip) then Lookup(node, p[|at|..]) else None
  }

  /** The same for the children of a directory. */
  function WantedIn(children: seq<Child>, rel: Path, at: Path, skip: set<Place>, p: Path): Option<Entry> {
    if at < p && !Skipped(rel + p[|at|..], skip) then LookupIn(children, p[|at|..]) else None
  }

  /** A file can replace nothing or a file, a directory nothing or a directory. */
  predicate Fits(present: Option<Entry>, wanted: Option<Entry>) {
    present.None? || wanted.None? || (present.value.Directory? <==> wanted.value.Directory?)
  }

  function Or(wanted: Option<Entry>, otherwise: Option<Entry>): Option<Entry> {
    if wanted.Some? then wanted else otherwise
  }

  /** A file of the first children is wanted where they want it, a file of the next one elsewhere. */
  lemma WantedNext(children: seq<Child>, i: nat, rel: Path, at: Path, skip: set<Place>, p: Path)
    requires DistinctNames(children) && i < |children|
    ensures WantedIn(children[..i + 1], rel, at, skip, p)
         == Or(Wanted(children[i].node, rel + [children[i].name], at + [children[i].name], skip, p),
               WantedIn(children[..i], rel, at, skip, p))
    ensures at + [children[i].name] <= p ==> WantedIn(children[..i], rel, at, skip, p) == None
  {
    var name := children[i].name;
    assert children[..i + 1][..i] == children[..i];
    if at < p {
      var r := p[|at|..];
      assert r[0] == p[|at|];
      if p[|at|] == name {
        NotFound(children[..i], name);
        assert at + [name] <= p;
        assert r[1..] == p[|at + [name]|..];
        assert rel + r == rel + [name] + p[|at + [name]|..];
      } else {
        assert !(at + [name] <= p);
      }
    }
  }

  lemma {:induction false} NotFound(children: seq<Child>, name: string)
    requires forall i :: 0 <= i < |children| ==> children[i].name != name
    ensures Find(children, name) == None
    decreases |children|
  {
    if children != [] {
      NotFound(children[..|children| - 1], name);
    }
  }

  /** What a directory wants: itself, and what its children want. */
  lemma WantedDirectory(node: Node, rel: Path, at: Path, skip: set<Place>, p: Path)
    requires node.DirNode? && !Skipped(rel, skip)
    ensures Wanted(node, rel, at, skip, p)
         == if p == at then Some(Directory) else WantedIn(node.children, rel, at, skip, p)
  {
    assert p == at ==> rel + p[|at|..] == rel;
    assert at < p ==> p[|at|..] != [];
  }

  lemma WantedFile(node: Node, rel: Path, at: Path, skip: set<Place>, p: Path)
    requires node.FileNode? && !Skipped(rel, skip)
    ensures Wanted(node, rel, at, skip, p) == if p == at then Some(File(node.content)) else None
  {
    assert p == at ==> rel + p[|at|..] == rel;
    assert at < p ==> p[|at|..] != [];
  }

  lemma WantedSkipped(node: Node, rel: Path, at: Path, skip: set<Place>, p: Path)
    requires Skipped(rel, skip)
    ensures Wanted(node, rel, at, skip, p) == None
  {
    if at <= p {
      SkippedBelow(rel, rel + p[|at|..], skip);
    }
  }

  // ---- copying, for any choice of what is wanted -----------------------------------------------------------------

  /** What is wanted where. */
  type Want = Path -> Option<Entry>

  function OfNode(node: Node, rel: Path, at: Path, skip: set<Place>): Want {
    p => Wanted(node, rel, at, skip, p)
  }

  function OfChildren(children: seq<Child>, rel: Path, at: Path, skip: set<Place>): Want {
    p => WantedIn(children, rel, at, skip, p)
  }

  function Only(at: Path, entry: Entry): Want {
    (p: Path) => if p == at then Some(entry) else None
  }

  const NOTHING: Want := (p: Path) => None

  ghost predicate AllFit(want: Want, before: Files) {
    forall p :: Fits(At(before, p), want(p))
  }

  /** Everything wanted is there, everything else is as before. */
  ghost predicate Copied(want: Want, before: Files, after: Files) {
    forall p :: At(after, p) == Or(want(p), At(before, p))
  }

  /** What is not wanted is as before. */
  ghost predicate Spared(want: Want, before: Files, after: Files) {
    forall p :: want(p).None? ==> At(after, p) == At(before, p)
  }

  /** `both` wants what `first` and `second` want, and these never want the same path. */
  ghost predicate Joint(first: Want, second: Want, both: Want) {
    forall p :: both(p) == Or(second(p), first(p)) && (first(p).None? || second(p).None?)
  }

  lemma CopiedSpares(want: Want, before: Files, after: Files)
    requires Copied(want, before, after)
    ensures Spared(want, before, after)
  {
  }

  lemma CopyBoth(first: Want, second: Want, both: Want, before: Files, middle: Files, after: Files)
    requires Joint(first, second, both) && AllFit(first, before) && Copied(first, before, middle)
    ensures AllFit(second, middle) <==> AllFit(both, before)
    ensures Copied(second, middle, after) ==> Copied(both, before, after)
    ensures Spared(second, middle, after) ==> Spared(both, before, after)
  {
    forall p ensures Fits(At(middle, p), second(p)) <==> Fits(At(before, p), both(p)) {
      assert both(p) == Or(second(p), first(p));
      assert Fits(At(before, p), first(p));
      assert At(middle, p) == Or(first(p), At(before, p));
    }
  }

  lemma NextIsJoint(children: seq<Child>, i: nat, rel: Path, at: Path, skip: set<Place>)
    requires DistinctNames(children) && i < |children|
    ensures Joint(OfChildren(children[..i], rel, at, skip),
                  OfNode(children[i].node, rel + [children[i].name], at + [children[i].name], skip),
                  OfChildren(children[..i + 1], rel, at, skip))
  {
    forall p ensures var w, v := WantedIn(children[..i], rel, at, skip, p),
                                 Wanted(children[i].node, rel + [children[i].name], at + [children[i].name], skip, p);
                     WantedIn(children[..i + 1], rel, at, skip, p) == Or(v, w) && (w.None? || v.None?) {
      WantedNext(children, i, rel, at, skip, p);
    }
  }

  lemma DirectoryIsJoint(node: Node, rel: Path, at: Path, skip: set<Place>)
    requires node.DirNode? && !Skipped(rel, skip)
    ensures Joint(Only(at, Directory), OfChildren(node.children, rel, at, skip), OfNode(node, rel, at, skip))
  {
    forall p
      ensures Wanted(node, rel, at, skip, p) == if p == at then Some(Directory)
              else WantedIn(node.children, rel, at, skip, p)
    {
      WantedDirectory(node, rel, at, skip, p);
    }
  }

  lemma FileIsOnly(node: Node, rel: Path, at: Path, skip: set<Place>)
    requires node.FileNode? && !Skipped(rel, skip)
    ensures forall p :: OfNode(node, rel, at, skip)(p) == Only(at, File(node.content))(p)
  {
    forall p ensures Wanted(node, rel, at, skip, p) == Only(at, File(node.content))(p) {
      WantedFile(node, rel, at, skip, p);
    }
  }

  lemma SkippedIsNothing(node: Node, rel: Path, at: Path, skip: set<Place>)
    requires Skipped(rel, skip)
    ensures forall p :: OfNode(node, rel, at, skip)(p) == NOTHING(p)
  {
    forall p ensures Wanted(node, rel, at, skip, p) == None {
      WantedSkipped(node, rel, at, skip, p);
    }
  }

  lemma SameWant(want: Want, same: Want, before: Files, after: Files)
    requires forall p :: want(p) == same(p)
    ensures AllFit(want, before) <==> AllFit(same, before)
    ensures Copied(want, before, after) <==> Copied(same, before, after)
    ensures Spared(want, before, after) <==> Spared(same, before, after)
  {
  }

  /** Writing one entry into a directory. */
  lemma PutOne(files: Files, at: Path, entry: Entry)
    requires TreeShaped(files) && at != [] && At(files, at[..|at| - 1]) == Some(Directory)
    ensures AllFit(Only(at, entry), files) <==> Fits(At(files, at), Some(entry))
    ensures Copied(Only(at, entry), files, files[at := entry])
    ensures Fits(At(files, at), Some(entry)) ==> TreeShaped(files[at := entry])
  {
    if Fits(At(files, at), Some(entry)) {
      var files' := files[at := entry];
      forall p | p in files' && p != [] ensures At(files', p[..|p| - 1]) == Some(Directory) {
        assert p != at ==> p in files;
      }
    }
  }

  lemma PutNothing(files: Files)
    ensures AllFit(NOTHING, files) && Copied(NOTHING, files, files)
  {
  }

  class Target {
    var files: Files

    constructor (files: Files)
      ensures this.files == files
    {
      this.files := files;
    }

    /** `os.MkdirAll` where the parent is there, and creating a file in it: fails on a clash. */
    method Put(at: Path, entry: Entry) returns (ok: bool)
      requires at != [] && TreeShaped(files) && At(files, at[..|at| - 1]) == Some(Directory)
      modifies `files
      ensures TreeShaped(files)
      ensures ok <==> AllFit(Only(at, entry), old(files))
      ensures ok ==> Copied(Only(at, entry), old(files), files) && At(files, at) == Some(entry)
      ensures !ok ==> files == old(files)
    {
      PutOne(files, at, entry);
      if at in files && (files[at].Directory? != entry.Directory?) {
        return false;
      }
      files := files[at := entry];
      return true;
    }

    /** One entry of the walk of `copyDataUpdate`, and what the walk visits below it. With no skip
        paths it is `copyPath`. Nothing but what the filtered tree wants is touched, even when the
        copy fails half-way; it fails exactly when a file and a directory clash. */
    method Copy(node: Node, rel: Path, at: Path, skip: set<Place>) returns (ok: bool)
      requires ValidNode(node) && at != [] && TreeShaped(files) && At(files, at[..|at| - 1]) == Some(Directory)
      modifies `files
      ensures TreeShaped(files)
      ensures ok <==> AllFit(OfNode(node, rel, at, skip), old(files))
      ensures ok ==> Copied(OfNode(node, rel, at, skip), old(files), files)
      ensures Spared(OfNode(node, rel, at, skip), old(files), files)
      decreases node, 1
    {
      ghost var want := OfNode(node, rel, at, skip);
      ghost var before := files;
      var skipped := ShouldSkip(rel, skip);
      if skipped {
        SkippedIsNothing(node, rel, at, skip);
        PutNothing(files);
        SameWant(want, NOTHING, before, files);
        return true;
      }
      if node.FileNode? {
        FileIsOnly(node, rel, at, skip);
        ok := Put(at, File(node.content));
        SameWant(want, Only(at, File(node.content)), before, files);
        return;
      }
      DirectoryIsJoint(node, rel, at, skip);
      ok := Put(at, Directory);
      if !ok {
        DirectoryClashes(node, rel, at, skip, before);
        return false;
      }
      ghost var middle := files;
      ok := CopyChildren(node.children, rel, at, skip);
      CopyBoth(Only(at, Directory), OfChildren(node.children, rel, at, skip), want, before, middle, files);
    }

    /** The entries of a directory, in order. */
    method CopyChildren(children: seq<Child>, rel: Path, at: Path, skip: set<Place>) returns (ok: bool)
      requires ValidChildren(children) && TreeShaped(files) && At(files, at) == Some(Directory)
      modifies `files
      ensures TreeShaped(files) && At(files, at) == Some(Directory)
      ensures ok <==> AllFit(OfChildren(children, rel, at, skip), old(files))
      ensures ok ==> Copied(OfChildren(children, rel, at, skip), old(files), files)
      ensures Spared(OfChildren(children, rel, at, skip), old(files), files)
      decreases children, 0
    {
      ghost var before := files;
      NoChildren(rel, at, skip, files);
      for i := 0 to |children|
        invariant TreeShaped(files) && At(files, at) == Some(Directory)
        invariant AllFit(OfChildren(children[..i], rel, at, skip), before)
        invariant Copied(OfChildren(children[..i], rel, at, skip), before, files)
      {
        var name := children[i].name;
        assert (at + [name])[..|at + [name]| - 1] == at;
        ghost var middle := files;
        ok := Copy(children[i].node, rel + [name], at + [name], skip);
        NextIsJoint(children, i, rel, at, skip);
        CopyBoth(OfChildren(children[..i], rel, at, skip), OfNode(children[i].node, rel + [name], at + [name], skip),
                 OfChildren(children[..i + 1], rel, at, skip), before, middle, files);
        ParentStays(children[i].node, rel + [name], at + [name], skip, middle, files);
        if !ok {
          FirstFail(children, i, rel, at, skip, before, files);
          return false;
        }
      }
      assert children[..|children|] == children;
      CopiedSpares(OfChildren(children, rel, at, skip), before, files);
      return true;
    }

    /** `os.RemoveAll`. */
    method RemoveAll(p: Path)
      requires TreeShaped(files) && p != []
      modifies `files
      ensures TreeShaped(files)
      ensures forall q :: At(files, q) == if p <= q then None else At(old(files), q)
    {
      files := map q | q in files && !(p <= q) :: files[q];
    }

    /** `copyDataUpdate`: the data directory is there afterwards in any case; if the pulled one is a
        directory, it is merged in. */
    method CopyDataUpdate(node: Node, skip: set<Place>) returns (ok: bool)
      requires ValidNode(node) && TreeShaped(files) && At(files, []) == Some(Directory)
      modifies `files
      ensures TreeShaped(files)
      ensures ok <==> DataFits(node, skip, old(files))
      ensures ok ==> forall p :: At(files, p) == DataUpdated(node, skip, old(files), p)
      ensures forall p :: p != DATA && DataWanted(node, skip, p).None? ==> At(files, p) == At(old(files), p)
    {
      ghost var before := files;
      assert DATA[..|DATA| - 1] == [];
      ok := Put(DATA, Directory);
      if !ok || node.FileNode? {
        return;
      }
      ghost var middle := files;
      ok := CopyChildren(node.children, [], DATA, skip);
      forall p
        ensures DataWanted(node, skip, p) == OfChildren(node.children, [], DATA, skip)(p)
                && (DATA == p ==> DataWanted(node, skip, p).None?)
      {
      }
    }

    /** Any other entry is replaced by an exact copy. */
    method ReplaceEntry(name: string, node: Node)
      requires ValidNode(node) && TreeShaped(files) && At(files, []) == Some(Directory)
      modifies `files
      ensures TreeShaped(files)
      ensures forall p :: At(files, p) == if [name] <= p then Lookup(node, p[1..]) else At(old(files), p)
    {
      RemoveAll([name]);
      ghost var cleared := files;
      assert [name][..0] == [];
      WantedWithoutSkips(node, [name]);
      var ok := Copy(node, [], [name], {});
    }

    /** One entry of the pulled root. */
    method UpdateEntry(child: Child, skip: set<Place>) returns (ok: bool)
      requires ValidNode(child.node) && TreeShaped(files) && At(files, []) == Some(Directory)
      modifies `files
      ensures TreeShaped(files) && At(files, []) == Some(Directory)
      ensures ok <==> child.name == DATA[0] ==> DataFits(child.node, skip, old(files))
      ensures ok ==> EntryDone(child, skip, old(files), files)
      ensures SkippedKept(skip, old(files), files)
    {
      ghost var before := files;
      if child.name == DATA[0] {
        ok := CopyDataUpdate(child.node, skip);
        DataKeepsSkipped(child.node, skip, before, files);
        return;
      }
      ReplaceEntry(child.name, child.node);
      return true;
    }

    /** `mergePulledRoot`. It fails exactly when the pulled root is no directory, the target root is a
        file, or a file and a directory clash in the data that is not skipped. Skipped data is kept
        even then. */
    method MergePulledRoot(source: Node, skip: set<Place>) returns (ok: bool)
      requires ValidNode(source) && TreeShaped(files)
      modifies `files
      ensures TreeShaped(files)
      ensures ok <==> UpdateFits(source, skip, old(files))
      ensures ok ==> UpdateDone(source.children, skip, old(files), files)
      ensures SkippedKept(skip, old(files), files)
    {
      ghost var before := files;
      if [] in files && files[[]].File? {
        return false;
      }
      files := files[[] := Directory];
      UpdateStarts(skip, before);
      if source.FileNode? {
        return false;
      }
      var children := source.children;
      for i := 0 to |children|
        invariant TreeShaped(files) && At(files, []) == Some(Directory)
        invariant UpdateDone(children[..i], skip, before, files) && SkippedKept(skip, before, files)
        invariant ChildrenFit(children[..i], skip, before)
      {
        ghost var middle := files;
        ok := UpdateEntry(children[i], skip);
        FitsNext(children, i, skip, before, middle);
        SkippedKeptOn(skip, before, middle, files);
        if !ok {
          return false;
        }
        UpdateNext(children, i, skip, before, middle, files);
      }
      assert children[..|children|] == children;
      return true;
    }

    /** `pullWorkerUpdate` after the pull: the pulled scroll's own chunks say what is skipped. */
    method UpdateFromPull(source: Node, chunks: seq<Chunks.Declared>) returns (ok: bool)
      requires ValidNode(source) && TreeShaped(files)
      modifies `files
      ensures TreeShaped(files)
      ensures ok <==> UpdateFits(source, SkipPaths(Inside([]), chunks), old(files))
      ensures ok ==> UpdateDone(source.children, SkipPaths(Inside([]), chunks), old(files), files)
      ensures SkippedKept(SkipPaths(Inside([]), chunks), old(files), files)
    {
      var skip := CollectSkipPaths({}, Inside([]), chunks);
      assert skip == SkipPaths(Inside([]), chunks);
      ok := MergePulledRoot(source, skip);
    }
  }

  /** With literal chunk declarations, what is packed in a chunk that updates skip survives an update,
      even one that fails. */
  lemma {:induction false} PackedIsKept(tree: Chunks.Tree, declared: seq<Chunks.Declared>, before: Files, after: Files,
                                        p: Path, x: Path)
    requires Chunks.ExpandChildren(tree, declared, []).Some? && Literal([], declared)
    requires SkippedKept(SkipPaths(Inside([]), declared), before, after)
    requires p in PackedSkips(tree, [], declared) && DATA + p <= x
    ensures At(after, x) == At(before, x)
  {
    PackedAreInside(tree, [], declared);
    SkippedIfPacked(tree, declared, x[1..]);
    assert DATA + p == DATA + (DATA + p)[1..] && (DATA + p)[1..] == p && x[1..][..|p|] == p;
    assert DATA < x by {
      assert x[..1] == (DATA + p)[..1] == DATA;
    }
  }

  lemma UpdateStarts(skip: set<Place>, before: Files)
    requires TreeShaped(before) && Fits(At(before, []), Some(Directory))
    ensures TreeShaped(before[[] := Directory])
    ensures UpdateDone([], skip, before, before[[] := Directory]) && SkippedKept(skip, before, before[[] := Directory])
  {
  }

  lemma SkippedKeptOn(skip: set<Place>, before: Files, middle: Files, after: Files)
    requires SkippedKept(skip, before, middle) && SkippedKept(skip, middle, after)
    ensures SkippedKept(skip, before, after)
  {
  }

  ghost predicate ChildrenFit(children: seq<Child>, skip: set<Place>, before: Files) {
    Find(children, DATA[0]).Some? ==> DataFits(Find(children, DATA[0]).value, skip, before)
  }

  /** The data fits after some entries have been updated exactly when it does in the end. */
  lemma FitsNext(children: seq<Child>, i: nat, skip: set<Place>, before: Files, middle: Files)
    requires DistinctNames(children) && i < |children|
    requires UpdateDone(children[..i], skip, before, middle) && ChildrenFit(children[..i], skip, before)
    ensures ChildrenFit(children[..i + 1], skip, before) <==>
              (children[i].name == DATA[0] ==> DataFits(children[i].node, skip, middle))
    ensures !ChildrenFit(children[..i + 1], skip, before) ==> !ChildrenFit(children, skip, before)
  {
    assert children[..i + 1][..i] == children[..i];
    if children[i].name == DATA[0] {
      DataUntouched(children, i, skip, before, middle);
      FindLater(children, i);
    }
  }

  lemma WantedWithoutSkips(node: Node, at: Path)
    ensures forall p :: OfNode(node, [], at, {})(p) == if at <= p then Lookup(node, p[|at|..]) else None
  {
  }

  /** The data under a skip path is as before. */
  ghost predicate SkippedKept(skip: set<Place>, before: Files, after: Files) {
    forall p: Path :: DATA < p && Skipped(p[1..], skip) ==> At(after, p) == At(before, p)
  }

  ghost predicate EntryDone(child: Child, skip: set<Place>, before: Files, after: Files) {
    forall p :: At(after, p) == EntryUpdated(child, skip, before, p)
  }

  ghost predicate UpdateDone(children: seq<Child>, skip: set<Place>, before: Files, after: Files) {
    forall p :: At(after, p) == Updated(children, skip, before, p)
  }

  lemma DataKeepsSkipped(node: Node, skip: set<Place>, before: Files, after: Files)
    requires forall p :: p != DATA && DataWanted(node, skip, p).None? ==> At(after, p) == At(before, p)
    ensures SkippedKept(skip, before, after)
  {
    forall p: Path | DATA < p && Skipped(p[1..], skip) ensures DataWanted(node, skip, p).None? {
      assert [] + p[1..] == p[1..];
    }
  }

  lemma UpdateNext(children: seq<Child>, i: nat, skip: set<Place>, before: Files, middle: Files, after: Files)
    requires DistinctNames(children) && i < |children|
    requires UpdateDone(children[..i], skip, before, middle) && EntryDone(children[i], skip, middle, after)
    ensures UpdateDone(children[..i + 1], skip, before, after)
  {
    assert children[..i + 1][..i] == children[..i];
    NotFound(children[..i], children[i].name);
    forall p ensures At(after, p) == Updated(children[..i + 1], skip, before, p) {
      assert At(middle, p) == Updated(children[..i], skip, before, p);
    }
  }

  /** The entries before the data directory leave it alone. */
  lemma DataUntouched(children: seq<Child>, i: nat, skip: set<Place>, before: Files, middle: Files)
    requires DistinctNames(children) && i < |children| && children[i].name == DATA[0]
    requires UpdateDone(children[..i], skip, before, middle)
    ensures DataFits(children[i].node, skip, middle) <==> DataFits(children[i].node, skip, before)
  {
    NotFound(children[..i], DATA[0]);
    forall p: Path | DATA <= p ensures At(middle, p) == At(before, p) {
      assert p[0] == DATA[0];
      assert At(middle, p) == Updated(children[..i], skip, before, p);
    }
    SameDataFits(children[i].node, skip, before, middle);
  }

  const DATA: Path := ["data"]

  /** What the pulled data wants below the data directory. */
  function DataWanted(node: Node, skip: set<Place>, p: Path): Option<Entry> {
    if node.FileNode? then None else WantedIn(node.children, [], DATA, skip, p)
  }

  function DataUpdated(node: Node, skip: set<Place>, before: Files, p: Path): Option<Entry> {
    if p == DATA then Some(Directory) else Or(DataWanted(node, skip, p), At(before, p))
  }

  ghost predicate DataFits(node: Node, skip: set<Place>, before: Files) {
    Fits(At(before, DATA), Some(Directory)) && forall p :: Fits(At(before, p), DataWanted(node, skip, p))
  }

  function EntryUpdated(child: Child, skip: set<Place>, before: Files, p: Path): Option<Entry> {
    if p == [] || p[0] != child.name then At(before, p)
    else if child.name == DATA[0] then DataUpdated(child.node, skip, before, p)
    else Lookup(child.node, p[1..])
  }

  /** The tree after an update: entries the source does not have stay, other entries are exact copies,
      and the data directory is merged. */
  function Updated(children: seq<Child>, skip: set<Place>, before: Files, p: Path): Option<Entry> {
    if p == [] then Some(Directory)
    else if Find(children, p[0]).None? then At(before, p)
    else EntryUpdated(Child(p[0], Find(children, p[0]).value), skip, before, p)
  }

  ghost predicate UpdateFits(source: Node, skip: set<Place>, before: Files) {
    && Fits(At(before, []), Some(Directory)) && source.DirNode?
    && ChildrenFit(source.children, skip, before)
  }

  /** Only what lies in the data directory decides whether the data fits. */
  lemma SameDataFits(node: Node, skip: set<Place>, before: Files, middle: Files)
    requires forall p: Path :: DATA <= p ==> At(middle, p) == At(before, p)
    ensures DataFits(node, skip, middle) <==> DataFits(node, skip, before)
  {
  }

  lemma {:induction false} FindLater(children: seq<Child>, i: nat)
    requires DistinctNames(children) && i < |children|
    ensures Find(children, children[i].name) == Some(children[i].node)
    decreases |children|
  {
    if i < |children| - 1 {
      FindLater(children[..|children| - 1], i);
    }
  }

  lemma NoChildren(rel: Path, at: Path, skip: set<Place>, files: Files)
    ensures AllFit(OfChildren([], rel, at, skip), files) && Copied(OfChildren([], rel, at, skip), files, files)
  {
    forall p ensures WantedIn([], rel, at, skip, p) == None {
    }
  }

  lemma DirectoryClashes(node: Node, rel: Path, at: Path, skip: set<Place>, before: Files)
    requires node.DirNode? && !Skipped(rel, skip) && !AllFit(Only(at, Directory), before)
    ensures !AllFit(OfNode(node, rel, at, skip), before) && Spared(OfNode(node, rel, at, skip), before, before)
  {
    var p :| !Fits(At(before, p), Only(at, Directory)(p));
    WantedDirectory(node, rel, at, skip, p);
    assert !Fits(At(before, p), OfNode(node, rel, at, skip)(p));
  }

  /** Copying to a place does not touch the directory above it. */
  lemma ParentStays(node: Node, rel: Path, at: Path, skip: set<Place>, before: Files, after: Files)
    requires at != [] && Spared(OfNode(node, rel, at, skip), before, after)
    ensures At(after, at[..|at| - 1]) == At(before, at[..|at| - 1])
  {
    assert OfNode(node, rel, at, skip)(at[..|at| - 1]) == None;
  }

  /** When the first children clash or spoil nothing else, neither do all of them. */
  lemma FirstFail(children: seq<Child>, i: nat, rel: Path, at: Path, skip: set<Place>, before: Files, after: Files)
    requires DistinctNames(children) && i < |children|
    requires !AllFit(OfChildren(children[..i + 1], rel, at, skip), before)
    requires Spared(OfChildren(children[..i + 1], rel, at, skip), before, after)
    ensures !AllFit(OfChildren(children, rel, at, skip), before)
    ensures Spared(OfChildren(children, rel, at, skip), before, after)
    decreases |children| - i
  {
    if i + 1 == |children| {
      assert children[..i + 1] == children;
    } else {
      NextIsJoint(children, i + 1, rel, at, skip);
      FailureGrows(OfChildren(children[..i + 1], rel, at, skip),
                   OfNode(children[i + 1].node, rel + [children[i + 1].name], at + [children[i + 1].name], skip),
                   OfChildren(children[..i + 2], rel, at, skip), before, after);
      FirstFail(children, i + 1, rel, at, skip, before, after);
    }
  }

  lemma FailureGrows(first: Want, second: Want, both: Want, before: Files, after: Files)
    requires Joint(first, second, both) && !AllFit(first, before) && Spared(first, before, after)
    ensures !AllFit(both, before) && Spared(both, before, after)
  {
    var p :| !Fits(At(before, p), first(p));
    assert !Fits(At(before, p), both(p));
    forall q | both(q).None? ensures At(after, q) == At(before, q) {
      assert first(q).None?;
    }
  }

  lemma LookupBelow(source: Node, name: string, r: Path)
    requires source.DirNode?
    ensures Lookup(source, [name] + r)
         == if Find(source.children, name).None? then None else Lookup(Find(source.children, name).value, r)
  {
    assert ([name] + r)[0] == name && ([name] + r)[1..] == r;
  }

  /** What a successful update does to data: at or below a skip path, or absent from the source, it is
      unchanged; otherwise it is what the source has. */
  lemma DataFrames(source: Node, skip: set<Place>, before: Files, after: Files, r: Path)
    requires source.DirNode? && r != [] && UpdateDone(source.children, skip, before, after)
    ensures Skipped(r, skip) || Lookup(source, DATA + r).None? ==> At(after, DATA + r) == At(before, DATA + r)
    ensures !Skipped(r, skip) && Lookup(source, DATA + r).Some? ==> At(after, DATA + r) == Lookup(source, DATA + r)
  {
    var p := DATA + r;
    assert p[0] == DATA[0] && p[1..] == r && [] + r == r;
    assert At(after, p) == Updated(source.children, skip, before, p);
    LookupBelow(source, DATA[0], r);
    var data := Find(source.children, DATA[0]);
    if data.Some? {
      DataWantedBelow(data.value, skip, r);
    }
  }

  lemma DataWantedBelow(node: Node, skip: set<Place>, r: Path)
    requires r != []
    ensures DataWanted(node, skip, DATA + r) == if Skipped(r, skip) then None else Lookup(node, r)
  {
    assert (DATA + r)[1..] == r && [] + r == r;
  }

  /** What a successful update does outside the data directory: entries of the source are exact copies,
      the others are unchanged. */
  lemma EntryFrames(source: Node, skip: set<Place>, before: Files, after: Files, name: string, r: Path)
    requires source.DirNode? && name != DATA[0] && UpdateDone(source.children, skip, before, after)
    ensures At(after, [name] + r) == if Lookup(source, [name]).Some? then Lookup(source, [name] + r)
            else At(before, [name] + r)
  {
    var p := [name] + r;
    assert p[0] == name && p[1..] == r;
    assert At(after, p) == Updated(source.children, skip, before, p);
    LookupBelow(source, name, r);
    LookupBelow(source, name, []);
    assert [name] + [] == [name];
  }
}
