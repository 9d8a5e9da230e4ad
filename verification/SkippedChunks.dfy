/** Which paths an update leaves alone, against what is packed for the same chunk declarations: the
    update joins the declared paths as they are written, packing resolves and expands them. */
module SkippedChunks {
  import opened Domain
  import opened Paths
  import opened Chunks

  // ---- skip paths ---------------------------------------------------------------------------------------

  /** Where a chunk path leads: below the data directory, or to an absolute path of the machine, which
      no path inside the data directory is equal to or below. */
  datatype Place = Inside(path: Path) | Outside

  /** Joining a chunk path to its parent, blanks and all. An absolute path is only absolute at the top. */
  function Join(parent: Place, raw: string): Place {
    if parent.Outside? || (parent.path == [] && Absolute(raw)) then Outside
    else Inside(Clean(parent.path + Split(raw)))
  }

  function SkipPaths(parent: Place, chunks: seq<Declared>): set<Place>
    decreases chunks
  {
    if chunks == [] then {}
    else SkipPaths(parent, chunks[..|chunks| - 1]) + SkipPathsOf(parent, chunks[|chunks| - 1])
  }

  function SkipPathsOf(parent: Place, chunk: Declared): set<Place>
    decreases chunk
  {
    if chunk.Missing? then {}
    else
      (if chunk.skipUpdate then {Join(parent, chunk.path)} else {})
      + SkipPaths(Join(parent, chunk.path), chunk.children)
  }

  /** `collectSkipUpdatePaths`: adds the skip paths of all chunks, at any depth, to `out`. */
  method CollectSkipPaths(out: set<Place>, parent: Place, chunks: seq<Declared>) returns (out': set<Place>)
    ensures out' == out + SkipPaths(parent, chunks)
    decreases chunks
  {
    out' := out;
    for i := 0 to |chunks|
      invariant out' == out + SkipPaths(parent, chunks[..i])
    {
      assert chunks[..i + 1][..i] == chunks[..i];
      var chunk := chunks[i];
      if chunk.Missing? {
        continue;
      }
      var place := Join(parent, chunk.path);
      if chunk.skipUpdate {
        out' := out' + {place};
      }
      out' := CollectSkipPaths(out', place, chunk.children);
    }
    assert chunks[..|chunks|] == chunks;
  }

  /** A path is skipped when it is at or below a skip path; the data directory itself skips everything. */
  predicate Skipped(rel: Path, skip: set<Place>) {
    exists s :: s in skip && s.Inside? && s.path <= rel
  }

  /** `shouldSkipWorkerUpdate`. */
  method ShouldSkip(rel: Path, skip: set<Place>) returns (skipped: bool)
    ensures skipped <==> Skipped(rel, skip)
  {
    var rest := skip;
    while rest != {}
      invariant rest <= skip && forall s :: s in skip && s !in rest ==> !(s.Inside? && s.path <= rel)
      decreases |rest|
    {
      var s :| s in rest;
      rest := rest - {s};
      if s.Inside? && (s.path == [] || rel == s.path || s.path < rel) {
        return true;
      }
    }
    return false;
  }

  /** What lies below a skipped path is skipped: pruning the walk there leaves nothing out. */
  lemma {:induction false} SkippedBelow(rel: Path, below: Path, skip: set<Place>)
    requires Skipped(rel, skip) && rel <= below
    ensures Skipped(below, skip)
  {
    var s :| s in skip && s.Inside? && s.path <= rel;
    assert s.path <= below;
  }

  // ---- the skip path of one declaration -------------------------------------------------------------------

  /** The first component is a name that later parent steps take back. */
  predicate TakenBack(parts: seq<string>) {
    parts != [] && PlainPart(parts[0]) && Escapes(Clean(parts[1..]))
  }

  /** Blanks around a path make no difference if there are none, or only leading ones whose component
      does not stay in the path. */
  predicate BlanksHarmless(raw: string) {
    TrimSpace(raw) == TrimLeft(raw) && (TrimLeft(raw) == raw || TakenBack(Split(TrimSpace(raw))))
  }

  predicate Relative(raw: string) {
    !Absolute(TrimSpace(raw))
  }

  /** A written path is its trimmed form between blanks. */
  lemma {:induction false} Outer(raw: string) returns (a: string, b: string)
    ensures raw == a + TrimSpace(raw) + b && Blank(a) && Blank(b)
    ensures (a == "" <==> TrimLeft(raw) == raw) && (b == "" <==> TrimSpace(raw) == TrimLeft(raw))
  {
    a := TrimsLeft(raw);
    b := TrimsRight(TrimLeft(raw));
  }

  /** Where the blanks end up. */
  lemma {:induction false} OuterSplit(a: string, t: string, b: string)
    requires Blank(a) && Blank(b)
    ensures var inner := [a + Split(t)[0]] + Split(t)[1..];
            Split(a + t + b) == inner[..|inner| - 1] + [inner[|inner| - 1] + b]
  {
    SplitBlankFirst(a, t);
    SplitBlankLast(a + t, b);
  }

  lemma {:induction false} BlankIsPlain(a: string, f: string, b: string)
    requires Blank(a) && Blank(b) && (a != "" || b != "")
    ensures PlainPart(a + f + b)
  {
    var s := a + f + b;
    if a != "" {
      assert IsSpace(a[0]) && s[0] == a[0];
    } else {
      assert IsSpace(b[|b| - 1]) && s[|s| - 1] == b[|b| - 1];
    }
  }

  /** A path is resolved from `base`, which is the parent or, for an absolute path, the data directory. */
  ghost predicate Based(parent: Path, base: Path, f: string) {
    base == parent || (base == [] && f == "")
  }

  lemma {:induction false} FirstStep(base: Path, f: string, rest: seq<string>) returns (y: Path)
    requires Plain(base) && !Escapes(Clean(base + [f] + rest))
    ensures y == Clean(base + [f]) && Plain(y) && Clean(y + rest) == Clean(base + [f] + rest)
    ensures if PlainPart(f) then y == base + [f] else |y| <= |base|
  {
    y := Clean(base + [f]);
    assert (base + [f] + rest)[..|base| + 1] == base + [f];
    if Escapes(y) {
      EscapingStaysOut(base + [f] + rest, |base| + 1);
    }
    CleanInsideIsPlain(base + [f]);
    CleanPlain(y);
    CleanSame(y, base + [f], rest);
    assert (base + [f])[..|base|] == base;
    CleanPlain(base);
  }

  /** A different first component only makes no difference if it is taken back. */
  lemma {:induction false} FrontDiffers(parent: Path, base: Path, g: string, f: string, rest: seq<string>)
    requires Plain(parent) && Based(parent, base, f) && PlainPart(g) && f != g && !Escapes(Clean(base + [f] + rest))
    ensures Clean(parent + [g] + rest) == Clean(base + [f] + rest) <==> PlainPart(f) && Escapes(Clean(rest))
  {
    if PlainPart(f) {
      CleanTakenBack(parent, f, g, rest);
    } else {
      var y := FirstStep(base, f, rest);
      CleanHigher(parent + [g], y, rest);
    }
  }

  lemma {:induction false} AtLeastAsLong(parent: Path, base: Path, g: string, f: string, rest: seq<string>)
    requires Plain(parent) && Based(parent, base, f) && (g == f || PlainPart(g)) && !Escapes(Clean(base + [f] + rest))
    ensures |Clean(parent + [g] + rest)| >= |Clean(base + [f] + rest)|
  {
    var y := FirstStep(base, f, rest);
    if PlainPart(g) {
      CleanHigher(parent + [g], y, rest);
    } else if base != parent {
      assert (parent + [""])[..|parent|] == parent;
      CleanPlain(parent);
      CleanSame(parent + [g], parent, rest);
      CleanHigher(parent, y, rest);
    }
  }

  lemma {:induction false} CleanLast(x: seq<string>, last: string)
    ensures PlainPart(last) ==> Clean(x + [last]) == Clean(x) + [last]
    ensures !PlainPart(last) && !Escapes(Clean(x + [last])) ==> |Clean(x + [last])| <= |Clean(x)|
  {
    assert (x + [last])[..|x|] == x;
    CleanHasShape(x);
  }

  lemma {:induction false} LastDiffers(x: seq<string>, last: string, y: seq<string>, part: string)
    requires PlainPart(last) && |last| > |part| && !Escapes(Clean(y + [part]))
    requires !PlainPart(part) ==> |Clean(x)| >= |Clean(y)|
    ensures Clean(x + [last]) != Clean(y + [part])
  {
    CleanLast(x, last);
    CleanLast(y, part);
    var l, r := Clean(x) + [last], Clean(y) + [part];
    assert l[|l| - 1] == last && r[|r| - 1] == part && last != part;
  }

  /** The last component with its blanks. */
  lemma {:induction false} LastBlank(a: string, parts: seq<string>, b: string)
    requires parts != [] && Blank(a) && Blank(b) && b != ""
    ensures var inner := [a + parts[0]] + parts[1..];
            PlainPart(inner[|inner| - 1] + b) && |inner[|inner| - 1] + b| > |parts[|parts| - 1]|
  {
    var inner := [a + parts[0]] + parts[1..];
    var last := inner[|inner| - 1];
    BlankIsPlain("", last, b);
    assert "" + last + b == last + b;
  }

  lemma {:induction false} LastApart(x: seq<string>, parts: seq<string>, last: string)
    requires parts != []
    ensures x + (parts[..|parts| - 1] + [last]) == x + parts[..|parts| - 1] + [last]
    ensures x + parts == x + parts[..|parts| - 1] + [parts[|parts| - 1]]
  {
  }

  /** Blanks behind a path always make a difference. */
  lemma {:induction false} BackDiffers(parent: Path, base: Path, a: string, parts: seq<string>, b: string)
    requires Plain(parent) && parts != [] && Based(parent, base, parts[0]) && Blank(a) && Blank(b) && b != ""
    requires !Escapes(Clean(base + parts))
    ensures var inner := [a + parts[0]] + parts[1..];
            Clean(parent + (inner[..|inner| - 1] + [inner[|inner| - 1] + b])) != Clean(base + parts)
  {
    var inner := [a + parts[0]] + parts[1..];
    LastBlank(a, parts, b);
    InitLonger(parent, base, a, parts);
    LastApart(parent, inner, inner[|inner| - 1] + b);
    LastApart(base, parts, parts[|parts| - 1]);
    LastDiffers(parent + inner[..|inner| - 1], inner[|inner| - 1] + b, base + parts[..|parts| - 1], parts[|parts| - 1]);
  }

  lemma {:induction false} InitLonger(parent: Path, base: Path, a: string, parts: seq<string>)
    requires Plain(parent) && parts != [] && Based(parent, base, parts[0]) && Blank(a) && !Escapes(Clean(base + parts))
    ensures var inner := [a + parts[0]] + parts[1..];
            |Clean(parent + inner[..|inner| - 1])| >= |Clean(base + parts[..|parts| - 1])|
  {
    var n := |parts| - 1;
    InitStaysIn(base, parts);
    if n == 0 {
      assert parent + [] == parent && base + [] == base && parts[..0] == [];
      CleanPlain(parent);
      CleanPlain(base);
    } else {
      InitSplit(parent, a + parts[0], parts);
      InitSplit(base, parts[0], parts);
      assert [parts[0]] + parts[1..] == parts;
      PlainOrSame(a, parts[0]);
      AtLeastAsLong(parent, base, a + parts[0], parts[0], parts[1..n]);
    }
  }

  lemma {:induction false} InitSplit(x: seq<string>, g: string, parts: seq<string>)
    requires |parts| > 1
    ensures x + ([g] + parts[1..])[..|parts| - 1] == x + [g] + parts[1..|parts| - 1]
  {
  }

  lemma {:induction false} PlainOrSame(a: string, f: string)
    requires Blank(a)
    ensures a + f == f || PlainPart(a + f)
  {
    if a == "" {
      assert a + f == f;
    } else {
      BlankIsPlain(a, f, "");
      assert a + f + "" == a + f;
    }
  }

  /** The first component of an absolute path is empty. */
  lemma {:induction false} AbsoluteFirst(t: string)
    requires Absolute(t)
    ensures Split(t)[0] == ""
  {
  }

  /** For one declaration, below a parent both sides agree on: the update's path is the packed path if
      and only if the declared path is relative and blanks around it are harmless. */
  lemma {:induction false} JoinedIsResolved(parent: Path, raw: string)
    requires Plain(parent) && ResolveChunkPath(parent, raw).Some?
    ensures Join(Inside(parent), raw) == Inside(ResolveChunkPath(parent, raw).value) <==>
              Relative(raw) && BlanksHarmless(raw)
  {
    var t := TrimSpace(raw);
    var a, b := Outer(raw);
    var parts := Split(t);
    OuterSplit(a, t, b);
    if Absolute(t) {
      AbsoluteFirst(t);
    }
    var base := if Absolute(t) then [] else parent;
    assert base + parts == ResolvedParts(parent, raw);
    if b != "" {
      BackDiffers(parent, base, a, parts, b);
    } else {
      FrontOnly(parent, base, a, t, raw);
    }
  }

  lemma {:induction false} FrontOnly(parent: Path, base: Path, a: string, t: string, raw: string)
    requires Plain(parent) && Blank(a) && raw == a + t && base == (if Absolute(t) then [] else parent)
    requires Based(parent, base, Split(t)[0]) && Clean(base + Split(t)) != [] && !Escapes(Clean(base + Split(t)))
    ensures Join(Inside(parent), raw) == Inside(Clean(base + Split(t)))
       <==> !Absolute(t) && (a == "" || TakenBack(Split(t)))
  {
    if a == "" {
      assert raw == t;
      NoBlanks(parent, base, t);
    } else {
      assert IsSpace(raw[0]);
      SplitBlankFirst(a, t);
      BlankFront(parent, base, a, Split(t));
      assert Absolute(t) ==> !PlainPart(Split(t)[0]);
    }
  }

  lemma {:induction false} NoBlanks(parent: Path, base: Path, t: string)
    requires Plain(parent) && base == (if Absolute(t) then [] else parent)
    requires Clean(base + Split(t)) != [] && !Escapes(Clean(base + Split(t)))
    ensures Join(Inside(parent), t) == Inside(Clean(base + Split(t))) <==> !Absolute(t)
  {
    var parts := Split(t);
    if Absolute(t) && parent != [] {
      assert [] + parts == parts;
      CleanInsideIsPlain(parts);
      CleanBelow(parent, parts);
    }
  }

  lemma {:induction false} BlankFront(parent: Path, base: Path, a: string, parts: seq<string>)
    requires Plain(parent) && Blank(a) && a != "" && parts != [] && Based(parent, base, parts[0])
             && !Escapes(Clean(base + parts))
    ensures Clean(parent + ([a + parts[0]] + parts[1..])) == Clean(base + parts) <==> TakenBack(parts)
  {
    assert parent + ([a + parts[0]] + parts[1..]) == parent + [a + parts[0]] + parts[1..];
    assert base + parts == base + [parts[0]] + parts[1..];
    BlankIsPlain(a, parts[0], "");
    assert a + parts[0] + "" == a + parts[0];
    FrontDiffers(parent, base, a + parts[0], parts[0], parts[1..]);
  }

  // ---- what is skipped against what is packed ---------------------------------------------------------------

  predicate Within(paths: seq<Path>, rel: Path) {
    exists i :: 0 <= i < |paths| && paths[i] <= rel
  }

  /** An update leaves alone exactly what lies in the packed paths. */
  ghost predicate SkipsAsPacked(skip: set<Place>, paths: seq<Path>) {
    forall rel: Path :: Skipped(rel, skip) <==> Within(paths, rel)
  }

  /** The skip path is one of the packed paths, and the others lie in it. */
  predicate Spans(place: Place, paths: seq<Path>) {
    if place.Outside? then paths == [] else place.path in paths && AllWithin(paths, place.path)
  }

  lemma {:induction false} OneSkip(rel: Path, place: Place)
    ensures Skipped(rel, {place}) <==> place.Inside? && place.path <= rel
  {
    assert place in {place};
  }

  lemma {:induction false} SpansExactly(place: Place, paths: seq<Path>)
    ensures SkipsAsPacked({place}, paths) <==> Spans(place, paths)
  {
    if SkipsAsPacked({place}, paths) {
      forall i | 0 <= i < |paths| ensures place.Inside? && place.path <= paths[i] {
        assert Within(paths, paths[i]);
        OneSkip(paths[i], place);
      }
      if |paths| > 0 {
        assert paths[0] <= paths[0];
      }
      if place.Inside? {
        OneSkip(place.path, place);
        var i :| 0 <= i < |paths| && paths[i] <= place.path;
        assert paths[i] == place.path;
      }
    } else if Spans(place, paths) {
      forall rel: Path ensures Skipped(rel, {place}) <==> Within(paths, rel) {
        OneSkip(rel, place);
        if place.Inside? && place.path <= rel {
          var i :| 0 <= i < |paths| && paths[i] == place.path;
        }
      }
    }
  }

  /** The path of a skipped chunk at `parent`, as it was declared, against the paths it is packed under:
      without a pattern an update leaves alone exactly what is packed if and only if the declared path
      is relative and blanks around it are harmless; with a pattern if and only if the path that is
      taken literally is itself a match and contains the other matches. */
  lemma {:induction false} SkipPathIsChunkPath(tree: Tree, parent: Path, raw: string, paths: seq<Path>)
    requires Plain(parent) && ExpandPaths(tree, parent, raw) == Some(paths)
    ensures SkipsAsPacked({Join(Inside(parent), raw)}, paths)
       <==> if HasGlobMeta(ResolveChunkPath(parent, raw).value) then Spans(Join(Inside(parent), raw), paths)
            else Relative(raw) && BlanksHarmless(raw)
  {
    var place := Join(Inside(parent), raw);
    SpansExactly(place, paths);
    if !HasGlobMeta(ResolveChunkPath(parent, raw).value) {
      JoinedIsResolved(parent, raw);
    }
  }

  /** A match has as many components as its pattern. */
  ghost predicate ValidGlob(tree: Tree) {
    forall p, q :: tree.glob(p).Some? && q in tree.glob(p).value ==> |q| == |p|
  }

  /** So with a pattern an update leaves a match alone only where file and pattern have the same name,
      and it leaves alone exactly what is packed only if that is the only match. */
  lemma {:induction false} MatchesAreOverwritten(tree: Tree, parent: Path, raw: string, paths: seq<Path>, q: Path)
    requires Plain(parent) && ExpandPaths(tree, parent, raw) == Some(paths) && ValidGlob(tree)
    requires HasGlobMeta(ResolveChunkPath(parent, raw).value) && Relative(raw) && BlanksHarmless(raw)
    ensures q in paths ==> (Skipped(q, {Join(Inside(parent), raw)}) <==> q == ResolveChunkPath(parent, raw).value)
    ensures SkipsAsPacked({Join(Inside(parent), raw)}, paths)
       <==> paths != [] && forall p :: p in paths ==> p == ResolveChunkPath(parent, raw).value
  {
    var resolved := ResolveChunkPath(parent, raw).value;
    JoinedIsResolved(parent, raw);
    OneSkip(q, Inside(resolved));
    SpansExactly(Inside(resolved), paths);
    OnlyMatch(paths, resolved);
  }

  lemma {:induction false} OnlyMatch(paths: seq<Path>, p: Path)
    requires forall q :: q in paths ==> |q| == |p|
    ensures Spans(Inside(p), paths) <==> paths != [] && forall q :: q in paths ==> q == p
  {
    forall q | q in paths ensures p <= q <==> q == p {
    }
    assert paths != [] ==> paths[0] in paths;
    assert AllWithin(paths, p) <==> forall q :: q in paths ==> p <= q;
  }

  /** The parent of a child may itself be a match. Then its skip path is the packed path if and only if
      the match has the name of the pattern. */
  lemma {:induction false} ChildOfMatch(literal: Path, matched: Path, raw: string)
    requires Plain(literal) && Plain(matched) && |literal| == |matched| && matched != []
    requires Relative(raw) && TrimSpace(raw) == raw && !Escapes(Clean(Split(raw)))
    ensures ResolveChunkPath(matched, raw).Some?
    ensures Skipped(ResolveChunkPath(matched, raw).value, {Join(Inside(literal), raw)}) <==> matched == literal
  {
    var below := Clean(Split(raw));
    CleanInsideIsPlain(Split(raw));
    CleanBelow(literal, Split(raw));
    CleanBelow(matched, Split(raw));
    assert PlainPart(matched[0]) && (matched + below)[0] == matched[0];
    OneSkip(matched + below, Inside(literal + below));
    assert (literal + below)[..|literal|] == literal && (matched + below)[..|literal|] == matched;
    assert literal + below <= matched + below ==> (literal + below)[..|literal|] == (matched + below)[..|literal|];
  }

  lemma {:induction false} StarPath()
    ensures Split("*") == ["*"] && TrimSpace("*") == "*" && Clean(["*"]) == ["*"] && HasGlobMeta(["*"])
  {
    assert "*"[1..] == "" && ["*"][..0] == [];
    assert Split("") == [""] && ['*'] + "" == "*";
    assert '*' in ["*"][0];
  }

  /** A pattern with one match: the match is packed, and an update overwrites it. */
  lemma {:induction false} PatternIsNotSkipped(tree: Tree)
    requires tree.glob(["*"]) == Some([["world"]])
    ensures var declared := [Declared.Declared("*", true, [])];
            && ExpandChildren(tree, declared, []) == Some([["world"]])
            && SkipPaths(Inside([]), declared) == {Inside(["*"])}
            && !Skipped(["world"], SkipPaths(Inside([]), declared))
  {
    StarPath();
    var node := Declared.Declared("*", true, []);
    assert [] + ["*"] == ["*"];
    assert ResolveChunkPath([], "*") == Some(["*"]);
    assert !Escapes(["world"]);
    assert ExpandPaths(tree, [], "*") == Some([["world"]]);
    assert [["world"]][..0] == [] && [] + [["world"]] == [["world"]];
    assert ExpandEach(tree, node, []) == Some([]) && ExpandOne(tree, node, ["world"]) == Some([["world"]]);
    assert ExpandEach(tree, node, [["world"]]) == Some([["world"]]);
    assert [node][..0] == [] && ExpandChildren(tree, [node], []) == Some([["world"]]);
    assert SkipPaths(Inside([]), [node]) == {Inside(["*"])};
    OneSkip(["world"], Inside(["*"]));
    assert ["*"][0] != ["world"][0];
  }

  // ---- nested declarations -----------------------------------------------------------------------------------

  /** At `parent` and below, no declaration has a pattern, an absolute path, or blanks that matter. */
  predicate Literal(parent: Path, nodes: seq<Declared>)
    decreases nodes
  {
    forall i :: 0 <= i < |nodes| && nodes[i].Declared? ==> LiteralNode(parent, nodes[i])
  }

  predicate LiteralNode(parent: Path, node: Declared)
    requires node.Declared?
    decreases node
  {
    var resolved := ResolveChunkPath(parent, node.path);
    resolved.Some? ==>
      && Relative(node.path) && BlanksHarmless(node.path)
      && !HasGlobMeta(resolved.value) && Literal(resolved.value, node.children)
  }

  /** The paths the chunks that updates leave alone are packed under, at any depth. */
  function PackedSkips(tree: Tree, parent: Path, nodes: seq<Declared>): set<Path>
    decreases nodes
  {
    if nodes == [] then {}
    else PackedSkips(tree, parent, nodes[..|nodes| - 1]) + PackedSkipsOf(tree, parent, nodes[|nodes| - 1])
  }

  function PackedSkipsOf(tree: Tree, parent: Path, node: Declared): set<Path>
    decreases node, 2
  {
    if node.Missing? then {}
    else
      var paths := ExpandPaths(tree, parent, node.path);
      if paths.None? then {} else PackedSkipsEach(tree, node, paths.value)
  }

  function PackedSkipsEach(tree: Tree, node: Declared, paths: seq<Path>): set<Path>
    requires node.Declared?
    decreases node, 1, |paths|
  {
    if paths == [] then {}
    else
      PackedSkipsEach(tree, node, paths[..|paths| - 1])
      + (if node.skipUpdate then {paths[|paths| - 1]} else {}) + PackedSkips(tree, paths[|paths| - 1], node.children)
  }

  function Places(paths: set<Path>): set<Place> {
    set p | p in paths :: Inside(p)
  }

  lemma {:induction false} PlacesTogether(some: set<Path>, more: set<Path>)
    ensures Places(some + more) == Places(some) + Places(more)
  {
  }

  lemma {:induction false} OneResolved(tree: Tree, node: Declared, p: Path)
    requires node.Declared?
    ensures PackedSkipsEach(tree, node, [p])
            == (if node.skipUpdate then {p} else {}) + PackedSkips(tree, p, node.children)
    ensures ExpandEach(tree, node, [p]).Some? ==> ExpandOne(tree, node, p).Some?
  {
    assert [p][..0] == [];
  }

  /** Literal declarations, nested or not: the skip paths are exactly the paths the skipped chunks are
      packed under. */
  lemma {:induction false} NestedSkipPaths(tree: Tree, parent: Path, nodes: seq<Declared>)
    requires Plain(parent) && ExpandChildren(tree, nodes, parent).Some? && Literal(parent, nodes)
    ensures SkipPaths(Inside(parent), nodes) == Places(PackedSkips(tree, parent, nodes))
    decreases nodes
  {
    if nodes != [] {
      var init, last := nodes[..|nodes| - 1], nodes[|nodes| - 1];
      assert forall i :: 0 <= i < |init| ==> init[i] == nodes[i];
      NestedSkipPaths(tree, parent, init);
      if last.Declared? {
        assert LiteralNode(parent, last);
        NestedSkipPathsOf(tree, parent, last);
      }
      PlacesTogether(PackedSkips(tree, parent, init), PackedSkipsOf(tree, parent, last));
    }
  }

  lemma {:induction false} NestedSkipPathsOf(tree: Tree, parent: Path, node: Declared)
    requires Plain(parent) && node.Declared? && ExpandNode(tree, parent, node).Some? && LiteralNode(parent, node)
    ensures SkipPathsOf(Inside(parent), node) == Places(PackedSkipsOf(tree, parent, node))
    decreases node
  {
    var resolved := ResolveChunkPath(parent, node.path).value;
    JoinedIsResolved(parent, node.path);
    ResolvedIsInside(parent, node.path);
    OneResolved(tree, node, resolved);
    if node.children != [] {
      NestedSkipPaths(tree, resolved, node.children);
    }
    PlacesTogether(if node.skipUpdate then {resolved} else {}, PackedSkips(tree, resolved, node.children));
  }

  /** Then an update leaves a path alone exactly if it was packed in a chunk that updates skip. */
  lemma {:induction false} SkippedIfPacked(tree: Tree, declared: seq<Declared>, rel: Path)
    requires ExpandChildren(tree, declared, []).Some? && Literal([], declared)
    ensures Skipped(rel, SkipPaths(Inside([]), declared)) <==>
              exists p :: p in PackedSkips(tree, [], declared) && p <= rel
  {
    NestedSkipPaths(tree, [], declared);
    if p :| p in PackedSkips(tree, [], declared) && p <= rel {
      assert Inside(p) in Places(PackedSkips(tree, [], declared));
    }
  }

  /** A skip path that packing accepts never covers the whole data directory. */
  lemma {:induction false} DataIsNotSkipped(tree: Tree, declared: seq<Declared>)
    requires ExpandChildren(tree, declared, []).Some? && Literal([], declared)
    ensures !Skipped([], SkipPaths(Inside([]), declared))
  {
    SkippedIfPacked(tree, declared, []);
    PackedAreInside(tree, [], declared);
  }

  lemma {:induction false} PackedAreInside(tree: Tree, parent: Path, nodes: seq<Declared>)
    requires Literal(parent, nodes)
    ensures forall p :: p in PackedSkips(tree, parent, nodes) ==> p != []
    decreases nodes
  {
    if nodes != [] {
      var init, last := nodes[..|nodes| - 1], nodes[|nodes| - 1];
      assert forall i :: 0 <= i < |init| ==> init[i] == nodes[i];
      PackedAreInside(tree, parent, init);
      if last.Declared? && ResolveChunkPath(parent, last.path).Some? {
        var resolved := ResolveChunkPath(parent, last.path).value;
        assert LiteralNode(parent, last);
        OneResolved(tree, last, resolved);
        PackedAreInside(tree, resolved, last.children);
      }
    }
  }
}
