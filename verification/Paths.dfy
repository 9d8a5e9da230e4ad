/** Slash-separated paths as component sequences. */
module Paths {
  /** The empty path is the root of whatever tree is meant. */
  type Path = seq<string>

  // ---- paths as they are written ----------------------------------------------------------------------

  /** The components of a written path, empty ones included. */
  function Split(s: string): (parts: seq<string>)
    ensures |parts| > 0
  {
    if s == "" then [""]
    else
      var rest := Split(s[1..]);
      if s[0] == '/' then [""] + rest else [[s[0]] + rest[0]] + rest[1..]
  }

  predicate Absolute(s: string) {
    s != "" && s[0] == '/'
  }

  /** The white space that trimming removes. */
  predicate IsSpace(c: char) {
    var n := c as int;
    || 9 <= n <= 13 || n == 0x20 || n == 0x85 || n == 0xA0 || n == 0x1680 || 0x2000 <= n <= 0x200A
    || n == 0x2028 || n == 0x2029 || n == 0x202F || n == 0x205F || n == 0x3000
  }

  predicate Blank(s: string) {
    forall i :: 0 <= i < |s| ==> IsSpace(s[i])
  }

  function TrimLeft(s: string): string {
    if s != "" && IsSpace(s[0]) then TrimLeft(s[1..]) else s
  }

  function TrimRight(s: string): string {
    if s != "" && IsSpace(s[|s| - 1]) then TrimRight(s[..|s| - 1]) else s
  }

  function TrimSpace(s: string): string {
    TrimRight(TrimLeft(s))
  }

  lemma {:induction false} TrimsLeft(s: string) returns (a: string)
    ensures s == a + TrimLeft(s) && Blank(a) && (TrimLeft(s) == s <==> a == "")
    decreases |s|
  {
    if s != "" && IsSpace(s[0]) {
      var rest := TrimsLeft(s[1..]);
      a := [s[0]] + rest;
    } else {
      a := "";
    }
  }

  lemma {:induction false} TrimsRight(s: string) returns (b: string)
    ensures s == TrimRight(s) + b && Blank(b) && (TrimRight(s) == s <==> b == "")
    decreases |s|
  {
    if s != "" && IsSpace(s[|s| - 1]) {
      var rest := TrimsRight(s[..|s| - 1]);
      b := rest + [s[|s| - 1]];
    } else {
      b := "";
    }
  }

  /** What trimming leaves neither starts nor ends with white space. */
  lemma {:induction false} TrimmedEnds(s: string)
    ensures var t := TrimSpace(s); t != "" ==> !IsSpace(t[0]) && !IsSpace(t[|t| - 1])
  {
    var l := TrimLeft(s);
    LeftEnd(s);
    RightEnd(l);
    var b := TrimsRight(l);
    assert TrimRight(l) != "" ==> TrimRight(l)[0] == l[0];
  }

  lemma {:induction false} LeftEnd(s: string)
    ensures TrimLeft(s) != "" ==> !IsSpace(TrimLeft(s)[0])
    decreases |s|
  {
    if s != "" && IsSpace(s[0]) {
      LeftEnd(s[1..]);
    }
  }

  lemma {:induction false} RightEnd(s: string)
    ensures TrimRight(s) != "" ==> !IsSpace(TrimRight(s)[|TrimRight(s)| - 1])
    decreases |s|
  {
    if s != "" && IsSpace(s[|s| - 1]) {
      RightEnd(s[..|s| - 1]);
    }
  }

  /** The components with a slash between every two. */
  function Joined(parts: seq<string>): string
    requires parts != []
  {
    if |parts| == 1 then parts[0] else parts[0] + "/" + Joined(parts[1..])
  }

  predicate SlashFree(parts: seq<string>) {
    forall i :: 0 <= i < |parts| ==> '/' !in parts[i]
  }

  lemma {:induction false} SplitJoins(s: string)
    ensures SlashFree(Split(s)) && Joined(Split(s)) == s
    decreases |s|
  {
    if s != "" {
      var rest := Split(s[1..]);
      SplitJoins(s[1..]);
      if s[0] == '/' {
        assert ([""] + rest)[1..] == rest;
        assert s == "" + "/" + s[1..];
      } else {
        JoinedFirst(s[0], rest);
        assert s == [s[0]] + s[1..];
      }
    }
  }

  lemma {:induction false} JoinedFirst(c: char, parts: seq<string>)
    requires parts != []
    ensures Joined([[c] + parts[0]] + parts[1..]) == [c] + Joined(parts)
  {
    var first := [c] + parts[0];
    assert ([first] + parts[1..])[1..] == parts[1..];
    if |parts| > 1 {
      assert [c] + (parts[0] + "/" + Joined(parts[1..])) == first + "/" + Joined(parts[1..]);
    }
  }

  lemma {:induction false} SplitFirst(part: string, rest: string)
    requires '/' !in part
    ensures Split(part + "/" + rest) == [part] + Split(rest)
    decreases |part|
  {
    var s := part + "/" + rest;
    if part == "" {
      assert s[0] == '/' && s[1..] == rest;
    } else {
      assert s[0] == part[0] && s[0] != '/' && s[1..] == part[1..] + "/" + rest;
      assert forall c :: c in part[1..] ==> c in part;
      SplitFirst(part[1..], rest);
      assert [part[0]] + part[1..] == part;
    }
  }

  lemma {:induction false} SplitLast(part: string)
    requires '/' !in part
    ensures Split(part) == [part]
    decreases |part|
  {
    if part != "" {
      assert forall c :: c in part[1..] ==> c in part;
      SplitLast(part[1..]);
      assert [part[0]] + part[1..] == part && part[0] != '/';
    }
  }

  /** Splitting gives the one way to write a path as components without slashes. */
  lemma {:induction false} SplitIsOnly(s: string, parts: seq<string>)
    requires parts != [] && SlashFree(parts)
    ensures Joined(parts) == s <==> parts == Split(s)
    decreases |parts|
  {
    SplitJoins(s);
    if Joined(parts) == s {
      if |parts| == 1 {
        SplitLast(parts[0]);
      } else {
        SplitIsOnly(Joined(parts[1..]), parts[1..]);
        SplitFirst(parts[0], Joined(parts[1..]));
        assert parts == [parts[0]] + parts[1..];
      }
    }
  }

  /** Blanks in front of a path belong to its first component. */
  lemma {:induction false} SplitBlankFirst(a: string, s: string)
    requires Blank(a)
    ensures Split(a + s) == [a + Split(s)[0]] + Split(s)[1..]
    decreases |a|
  {
    if a == "" {
      assert a + s == s && a + Split(s)[0] == Split(s)[0];
    } else {
      assert (a + s)[1..] == a[1..] + s && IsSpace(a[0]);
      SplitBlankFirst(a[1..], s);
      assert [a[0]] + (a[1..] + Split(s)[0]) == a + Split(s)[0];
    }
  }

  /** Blanks behind a path belong to its last component. */
  lemma {:induction false} SplitBlankLast(s: string, b: string)
    requires Blank(b)
    ensures Split(s + b) == Split(s)[..|Split(s)| - 1] + [Split(s)[|Split(s)| - 1] + b]
    decreases |s|
  {
    if s == "" {
      SplitBlankFirst(b, "");
      assert s + b == b && b + "" == b;
    } else {
      assert (s + b)[1..] == s[1..] + b;
      SplitBlankLast(s[1..], b);
      var rest := Split(s[1..]);
      if s[0] != '/' && |rest| == 1 {
        assert [s[0]] + (rest[0] + b) == ([s[0]] + rest[0]) + b;
      }
    }
  }

  // ---- cleaning ---------------------------------------------------------------------------------------

  /** Lexical cleaning of a relative path: empty and "." components go, ".." takes back the component
      before it, and only a ".." with nothing to take back is left, at the front. */
  function Clean(parts: seq<string>): Path {
    if parts == [] then [] else CleanStep(Clean(parts[..|parts| - 1]), parts[|parts| - 1])
  }

  function CleanStep(before: Path, part: string): Path {
    if part == "" || part == "." then before
    else if part != ".." then before + [part]
    else if before != [] && before[|before| - 1] != ".." then before[..|before| - 1]
    else before + [".."]
  }

  predicate PlainPart(part: string) {
    part != "" && part != "." && part != ".."
  }

  /** A clean path without "..". */
  predicate Plain(p: Path) {
    forall i :: 0 <= i < |p| ==> PlainPart(p[i])
  }

  predicate Escapes(p: Path) {
    p != [] && p[0] == ".."
  }

  /** Cleaned components are plain, except for ".." at the front. */
  predicate CleanShape(p: Path) {
    forall i :: 0 <= i < |p| ==> p[i] != "" && p[i] != "." && (p[i] == ".." ==> forall j :: 0 <= j < i ==> p[j] == "..")
  }

  lemma {:induction false} CleanHasShape(parts: seq<string>)
    ensures CleanShape(Clean(parts))
    decreases |parts|
  {
    if parts != [] {
      CleanHasShape(parts[..|parts| - 1]);
      var before := Clean(parts[..|parts| - 1]);
      if before != [] && before[|before| - 1] == ".." {
        assert forall j :: 0 <= j < |before| ==> before[j] == "..";
      }
    }
  }

  /** A cleaned path that does not start with ".." has none anywhere. */
  lemma {:induction false} CleanInsideIsPlain(parts: seq<string>)
    ensures !Escapes(Clean(parts)) ==> Plain(Clean(parts))
  {
    CleanHasShape(parts);
  }

  lemma {:induction false} CleanPlain(p: Path)
    requires Plain(p)
    ensures Clean(p) == p
    decreases |p|
  {
    if p != [] {
      CleanPlain(p[..|p| - 1]);
      assert PlainPart(p[|p| - 1]);
      assert p == p[..|p| - 1] + [p[|p| - 1]];
    }
  }

  lemma {:induction false} EscapingStaysOut(parts: seq<string>, n: nat)
    requires n <= |parts| && Escapes(Clean(parts[..n]))
    ensures Escapes(Clean(parts))
    decreases |parts| - n
  {
    if n < |parts| {
      assert parts[..n + 1][..n] == parts[..n];
      EscapingStaysOut(parts, n + 1);
    } else {
      assert parts[..n] == parts;
    }
  }

  lemma {:induction false} InitStaysIn(x: seq<string>, parts: seq<string>)
    requires parts != [] && !Escapes(Clean(x + parts))
    ensures !Escapes(Clean(x + parts[..|parts| - 1]))
    ensures (x + parts)[..|x + parts| - 1] == x + parts[..|parts| - 1]
  {
    var all := x + parts;
    InitOfSum(x, parts, all);
    if Escapes(Clean(all[..|all| - 1])) {
      EscapingStaysOut(all, |all| - 1);
    }
  }

  lemma {:induction false} InitOfSum(x: seq<string>, parts: seq<string>, all: seq<string>)
    requires parts != [] && all == x + parts
    ensures all[..|all| - 1] == x + parts[..|parts| - 1]
  {
  }

  /** Cleaning, component by component: empty and "." change nothing, a name is appended, ".." takes back a name
      before it and stays where there is none. */
  lemma {:induction false} CleanLaws(x: seq<string>, part: string)
    ensures Clean(x + [""]) == Clean(x) && Clean(x + ["."]) == Clean(x)
    ensures PlainPart(part) ==> Clean(x + [part]) == Clean(x) + [part] && Clean(x + [part, ".."]) == Clean(x)
    ensures Clean(x) == [] || Clean(x)[|Clean(x)| - 1] == ".." ==> Clean(x + [".."]) == Clean(x) + [".."]
  {
    assert (x + [""])[..|x|] == x && (x + ["."])[..|x|] == x && (x + [".."])[..|x|] == x && (x + [part])[..|x|] == x;
    assert (x + [part, ".."])[..|x| + 1] == x + [part];
    assert (Clean(x) + [part])[..|Clean(x)|] == Clean(x);
  }

  /** Cleaning twice changes nothing. */
  lemma {:induction false} CleanTwice(parts: seq<string>)
    ensures Clean(Clean(parts)) == Clean(parts)
  {
    CleanHasShape(parts);
    ShapeIsClean(Clean(parts));
  }

  lemma {:induction false} ShapeIsClean(p: Path)
    requires CleanShape(p)
    ensures Clean(p) == p
    decreases |p|
  {
    if p != [] {
      var init := p[..|p| - 1];
      ShapeIsClean(init);
      assert p == init + [p[|p| - 1]];
    }
  }

  lemma {:induction false} CleanNext(x: seq<string>, parts: seq<string>)
    requires parts != []
    ensures Clean(x + parts) == CleanStep(Clean(x + parts[..|parts| - 1]), parts[|parts| - 1])
  {
    InitOfSum(x, parts, x + parts);
  }

  /** What is cleaned first makes no difference. */
  lemma {:induction false} CleanSame(x: seq<string>, y: seq<string>, parts: seq<string>)
    requires Clean(x) == Clean(y)
    ensures Clean(x + parts) == Clean(y + parts)
    decreases |parts|
  {
    if parts == [] {
      assert x + parts == x && y + parts == y;
    } else {
      CleanSame(x, y, parts[..|parts| - 1]);
      CleanNext(x, parts);
      CleanNext(y, parts);
    }
  }

  lemma {:induction false} CleanBelow(parent: Path, parts: seq<string>)
    requires Plain(parent) && Plain(Clean(parts))
    ensures Clean(parent + parts) == parent + Clean(parts)
    decreases |parts|
  {
    if parts == [] {
      assert parent + parts == parent && parent + Clean(parts) == parent;
      CleanPlain(parent);
    } else {
      var init := parts[..|parts| - 1];
      assert Clean(parts) != [] ==> PlainPart(Clean(parts)[0]);
      if Escapes(Clean(init)) {
        EscapingStaysOut(parts, |parts| - 1);
        assert false;
      }
      CleanInsideIsPlain(init);
      CleanBelow(parent, init);
      CleanNext(parent, parts);
      assert parts[|parts| - 1] == ".." && Clean(init) == [] ==> Escapes(Clean(parts));
      StepBelow(parent, Clean(init), parts[|parts| - 1]);
    }
  }

  lemma {:induction false} StepBelow(parent: Path, before: Path, part: string)
    requires Plain(parent) && Plain(before) && (part == ".." ==> before != [])
    ensures CleanStep(parent + before, part) == parent + CleanStep(before, part)
  {
    if part == ".." {
      assert PlainPart(before[|before| - 1]);
      assert (parent + before)[..|parent + before| - 1] == parent + before[..|before| - 1];
    }
  }

  /** From a longer path the same components lead to a path that is as much longer. */
  lemma {:induction false} CleanHigher(x: Path, y: Path, parts: seq<string>)
    requires Plain(x) && Plain(y) && |x| >= |y| && !Escapes(Clean(y + parts))
    ensures !Escapes(Clean(x + parts)) && |Clean(x + parts)| == |Clean(y + parts)| + |x| - |y|
    decreases |parts|
  {
    if parts == [] {
      assert x + parts == x && y + parts == y;
      CleanPlain(x);
      CleanPlain(y);
    } else {
      var init := parts[..|parts| - 1];
      InitStaysIn(y, parts);
      CleanHigher(x, y, init);
      CleanInsideIsPlain(x + init);
      CleanInsideIsPlain(y + init);
      assert (x + parts)[..|x + parts| - 1] == x + init;
      LastStep(x + init, y + init, parts[|parts| - 1], x + parts, y + parts);
    }
  }

  lemma {:induction false} LastStep(x: seq<string>, y: seq<string>, part: string, x': seq<string>, y': seq<string>)
    requires x' != [] && x'[..|x'| - 1] == x && x'[|x'| - 1] == part && y' != [] && y'[..|y'| - 1] == y
             && y'[|y'| - 1] == part
    requires Plain(Clean(x)) && Plain(Clean(y)) && |Clean(x)| >= |Clean(y)| && !Escapes(Clean(y'))
    ensures !Escapes(Clean(x')) && |Clean(x')| - |Clean(y')| == |Clean(x)| - |Clean(y)|
  {
    if part == ".." {
      assert Clean(y) != [];
      assert PlainPart(Clean(y)[|Clean(y)| - 1]) && PlainPart(Clean(x)[|Clean(x)| - 1]);
    }
    assert Clean(x) != [] ==> PlainPart(Clean(x)[0]);
  }

  /** The component in front is taken back by the last one. */
  lemma {:induction false} TopTakenBack(parent: Path, f: string, parts: seq<string>)
    requires Plain(parent) && PlainPart(f) && parts != []
    requires Escapes(Clean(parts)) && !Escapes(Clean(parts[..|parts| - 1]))
    ensures Clean(parent + [f] + parts) == parent
  {
    var init := parts[..|parts| - 1];
    CleanInsideIsPlain(init);
    assert Clean(init) == [] && parts[|parts| - 1] == "..";
    CleanBelow(parent + [f], init);
    assert (parent + [f] + parts)[..|parent + [f] + parts| - 1] == parent + [f] + init;
    assert parent + [f] + [] == parent + [f];
    assert (parent + [f])[..|parent|] == parent;
  }

  /** Two different last components lead to the same path exactly when what follows takes them back. */
  lemma {:induction false} CleanTakenBack(parent: Path, f: string, g: string, parts: seq<string>)
    requires Plain(parent) && PlainPart(f) && PlainPart(g) && f != g && !Escapes(Clean(parent + [f] + parts))
    ensures Clean(parent + [g] + parts) == Clean(parent + [f] + parts) <==> Escapes(Clean(parts))
  {
    if Escapes(Clean(parts)) {
      BothTakenBack(parent, f, g, parts);
    } else {
      CleanInsideIsPlain(parts);
      CleanBelow(parent + [f], parts);
      CleanBelow(parent + [g], parts);
      assert (parent + [f] + Clean(parts))[|parent|] == f && (parent + [g] + Clean(parts))[|parent|] == g;
    }
  }

  lemma {:induction false} BothTakenBack(parent: Path, f: string, g: string, parts: seq<string>)
    requires Plain(parent) && PlainPart(f) && PlainPart(g) && Escapes(Clean(parts))
    ensures Clean(parent + [g] + parts) == Clean(parent + [f] + parts)
    decreases |parts|
  {
    var init := parts[..|parts| - 1];
    if Escapes(Clean(init)) {
      BothTakenBack(parent, f, g, init);
      CleanSame(parent + [g] + init, parent + [f] + init, [parts[|parts| - 1]]);
      InitLast(parent + [f], parts);
      InitLast(parent + [g], parts);
    } else {
      TopTakenBack(parent, f, parts);
      TopTakenBack(parent, g, parts);
    }
  }

  lemma {:induction false} InitLast(x: seq<string>, parts: seq<string>)
    requires parts != []
    ensures x + parts == x + parts[..|parts| - 1] + [parts[|parts| - 1]]
  {
  }

  /** One of the two paths contains the other, or they are the same. */
  predicate Comparable(p: Path, q: Path) {
    p <= q || q <= p
  }

  /** A path lies in at most one of two places that are not comparable. */
  lemma PrefixesAreComparable(p: Path, q: Path, x: Path)
    requires p <= x && q <= x
    ensures Comparable(p, q)
  {
    if |p| <= |q| {
      assert p == x[..|p|] && q[..|p|] == x[..|p|];
    } else {
      assert q == x[..|q|] && p[..|q|] == x[..|q|];
    }
  }
}
