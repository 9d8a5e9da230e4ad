/** Finding a file in an OCI artifact: a breadth-first search from the root descriptor through
    manifests and indexes. */
module OciSearch {
  import opened Domain

  /** The part of a content descriptor (section "OCI Content Descriptors" of the OCI Image Format
      Specification) the search looks at. `path` and `title` are the cleaned values of the two file
      annotations, empty when they are missing. */
  datatype Descriptor = Descriptor(digest: string, mediaType: string, path: string, title: string)

  /** The successors of every descriptor; `None` where fetching them fails. */
  type Graph = map<Descriptor, Option<seq<Descriptor>>>

  datatype SearchResult = Found(desc: Descriptor) | FetchFailed | NotFound

  predicate Contains(s: string, part: string) {
    part <= s || (s != "" && Contains(s[1..], part))
  }

  function TrimSuffix(s: string, suffix: string): string {
    if |s| >= |suffix| && s[|s| - |suffix|..] == suffix then s[..|s| - |suffix|] else s
  }

  /** `descriptorCanHaveChildren`. */
  predicate CanHaveChildren(desc: Descriptor) {
    var mediaType := TrimSuffix(desc.mediaType, "+gzip");
    || mediaType == "application/vnd.oci.image.manifest.v1+json"
    || mediaType == "application/vnd.oci.image.index.v1+json"
    || Contains(mediaType, "manifest")
    || Contains(mediaType, "index")
  }

  /** `descriptorMatchesPath`. */
  predicate Matches(desc: Descriptor, want: string) {
    desc.path == want || desc.title == want
  }

  predicate OccursAt(s: string, part: string, i: int) {
    0 <= i && i + |part| <= |s| && s[i..i + |part|] == part
  }

  lemma {:induction false} ContainsIsOccurs(s: string, part: string)
    ensures Contains(s, part) <==> exists i :: OccursAt(s, part, i)
    decreases |s|
  {
    if part <= s {
      assert OccursAt(s, part, 0);
    } else if s != "" {
      ContainsIsOccurs(s[1..], part);
      if i :| OccursAt(s[1..], part, i) {
        OccursLater(s, part, i);
      }
      if i :| OccursAt(s, part, i) {
        assert i != 0;
        OccursLater(s, part, i - 1);
      }
    }
  }

  lemma {:induction false} OccursLater(s: string, part: string, i: nat)
    requires s != ""
    ensures OccursAt(s[1..], part, i) <==> OccursAt(s, part, i + 1)
  {
    if i + 1 + |part| <= |s| {
      assert s[i + 1..i + 1 + |part|] == s[1..][i..i + |part|];
    }
  }

  /** The suffix for compression takes no part in any word without a plus sign. */
  lemma {:induction false} SuffixDoesNotMatter(s: string, part: string)
    requires |part| > 4 && '+' !in part
    ensures (exists i :: OccursAt(TrimSuffix(s, "+gzip"), part, i)) <==> exists i :: OccursAt(s, part, i)
  {
    var t := TrimSuffix(s, "+gzip");
    if i :| OccursAt(t, part, i) {
      assert s[i..i + |part|] == t[i..i + |part|];
      assert OccursAt(s, part, i);
    }
    if i :| OccursAt(s, part, i) {
      if t != s {
        assert s[|t|..] == "+gzip" && s[|t|] == '+';
        forall k | i <= k < i + |part| ensures s[k] != '+' {
          assert s[k] == part[k - i] && part[k - i] in part;
        }
        assert t[i..i + |part|] == s[i..i + |part|];
      }
      assert OccursAt(t, part, i);
    }
  }

  /** A descriptor is opened exactly if its media type has the word "manifest" or "index" somewhere, compressed
      or not. */
  lemma {:induction false} OpenedByWord(desc: Descriptor)
    ensures CanHaveChildren(desc) <==>
              (exists i :: OccursAt(desc.mediaType, "manifest", i)) || exists i :: OccursAt(desc.mediaType, "index", i)
  {
    var t := TrimSuffix(desc.mediaType, "+gzip");
    ContainsIsOccurs(t, "manifest");
    ContainsIsOccurs(t, "index");
    SuffixDoesNotMatter(desc.mediaType, "manifest");
    SuffixDoesNotMatter(desc.mediaType, "index");
    assert OccursAt("application/vnd.oci.image.manifest.v1+json", "manifest", 26);
    assert OccursAt("application/vnd.oci.image.index.v1+json", "index", 26);
  }

  /** Which descriptors the search opens. */
  type Opener = Descriptor -> bool

  // ---- what there is to find ------------------------------------------------------------------------

  /** The graph says for every descriptor in it what its successors are, or that they are out of reach. */
  ghost predicate Closed(graph: Graph) {
    forall d :: d in graph && graph[d].Some? ==> forall i :: 0 <= i < |graph[d].value| ==> graph[d].value[i] in graph
  }

  /** `d` can be opened and has `e` among its successors. */
  ghost predicate Edge(graph: Graph, d: Descriptor, e: Descriptor) {
    d in graph && graph[d].Some? && e in graph[d].value
  }

  /** A chain of containers from the root; all but the root have a digest. */
  ghost predicate Chain(graph: Graph, opens: Opener, root: Descriptor, p: seq<Descriptor>) {
    && |p| > 0 && p[0] == root
    && (forall i :: 0 <= i < |p| ==> opens(p[i]) && (i > 0 ==> p[i].digest != ""))
    && (forall i :: 0 <= i < |p| - 1 ==> Edge(graph, p[i], p[i + 1]))
  }

  ghost predicate Reachable(graph: Graph, opens: Opener, root: Descriptor, d: Descriptor) {
    exists p :: Chain(graph, opens, root, p) && p[|p| - 1] == d
  }

  lemma ReachableStep(graph: Graph, opens: Opener, root: Descriptor, d: Descriptor, e: Descriptor)
    requires Reachable(graph, opens, root, d) && Edge(graph, d, e) && opens(e) && e.digest != ""
    ensures Reachable(graph, opens, root, e)
  {
    var p :| Chain(graph, opens, root, p) && p[|p| - 1] == d;
    assert Chain(graph, opens, root, p + [e]);
  }

  lemma RootReachable(graph: Graph, opens: Opener, root: Descriptor)
    requires opens(root)
    ensures Reachable(graph, opens, root, root)
  {
    assert Chain(graph, opens, root, [root]);
  }

  /** The digest of a container stands for its content: whatever the descriptors say besides, the
      successors are the same. */
  ghost predicate Determined(graph: Graph, opens: Opener) {
    forall d, e :: d in graph && e in graph && opens(d) && opens(e) && d.digest == e.digest && d.digest != "" ==>
             graph[d] == graph[e]
  }

  /** A reachable container lists the file. */
  ghost predicate HasFile(graph: Graph, opens: Opener, root: Descriptor, want: string) {
    exists c, d :: Reachable(graph, opens, root, c) && Edge(graph, c, d) && Matches(d, want)
  }

  ghost predicate AllFetch(graph: Graph, opens: Opener, root: Descriptor) {
    forall c :: c in graph && Reachable(graph, opens, root, c) ==> graph[c].Some?
  }

  // ---- the search ---------------------------------------------------------------------------------------

  function Digests(graph: Graph): set<string> {
    set d | d in graph :: d.digest
  }

  /** What the search has done: `popped` were taken off the queue and opened without finding the
      file, and whatever digest was seen is that of a descriptor that is queued or popped. */
  ghost predicate Progress(graph: Graph, opens: Opener, root: Descriptor, want: string,
                           seen: set<string>, queue: seq<Descriptor>, popped: set<Descriptor>) {
    && root in popped + Elements(queue)
    && seen <= Digests(graph)
    && (forall d :: d in popped + Elements(queue) ==>
        d in graph && (opens(d) ==> Reachable(graph, opens, root, d)) && (d != root ==> opens(d)))
    && (forall digest :: digest in seen ==> exists d :: d in popped + Elements(queue) && d.digest == digest)
    && (forall d :: d in popped && opens(d) ==> Opened(graph, opens, want, seen, d))
  }

  function Elements(queue: seq<Descriptor>): set<Descriptor> {
    set d | d in queue
  }

  /** All successors of `d` have been looked at. */
  ghost predicate Opened(graph: Graph, opens: Opener, want: string, seen: set<string>, d: Descriptor) {
    d in graph && graph[d].Some? && LookedAt(graph[d].value, opens, want, seen)
  }

  ghost predicate LookedAt(successors: seq<Descriptor>, opens: Opener, want: string, seen: set<string>) {
    forall i :: 0 <= i < |successors| ==>
      !Matches(successors[i], want)
      && (opens(successors[i]) && successors[i].digest != "" ==> successors[i].digest in seen)
  }

  // ---- the search finds the nearest container -------------------------------------------------------------

  /** The descriptor, if it can be opened, ends a chain of `n` containers. */
  ghost predicate EndsChain(graph: Graph, opens: Opener, root: Descriptor, d: Descriptor, n: nat) {
    opens(d) ==> exists p :: Chain(graph, opens, root, p) && p[|p| - 1] == d && |p| == n
  }

  lemma {:induction false} ChainGrows(graph: Graph, opens: Opener, root: Descriptor, d: Descriptor, n: nat,
                                      e: Descriptor)
    requires opens(d) && EndsChain(graph, opens, root, d, n) && Edge(graph, d, e) && e.digest != ""
    ensures EndsChain(graph, opens, root, e, n + 1)
  {
    if opens(e) {
      var p :| Chain(graph, opens, root, p) && p[|p| - 1] == d && |p| == n;
      var q := p + [e];
      assert forall i :: 0 <= i < |q| - 1 ==> q[i] == p[i];
      assert Chain(graph, opens, root, q) && q[|q| - 1] == e && |q| == n + 1;
    }
  }

  /** A container with the digest of `e` is known, at most `n` containers deep. */
  ghost predicate KnownBy(known: map<Descriptor, nat>, e: Descriptor, n: nat) {
    exists x :: x in known && x.digest == e.digest && known[x] <= n
  }

  /** The containers the opened ones lead to are known, at most one deeper. */
  ghost predicate LeadsDeeper(graph: Graph, opens: Opener, done: set<Descriptor>, known: map<Descriptor, nat>) {
    forall y, e :: y in done && y in known && opens(y) && Edge(graph, y, e) && opens(e) && e.digest != "" ==>
                     KnownBy(known, e, known[y] + 1)
  }

  /** What is queued is as deep as `depth` or one deeper, in this order, and what was popped is no deeper. */
  ghost predicate ByDepth(queue: seq<Descriptor>, popped: set<Descriptor>, known: map<Descriptor, nat>, depth: nat) {
    && known.Keys == popped + Elements(queue)
    && (forall d :: d in popped ==> d in known && known[d] <= depth)
    && (forall i :: 0 <= i < |queue| ==> queue[i] in known && depth <= known[queue[i]] <= depth + 1)
    && (forall i, j :: 0 <= i <= j < |queue| ==> known[queue[i]] <= known[queue[j]])
  }

  /** How deep everything known lies. */
  ghost predicate Depths(graph: Graph, opens: Opener, root: Descriptor, seen: set<string>,
                         known: map<Descriptor, nat>) {
    && root in known && known[root] == 1
    && (forall d :: d in known ==> EndsChain(graph, opens, root, d, known[d]) && (d == root || opens(d)))
    && (forall d :: d in known && d.digest != "" ==> d.digest in seen)
    && SeenIsKnown(seen, known)
  }

  ghost predicate SeenIsKnown(seen: set<string>, known: map<Descriptor, nat>) {
    forall digest :: digest in seen ==> exists x :: x in known && x.digest == digest
  }

  lemma {:induction false} SeenPush(seen: set<string>, known: map<Descriptor, nat>, desc: Descriptor, n: nat)
    requires SeenIsKnown(seen, known)
    ensures SeenIsKnown(seen + {desc.digest}, known[desc := n])
  {
    var known' := known[desc := n];
    forall digest | digest in seen + {desc.digest} ensures exists x :: x in known' && x.digest == digest {
      if digest in seen {
        var x :| x in known && x.digest == digest;
        assert x in known';
      } else {
        assert desc in known';
      }
    }
  }

  ghost predicate Levels(graph: Graph, opens: Opener, root: Descriptor, seen: set<string>, queue: seq<Descriptor>,
                         popped: set<Descriptor>, done: set<Descriptor>, known: map<Descriptor, nat>, depth: nat) {
    && done <= popped
    && Depths(graph, opens, root, seen, known)
    && ByDepth(queue, popped, known, depth)
    && LeadsDeeper(graph, opens, done, known)
  }

  lemma {:induction false} LevelsStart(graph: Graph, opens: Opener, root: Descriptor, seen: set<string>)
    requires seen == if root.digest != "" then {root.digest} else {}
    ensures Levels(graph, opens, root, seen, [root], {}, {}, map[root := 1], 1)
  {
    if opens(root) {
      assert Chain(graph, opens, root, [root]) && [root][|[root]| - 1] == root && |[root]| == 1;
    }
  }

  /** The head is taken off the queue. */
  lemma {:induction false} LevelsPop(graph: Graph, opens: Opener, root: Descriptor, seen: set<string>,
                                     queue: seq<Descriptor>, popped: set<Descriptor>, known: map<Descriptor, nat>,
                                     depth: nat)
    requires |queue| > 0 && Levels(graph, opens, root, seen, queue, popped, popped, known, depth)
    ensures queue[0] in known && depth <= known[queue[0]]
    ensures Levels(graph, opens, root, seen, queue[1..], popped + {queue[0]}, popped, known, known[queue[0]])
  {
    SameElements(queue, popped);
  }

  /** A container with a new digest, found in one of depth `depth`, is queued. */
  lemma {:induction false} LevelsPush(graph: Graph, opens: Opener, root: Descriptor, seen: set<string>,
                                      queue: seq<Descriptor>, popped: set<Descriptor>, done: set<Descriptor>,
                                      known: map<Descriptor, nat>, depth: nat, desc: Descriptor)
    requires Levels(graph, opens, root, seen, queue, popped, done, known, depth)
    requires EndsChain(graph, opens, root, desc, depth + 1) && opens(desc)
    requires desc.digest != "" && desc.digest !in seen
    ensures Levels(graph, opens, root, seen + {desc.digest}, queue + [desc], popped, done,
                   known[desc := depth + 1], depth)
  {
    DepthsPush(graph, opens, root, seen, known, depth + 1, desc);
    ByDepthPush(queue, popped, known, depth, desc);
    DeeperPush(graph, opens, done, known, depth, desc);
  }

  lemma {:induction false} DepthsPush(graph: Graph, opens: Opener, root: Descriptor, seen: set<string>,
                                      known: map<Descriptor, nat>, n: nat, desc: Descriptor)
    requires Depths(graph, opens, root, seen, known) && EndsChain(graph, opens, root, desc, n) && opens(desc)
    requires desc.digest != "" && desc.digest !in seen
    ensures desc !in known && Depths(graph, opens, root, seen + {desc.digest}, known[desc := n])
  {
    SeenPush(seen, known, desc, n);
  }

  lemma {:induction false} ByDepthPush(queue: seq<Descriptor>, popped: set<Descriptor>, known: map<Descriptor, nat>,
                                       depth: nat, desc: Descriptor)
    requires ByDepth(queue, popped, known, depth) && desc !in known
    ensures ByDepth(queue + [desc], popped, known[desc := depth + 1], depth)
  {
    assert Elements(queue + [desc]) == Elements(queue) + {desc};
  }

  lemma {:induction false} DeeperPush(graph: Graph, opens: Opener, done: set<Descriptor>, known: map<Descriptor, nat>,
                                      depth: nat, desc: Descriptor)
    requires LeadsDeeper(graph, opens, done, known) && desc !in known && forall d :: d in done ==> d in known
    ensures LeadsDeeper(graph, opens, done, known[desc := depth + 1])
  {
    var known' := known[desc := depth + 1];
    forall y, e | y in done && y in known' && opens(y) && Edge(graph, y, e) && opens(e) && e.digest != ""
      ensures KnownBy(known', e, known'[y] + 1)
    {
      KnownStays(known, known', e, known[y] + 1);
    }
  }

  lemma {:induction false} KnownStays(known: map<Descriptor, nat>, known': map<Descriptor, nat>, e: Descriptor, n: nat)
    requires KnownBy(known, e, n) && forall d :: d in known ==> d in known' && known'[d] == known[d]
    ensures KnownBy(known', e, n)
  {
    var x :| x in known && x.digest == e.digest && known[x] <= n;
    assert x in known';
  }

  /** All successors of the current container have been looked at. */
  lemma {:induction false} LevelsOpened(graph: Graph, opens: Opener, root: Descriptor, want: string,
                                        seen: set<string>, queue: seq<Descriptor>, popped: set<Descriptor>,
                                          current: Descriptor,
                                        known: map<Descriptor, nat>, depth: nat)
    requires Levels(graph, opens, root, seen, queue, popped + {current}, popped, known, depth)
    requires current in known && known[current] == depth
    requires opens(current) ==>
               current in graph && graph[current].Some? && LookedAt(graph[current].value, opens, want, seen)
    ensures Levels(graph, opens, root, seen, queue, popped + {current}, popped + {current}, known, depth)
  {
    forall d | d in known ensures known[d] <= depth + 1 {
      if d in Elements(queue) {
        assert d in queue;
      }
    }
    forall e | opens(current) && Edge(graph, current, e) && opens(e) && e.digest != ""
      ensures KnownBy(known, e, depth + 1)
    {
      assert e.digest in seen;
      var x :| x in known && x.digest == e.digest;
      assert known[x] <= depth + 1;
    }
  }

  /** The file is not among the successors of what was popped. */
  lemma {:induction false} LacksSoFar(graph: Graph, opens: Opener, want: string, seen: set<string>,
                                      popped: set<Descriptor>)
    requires forall d :: d in popped && opens(d) ==> Opened(graph, opens, want, seen, d)
    ensures forall d :: d in popped && opens(d) ==> Lacks(graph, d, want)
  {
    forall d | d in popped && opens(d) ensures Lacks(graph, d, want) {
      assert Opened(graph, opens, want, seen, d);
    }
  }

  /** The first `n` successors have been looked at. */
  ghost predicate LookedUpTo(successors: seq<Descriptor>, n: nat, opens: Opener, want: string, seen: set<string>) {
    forall i :: 0 <= i < n && i < |successors| ==>
      !Matches(successors[i], want)
      && (opens(successors[i]) && successors[i].digest != "" ==> successors[i].digest in seen)
  }

  /** The first of the successors that is the file. */
  ghost predicate FirstMatch(successors: seq<Descriptor>, want: string, desc: Descriptor) {
    exists i :: && 0 <= i < |successors| && successors[i] == desc && Matches(desc, want)
                && forall j :: 0 <= j < i ==> !Matches(successors[j], want)
  }

  lemma {:induction false} ShallowIsPopped(queue: seq<Descriptor>, popped: set<Descriptor>,
                                           known: map<Descriptor, nat>, depth: nat, x: Descriptor)
    requires ByDepth(queue, popped, known, depth) && x in known && known[x] < depth
    ensures x in popped
  {
    forall d | d in queue ensures d in known && known[d] >= depth {
    }
  }

  /** A chain that is not longer than the current depth ends in a container whose content is known, no deeper
      than the chain is long. */
  lemma {:induction false} ShortChainIsKnown(graph: Graph, opens: Opener, root: Descriptor, seen: set<string>,
                                             queue: seq<Descriptor>, popped: set<Descriptor>, done: set<Descriptor>,
                                             known: map<Descriptor, nat>, depth: nat, p: seq<Descriptor>)
    returns (x: Descriptor)
    requires Levels(graph, opens, root, seen, queue, popped, done, known, depth)
    requires (forall d :: d in popped && d !in done ==> d in known && known[d] == depth)
    requires Determined(graph, opens) && Closed(graph) && (forall d :: d in known ==> d in graph)
    requires Chain(graph, opens, root, p) && |p| <= depth
    ensures x in known && opens(x) && known[x] <= |p| && p[|p| - 1] in graph && graph[x] == graph[p[|p| - 1]]
    decreases |p|
  {
    if |p| == 1 {
      x := root;
    } else {
      var init, e := p[..|p| - 1], p[|p| - 1];
      var y := ShortChainIsKnown(graph, opens, root, seen, queue, popped, done, known, depth, init);
      assert Edge(graph, p[|p| - 2], p[|p| - 2 + 1]);
      ShallowIsPopped(queue, popped, known, depth, y);
      assert Edge(graph, y, e) && KnownBy(known, e, known[y] + 1);
      x :| x in known && x.digest == e.digest && known[x] <= known[y] + 1;
      assert opens(p[0]);
    }
  }

  /** No successor of the container is the file, and fetching them has not failed. */
  ghost predicate Lacks(graph: Graph, c: Descriptor, want: string) {
    c in graph && graph[c].Some? && forall d :: d in graph[c].value ==> !Matches(d, want)
  }

  /** No chain shorter than `n` ends in a container that lists the file or cannot be fetched. */
  ghost predicate NothingNearer(graph: Graph, opens: Opener, root: Descriptor, want: string, n: nat) {
    forall p :: Chain(graph, opens, root, p) && |p| < n ==> Lacks(graph, p[|p| - 1], want)
  }

  /** `c` lists the file, or cannot be fetched, and no container nearer to the root is like that. */
  ghost predicate Nearest(graph: Graph, opens: Opener, root: Descriptor, want: string, c: Descriptor) {
    exists p :: Chain(graph, opens, root, p) && p[|p| - 1] == c && NothingNearer(graph, opens, root, want, |p|)
  }

  lemma {:induction false} CurrentIsNearest(graph: Graph, opens: Opener, root: Descriptor, want: string,
                                            seen: set<string>, queue: seq<Descriptor>, popped: set<Descriptor>,
                                            current: Descriptor, known: map<Descriptor, nat>, depth: nat)
    requires Levels(graph, opens, root, seen, queue, popped + {current}, popped, known, depth)
    requires current in known && known[current] == depth && opens(current)
    requires forall d :: d in popped && opens(d) ==> Lacks(graph, d, want)
    requires Closed(graph) && forall d :: d in known ==> d in graph
    ensures Determined(graph, opens) ==> Nearest(graph, opens, root, want, current)
  {
    if Determined(graph, opens) {
      forall p | Chain(graph, opens, root, p) && |p| < depth ensures Lacks(graph, p[|p| - 1], want) {
        var x := ShortChainIsKnown(graph, opens, root, seen, queue, popped + {current}, popped, known, depth, p);
        ShallowIsPopped(queue, popped + {current}, known, depth, x);
      }
      var p :| Chain(graph, opens, root, p) && p[|p| - 1] == current && |p| == depth;
      assert NothingNearer(graph, opens, root, want, |p|);
    }
  }

  /** The search for any choice of descriptors to open. It ends on every finite graph: each descriptor
      it queues uses up a digest. */
  method Search(graph: Graph, opens: Opener, root: Descriptor, want: string) returns (result: SearchResult)
    requires Closed(graph) && root in graph
    ensures result.Found? ==> Matches(result.desc, want)
    ensures result.Found? ==> exists c :: Reachable(graph, opens, root, c) && Edge(graph, c, result.desc)
    ensures result.FetchFailed? ==> exists c :: c in graph && Reachable(graph, opens, root, c) && graph[c].None?
    ensures Determined(graph, opens) && result.NotFound? ==>
              AllFetch(graph, opens, root) && !HasFile(graph, opens, root, want)
    ensures Determined(graph, opens) && result.Found? ==> exists c ::
              && Nearest(graph, opens, root, want, c) && c in graph && graph[c].Some?
              && FirstMatch(graph[c].value, want, result.desc)
    ensures Determined(graph, opens) && result.FetchFailed? ==> exists c ::
              Nearest(graph, opens, root, want, c) && c in graph && graph[c].None?
  {
    var seen: set<string> := if root.digest != "" then {root.digest} else {};
    var queue := [root];
    ghost var popped: set<Descriptor> := {};
    ghost var known: map<Descriptor, nat> := map[root := 1];
    ghost var depth: nat := 1;
    LevelsStart(graph, opens, root, seen);
    Started(graph, opens, root, want, seen);
    while |queue| > 0
      invariant Progress(graph, opens, root, want, seen, queue, popped)
      invariant Levels(graph, opens, root, seen, queue, popped, popped, known, depth)
      decreases |Digests(graph) - seen|, |queue|
    {
      var current := queue[0];
      var outcome: Option<SearchResult>;
      ghost var before := seen;
      outcome, seen, queue, known, depth := Open(graph, opens, root, want, seen, queue, popped, known, depth);
      if outcome.Some? {
        return outcome.value;
      }
      popped := popped + {current};
      FewerDigests(graph, before, seen);
    }
    if Determined(graph, opens) {
      Exhausted(graph, opens, root, want, seen, popped);
    }
    return NotFound;
  }

  lemma Started(graph: Graph, opens: Opener, root: Descriptor, want: string, seen: set<string>)
    requires root in graph && seen == if root.digest != "" then {root.digest} else {}
    ensures Progress(graph, opens, root, want, seen, [root], {})
  {
    if opens(root) {
      RootReachable(graph, opens, root);
    }
    assert root in {} + Elements([root]);
    assert root.digest in Digests(graph);
  }

  /** Takes the head off the queue. */
  method Open(graph: Graph, opens: Opener, ghost root: Descriptor, want: string, seen: set<string>,
              queue: seq<Descriptor>, ghost popped: set<Descriptor>, ghost known: map<Descriptor, nat>,
              ghost depth: nat)
    returns (outcome: Option<SearchResult>, seen': set<string>, queue': seq<Descriptor>,
             ghost known': map<Descriptor, nat>, ghost depth': nat)
    requires |queue| > 0 && Levels(graph, opens, root, seen, queue, popped, popped, known, depth)
    requires Closed(graph) && |queue| > 0 && Progress(graph, opens, root, want, seen, queue, popped)
    ensures outcome.None? ==> Progress(graph, opens, root, want, seen', queue', popped + {queue[0]})
    ensures outcome.None? ==> seen <= seen' <= Digests(graph) && (seen' == seen ==> |queue'| < |queue|)
    ensures outcome.Some? && outcome.value.Found? ==>
              && Matches(outcome.value.desc, want)
              && exists c :: Reachable(graph, opens, root, c) && Edge(graph, c, outcome.value.desc)
    ensures outcome.Some? && outcome.value.FetchFailed? ==>
              exists c :: c in graph && Reachable(graph, opens, root, c) && graph[c].None?
    ensures outcome.Some? ==> !outcome.value.NotFound?
    ensures outcome.None? ==>
              Levels(graph, opens, root, seen', queue', popped + {queue[0]}, popped + {queue[0]}, known', depth')
    ensures outcome.Some? && Determined(graph, opens) ==> Nearest(graph, opens, root, want, queue[0])
    ensures outcome.Some? && outcome.value.Found? ==>
              queue[0] in graph && graph[queue[0]].Some? && FirstMatch(graph[queue[0]].value, want, outcome.value.desc)
    ensures outcome.Some? && outcome.value.FetchFailed? ==> queue[0] in graph && graph[queue[0]].None?
  {
    var current := queue[0];
    outcome, seen', queue' := None, seen, queue[1..];
    LevelsPop(graph, opens, root, seen, queue, popped, known, depth);
    known', depth' := known, known[current];
    assert current in popped + Elements(queue);
    if !opens(current) {
      LevelsOpened(graph, opens, root, want, seen, queue', popped, current, known, depth');
      Moved(graph, opens, root, want, seen, queue, popped);
      return;
    }
    LacksSoFar(graph, opens, want, seen, popped);
    CurrentIsNearest(graph, opens, root, want, seen, queue', popped, current, known, depth');
    if graph[current].None? {
      return Some(FetchFailed), seen', queue', known', depth';
    }
    var found: Option<Descriptor>;
    ghost var pushed;
    ghost var rest := queue';
    found, seen', queue', pushed := LookAt(graph, opens, root, current, graph[current].value, want, seen, queue');
    known' := LevelsPushed(graph, opens, root, seen, rest, popped + {current}, popped, known, depth', current, pushed,
                           seen', queue');
    if found.Some? {
      return Some(Found(found.value)), seen', queue', known', depth';
    }
    LevelsOpened(graph, opens, root, want, seen', queue', popped, current, known', depth');
    Popped(graph, opens, root, want, seen, queue, popped, seen', queue');
  }

  /** The inner loop: looks for the file among the successors and queues new containers. */
  method LookAt(ghost graph: Graph, opens: Opener, ghost root: Descriptor, ghost current: Descriptor,
                successors: seq<Descriptor>, want: string, seen: set<string>, queue: seq<Descriptor>)
    returns (found: Option<Descriptor>, seen': set<string>, queue': seq<Descriptor>, ghost pushed: seq<Descriptor>)
    requires Closed(graph) && current in graph && graph[current] == Some(successors)
             && Reachable(graph, opens, root, current)
    requires seen <= Digests(graph)
    ensures found.Some? ==> FirstMatch(successors, want, found.value)
    ensures found.None? ==> LookedAt(successors, opens, want, seen')
    ensures Grown(graph, opens, root, current, seen, queue, seen', queue', pushed)
  {
    found, seen', queue', pushed := None, seen, queue, [];
    for i := 0 to |successors|
      invariant LookedUpTo(successors, i, opens, want, seen')
      invariant Grown(graph, opens, root, current, seen, queue, seen', queue', pushed)
    {
      var desc := successors[i];
      assert Edge(graph, current, desc);
      if Matches(desc, want) {
        IsFirstMatch(successors, i, opens, want, seen');
        return Some(desc), seen', queue', pushed;
      }
      if desc.digest == "" || desc.digest in seen' || !opens(desc) {
        continue;
      }
      GrownMore(graph, opens, root, current, seen, queue, seen', queue', pushed, desc);
      seen' := seen' + {desc.digest};
      queue' := queue' + [desc];
      pushed := pushed + [desc];
    }
  }

  /** The queue has grown by `pushed`. */
  ghost predicate Grown(graph: Graph, opens: Opener, root: Descriptor, current: Descriptor, seen: set<string>,
                        queue: seq<Descriptor>, seen': set<string>, queue': seq<Descriptor>, pushed: seq<Descriptor>) {
    && Queued(graph, opens, root, seen, queue, seen', queue')
    && queue' == queue + pushed && Pushes(graph, opens, current, seen, pushed, seen')
  }

  lemma GrownMore(graph: Graph, opens: Opener, root: Descriptor, current: Descriptor, seen: set<string>,
                  queue: seq<Descriptor>, seen': set<string>, queue': seq<Descriptor>, pushed: seq<Descriptor>,
                  desc: Descriptor)
    requires Grown(graph, opens, root, current, seen, queue, seen', queue', pushed)
    requires Closed(graph) && Reachable(graph, opens, root, current) && Edge(graph, current, desc)
    requires opens(desc) && desc.digest != "" && desc.digest !in seen'
    ensures Grown(graph, opens, root, current, seen, queue, seen' + {desc.digest}, queue' + [desc], pushed + [desc])
  {
    ReachableStep(graph, opens, root, current, desc);
    QueuedMore(graph, opens, root, seen, queue, seen', queue', desc);
    PushesMore(graph, opens, current, seen, pushed, seen', desc);
    assert queue' + [desc] == queue + (pushed + [desc]);
  }

  lemma IsFirstMatch(successors: seq<Descriptor>, i: nat, opens: Opener, want: string, seen: set<string>)
    requires i < |successors| && LookedUpTo(successors, i, opens, want, seen) && Matches(successors[i], want)
    ensures FirstMatch(successors, want, successors[i])
  {
  }

  /** Containers below `current` with new digests, in the order in which they were queued. */
  ghost predicate Pushes(graph: Graph, opens: Opener, current: Descriptor, seen: set<string>, pushed: seq<Descriptor>,
                         seen': set<string>)
    decreases |pushed|
  {
    if pushed == [] then seen' == seen
    else
      var last := pushed[|pushed| - 1];
      && last.digest in seen' && last.digest != "" && opens(last) && Edge(graph, current, last)
      && Pushes(graph, opens, current, seen, pushed[..|pushed| - 1], seen' - {last.digest})
  }

  lemma {:induction false} PushesMore(graph: Graph, opens: Opener, current: Descriptor, seen: set<string>,
                                      pushed: seq<Descriptor>, seen': set<string>, desc: Descriptor)
    requires Pushes(graph, opens, current, seen, pushed, seen')
    requires desc.digest !in seen' && desc.digest != "" && opens(desc) && Edge(graph, current, desc)
    ensures Pushes(graph, opens, current, seen, pushed + [desc], seen' + {desc.digest})
  {
    assert (pushed + [desc])[..|pushed + [desc]| - 1] == pushed;
    assert seen' + {desc.digest} - {desc.digest} == seen';
  }

  /** The queue has grown by reachable containers with new digests. */
  ghost predicate Queued(graph: Graph, opens: Opener, root: Descriptor, seen: set<string>, queue: seq<Descriptor>,
                         seen': set<string>, queue': seq<Descriptor>) {
    && seen <= seen' <= Digests(graph)
    && queue <= queue'
    && (seen' == seen ==> queue' == queue)
    && (forall d :: d in queue' ==> d in queue || (d in graph && opens(d) && Reachable(graph, opens, root, d)))
    && (forall digest :: digest in seen' && digest !in seen ==> exists d :: d in queue' && d.digest == digest)
  }

  lemma QueuedMore(graph: Graph, opens: Opener, root: Descriptor, seen: set<string>, queue: seq<Descriptor>,
                   seen': set<string>, queue': seq<Descriptor>, desc: Descriptor)
    requires Queued(graph, opens, root, seen, queue, seen', queue')
    requires desc in graph && opens(desc) && Reachable(graph, opens, root, desc) && desc.digest !in seen'
    ensures Queued(graph, opens, root, seen, queue, seen' + {desc.digest}, queue' + [desc])
  {
    var more := queue' + [desc];
    assert desc.digest in Digests(graph);
    forall digest | digest in seen' + {desc.digest} && digest !in seen
      ensures exists d :: d in more && d.digest == digest
    {
      if digest in seen' {
        var d :| d in queue' && d.digest == digest;
        assert d in more;
      } else {
        assert desc in more;
      }
    }
  }

  lemma {:induction false} LevelsPushOne(graph: Graph, opens: Opener, root: Descriptor, seen: set<string>,
                                         queue: seq<Descriptor>, popped: set<Descriptor>, done: set<Descriptor>,
                                         known: map<Descriptor, nat>, depth: nat, current: Descriptor,
                                         desc: Descriptor, seen': set<string>, queue': seq<Descriptor>)
    returns (known': map<Descriptor, nat>)
    requires Levels(graph, opens, root, seen, queue, popped, done, known, depth)
    requires current in known && known[current] == depth && opens(current) && Edge(graph, current, desc)
    requires opens(desc) && desc.digest != "" && desc.digest !in seen
    requires seen' == seen + {desc.digest} && queue' == queue + [desc]
    ensures Levels(graph, opens, root, seen', queue', popped, done, known', depth)
    ensures current in known' && known'[current] == depth
  {
    assert EndsChain(graph, opens, root, current, depth);
    ChainGrows(graph, opens, root, current, depth, desc);
    LevelsPush(graph, opens, root, seen, queue, popped, done, known, depth, desc);
    known' := known[desc := depth + 1];
  }

  lemma {:induction false} PushesSplit(graph: Graph, opens: Opener, current: Descriptor, seen: set<string>,
                                       pushed: seq<Descriptor>, seen': set<string>, queue: seq<Descriptor>)
    requires pushed != [] && Pushes(graph, opens, current, seen, pushed, seen')
    ensures var init, last := pushed[..|pushed| - 1], pushed[|pushed| - 1];
            && Pushes(graph, opens, current, seen, init, seen' - {last.digest})
            && last.digest != "" && opens(last) && Edge(graph, current, last)
            && seen' == seen' - {last.digest} + {last.digest} && queue + pushed == queue + init + [last]
  {
  }

  /** Queueing what was found below the current container keeps the levels. */
  lemma {:induction false} LevelsPushed(graph: Graph, opens: Opener, root: Descriptor, seen: set<string>,
                                        queue: seq<Descriptor>, popped: set<Descriptor>, done: set<Descriptor>,
                                        known: map<Descriptor, nat>, depth: nat, current: Descriptor,
                                        pushed: seq<Descriptor>, seen': set<string>, queue': seq<Descriptor>)
    returns (known': map<Descriptor, nat>)
    requires Levels(graph, opens, root, seen, queue, popped, done, known, depth)
    requires current in known && known[current] == depth && opens(current)
    requires Pushes(graph, opens, current, seen, pushed, seen') && queue' == queue + pushed
    ensures Levels(graph, opens, root, seen', queue', popped, done, known', depth)
    ensures current in known' && known'[current] == depth
    decreases |pushed|
  {
    if pushed == [] {
      known' := known;
      assert queue' == queue && seen' == seen;
    } else {
      var init, last := pushed[..|pushed| - 1], pushed[|pushed| - 1];
      PushesSplit(graph, opens, current, seen, pushed, seen', queue);
      var middle := LevelsPushed(graph, opens, root, seen, queue, popped, done, known, depth, current, init,
                                 seen' - {last.digest}, queue + init);
      known' := LevelsPushOne(graph, opens, root, seen' - {last.digest}, queue + init, popped, done, middle, depth,
                              current, last, seen', queue');
    }
  }

  /** A descriptor that cannot have children moves from the queue to the popped ones. */
  lemma Moved(graph: Graph, opens: Opener, root: Descriptor, want: string, seen: set<string>, queue: seq<Descriptor>,
              popped: set<Descriptor>)
    requires |queue| > 0 && Progress(graph, opens, root, want, seen, queue, popped) && !opens(queue[0])
    ensures Progress(graph, opens, root, want, seen, queue[1..], popped + {queue[0]})
  {
    SameElements(queue, popped);
  }

  lemma SameElements(queue: seq<Descriptor>, popped: set<Descriptor>)
    requires |queue| > 0
    ensures popped + {queue[0]} + Elements(queue[1..]) == popped + Elements(queue)
  {
    assert queue == [queue[0]] + queue[1..];
  }

  /** The head of the queue has been opened. */
  lemma Popped(graph: Graph, opens: Opener, root: Descriptor, want: string, seen: set<string>, queue: seq<Descriptor>,
               popped: set<Descriptor>, seen': set<string>, queue': seq<Descriptor>)
    requires |queue| > 0 && Progress(graph, opens, root, want, seen, queue, popped)
    requires Queued(graph, opens, root, seen, queue[1..], seen', queue') && Opened(graph, opens, want, seen', queue[0])
    ensures Progress(graph, opens, root, want, seen', queue', popped + {queue[0]})
  {
    SameElements(queue, popped);
    var all, all' := popped + Elements(queue), popped + {queue[0]} + Elements(queue');
    forall d | d in all ensures d in all' {
      if d in Elements(queue[1..]) {
        assert d in queue';
      }
    }
    forall digest | digest in seen' ensures exists d :: d in all' && d.digest == digest {
      if digest in seen {
        var d :| d in all && d.digest == digest;
        assert d in all';
      } else {
        var d :| d in queue' && d.digest == digest;
        assert d in all';
      }
    }
    forall d | d in all'
      ensures d in graph && (opens(d) ==> Reachable(graph, opens, root, d)) && (d != root ==> opens(d))
    {
      if d !in all {
        assert d in queue' && d !in queue[1..];
      }
    }
    forall d | d in popped && opens(d) ensures Opened(graph, opens, want, seen', d) {
      assert Opened(graph, opens, want, seen, d);
    }
  }

  lemma FewerDigests(graph: Graph, seen: set<string>, seen': set<string>)
    requires seen <= seen' <= Digests(graph)
    ensures |Digests(graph) - seen'| <= |Digests(graph) - seen|
    ensures seen' != seen ==> |Digests(graph) - seen'| < |Digests(graph) - seen|
  {
    var more, less := Digests(graph) - seen, Digests(graph) - seen';
    assert more == less + (seen' - seen);
    assert |more| == |less| + |seen' - seen|;
    if seen' != seen {
      assert seen' - seen != {};
    }
  }

  /** When nothing is queued any more, every chain has been opened: a container with the content of its
      end was popped. */
  lemma {:induction false} ChainIsOpened(graph: Graph, opens: Opener, root: Descriptor, want: string,
                                         seen: set<string>, popped: set<Descriptor>,
                                         p: seq<Descriptor>) returns (x: Descriptor)
    requires Determined(graph, opens) && Closed(graph) && Progress(graph, opens, root, want, seen, [], popped)
             && Chain(graph, opens, root, p)
    ensures p[|p| - 1] in graph && x in popped && opens(x) && graph[x] == graph[p[|p| - 1]]
    decreases |p|
  {
    assert Elements([]) == {};
    if |p| == 1 {
      x := root;
    } else {
      var init, d, e := p[..|p| - 1], p[|p| - 2], p[|p| - 1];
      var y := ChainIsOpened(graph, opens, root, want, seen, popped, init);
      assert Edge(graph, p[|p| - 2], p[|p| - 2 + 1]);
      assert Opened(graph, opens, want, seen, y);
      assert e.digest in seen;
      x :| x in popped + Elements([]) && x.digest == e.digest;
      assert opens(p[0]);
    }
  }

  lemma {:induction false} Exhausted(graph: Graph, opens: Opener, root: Descriptor, want: string, seen: set<string>,
                                     popped: set<Descriptor>)
    requires Determined(graph, opens) && Closed(graph) && Progress(graph, opens, root, want, seen, [], popped)
    ensures AllFetch(graph, opens, root) && !HasFile(graph, opens, root, want)
  {
    forall c | Reachable(graph, opens, root, c) ensures Opened(graph, opens, want, seen, c) {
      var p :| Chain(graph, opens, root, p) && p[|p| - 1] == c;
      var x := ChainIsOpened(graph, opens, root, want, seen, popped, p);
      assert Opened(graph, opens, want, seen, x);
    }
  }

  // ---- the search through manifests and indexes --------------------------------------------------------

  /** `fetchFileFromOCI`, up to fetching the content of the descriptor it finds. With contents
      determined by their digests the nearest container that lists the file or cannot be fetched
      decides; if fetches succeed, "not found" is reported if and only if no container reachable from
      the root lists the file. */
  method FetchFile(graph: Graph, root: Descriptor, want: string) returns (result: SearchResult)
    requires Closed(graph) && root in graph
    ensures result.Found? ==>
              && Matches(result.desc, want)
              && exists c :: Reachable(graph, CanHaveChildren, root, c) && Edge(graph, c, result.desc)
    ensures result.FetchFailed? ==> !AllFetch(graph, CanHaveChildren, root)
    ensures Determined(graph, CanHaveChildren) && result.NotFound? ==>
              AllFetch(graph, CanHaveChildren, root) && !HasFile(graph, CanHaveChildren, root, want)
    ensures Determined(graph, CanHaveChildren) && AllFetch(graph, CanHaveChildren, root) ==>
              (result.NotFound? <==> !HasFile(graph, CanHaveChildren, root, want))
    ensures result.Found? ==> result.desc.path == want || result.desc.title == want
    ensures Determined(graph, CanHaveChildren) && result.NotFound? ==>
              forall c, d :: Reachable(graph, CanHaveChildren, root, c) && Edge(graph, c, d) ==>
                               d.path != want && d.title != want
    ensures Determined(graph, CanHaveChildren) && result.Found? ==> exists c ::
              && Nearest(graph, CanHaveChildren, root, want, c) && c in graph && graph[c].Some?
              && FirstMatch(graph[c].value, want, result.desc)
    ensures Determined(graph, CanHaveChildren) && result.FetchFailed? ==> exists c ::
              Nearest(graph, CanHaveChildren, root, want, c) && c in graph && graph[c].None?
  {
    result := Search(graph, CanHaveChildren, root, want);
  }
}
