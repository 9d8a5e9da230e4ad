/** Numbered attempts at running one procedure in Docker: an active container is reused, failed
    ones are kept for inspection up to a limit, and every new container gets a number and a name
    of its own. */
module DockerAttempts {
  import opened Domain

  /** How many failed containers survive the creation of the next one. */
  const FAILED_RETENTION: nat := 3

  // ---- numbers and names ------------------------------------------------------------------------

  function DigitChar(d: nat): char
    requires d < 10
  {
    ('0' as int + d) as char
  }

  predicate IsDigit(c: char) {
    '0' <= c <= '9'
  }

  /** `strconv.Itoa` of a number that is not negative. */
  function Itoa(n: nat): (s: string)
    ensures |s| > 0 && forall i :: 0 <= i < |s| ==> IsDigit(s[i])
  {
    if n < 10 then [DigitChar(n)] else Itoa(n / 10) + [DigitChar(n % 10)]
  }

  function ParseDigits(s: string): nat
    requires forall i :: 0 <= i < |s| ==> IsDigit(s[i])
  {
    if s == [] then 0
    else
      assert IsDigit(s[|s| - 1]);
      10 * ParseDigits(s[..|s| - 1]) + (s[|s| - 1] as int - '0' as int)
  }

  predicate AllDigits(s: string) {
    |s| > 0 && forall i :: 0 <= i < |s| ==> IsDigit(s[i])
  }

  /** `strconv.Atoi`: an optional sign and at least one digit. */
  function Atoi(s: string): Option<int> {
    if s != "" && (s[0] == '+' || s[0] == '-') then
      if !AllDigits(s[1..]) then None
      else
        var n: int := ParseDigits(s[1..]);
        Some(if s[0] == '-' then -n else n)
    else if AllDigits(s) then Some(ParseDigits(s))
    else None
  }

  lemma {:induction false} ParsePrinted(n: nat)
    ensures ParseDigits(Itoa(n)) == n
    decreases n
  {
    if n < 10 {
      assert Itoa(n)[..0] == [];
    } else {
      ParsePrinted(n / 10);
      assert Itoa(n)[..|Itoa(n)| - 1] == Itoa(n / 10);
    }
  }

  /** A printed number reads back as itself. */
  lemma AtoiItoa(n: nat)
    ensures Atoi(Itoa(n)) == Some(n)
  {
    ParsePrinted(n);
    assert IsDigit(Itoa(n)[0]);
  }

  /** A sign is read in front of the digits. */
  lemma AtoiSigned(n: nat)
    ensures Atoi("+" + Itoa(n)) == Some(n)
    ensures Atoi("-" + Itoa(n)).Some? && Atoi("-" + Itoa(n)).value + n == 0
  {
    ParsePrinted(n);
    assert ("+" + Itoa(n))[1..] == Itoa(n) && ("-" + Itoa(n))[1..] == Itoa(n);
  }

  /** `dockerProcedureAttemptName`, for a base name that is a sanitised container name. */
  function AttemptName(base: string, attempt: int): string {
    if attempt <= 1 then base else base + "-r" + Itoa(attempt)
  }

  /** `dockerProcedureAttemptNumber`: the label counts, then the name, then it is the first. */
  function AttemptNumber(tag: string, name: string, base: string): int {
    if Atoi(tag).Some? && Atoi(tag).value > 0 then Atoi(tag).value
    else if base + "-r" <= name && Atoi(name[|base| + 2..]).Some? && Atoi(name[|base| + 2..]).value > 0 then
      Atoi(name[|base| + 2..]).value
    else 1
  }

  lemma NumberFromLabel(n: nat, name: string, base: string)
    requires n >= 1
    ensures AttemptNumber(Itoa(n), name, base) == n
  {
    AtoiItoa(n);
  }

  /** A container that lost its attempt label is still numbered by its name. */
  lemma NumberFromName(n: nat, base: string)
    requires n >= 1
    ensures AttemptNumber("", AttemptName(base, n), base) == n
    ensures AttemptName(base, n) == if n == 1 then base else base + "-r" + Itoa(n)
  {
    if n > 1 {
      assert AttemptName(base, n) == (base + "-r") + Itoa(n);
      assert AttemptName(base, n)[|base| + 2..] == Itoa(n);
      AtoiItoa(n);
    }
  }

  /** Different attempts have different names. */
  lemma NamesDiffer(base: string, n: nat, m: nat)
    requires n >= 1 && m >= 1 && n != m
    ensures AttemptName(base, n) != AttemptName(base, m)
  {
    NumberFromName(n, base);
    NumberFromName(m, base);
  }

  // ---- attempts, as listed from the engine ---------------------------------------------------------

  /** `running` covers running, restarting, paused and created containers. */
  datatype Container = Container(tag: string, name: string, created: int, exitCode: int, running: bool, start: bool)

  datatype Attempt = Attempt(id: nat, number: int, created: int, exitCode: int, running: bool, start: bool)

  function AttemptOf(id: nat, c: Container, base: string): Attempt {
    Attempt(id, AttemptNumber(c.tag, c.name, base), c.created, c.exitCode, c.running, c.start)
  }

  predicate FailedAttempt(a: Attempt) {
    !a.running && a.exitCode != 0
  }

  /** By number, then by creation time. */
  predicate AtMost(a: Attempt, b: Attempt) {
    a.number < b.number || (a.number == b.number && a.created <= b.created)
  }

  predicate Sorted(s: seq<Attempt>) {
    forall i, j :: 0 <= i < j < |s| ==> AtMost(s[i], s[j])
  }

  predicate DistinctIds(s: seq<Attempt>) {
    forall i, j :: 0 <= i < j < |s| ==> s[i].id != s[j].id
  }

  ghost predicate SameAttempts(s: seq<Attempt>, t: seq<Attempt>) {
    |s| == |t| && forall a :: a in s <==> a in t
  }

  /** `activeDockerProcedureAttempt`. */
  method ActiveAttempt(items: seq<Attempt>) returns (active: Option<Attempt>)
    ensures active.None? <==> forall i :: 0 <= i < |items| ==> !items[i].running
    ensures active.Some? ==> active.value in items && active.value.running
                             && forall i :: 0 <= i < |items| && items[i].running ==>
                                  items[i].number < active.value.number
                                  || (items[i].number == active.value.number
                                      && items[i].created <= active.value.created)
  {
    active := None;
    for i := 0 to |items|
      invariant active.None? <==> forall j :: 0 <= j < i ==> !items[j].running
      invariant active.Some? ==> active.value in items && active.value.running
                                 && forall j :: 0 <= j < i && items[j].running ==> AtMost(items[j], active.value)
    {
      if items[i].running {
        if active.None? || items[i].number > active.value.number
           || (items[i].number == active.value.number && items[i].created > active.value.created) {
          active := Some(items[i]);
        }
      }
    }
  }

  /** `successfulDockerProcedureAttempts`. */
  method SuccessfulAttempts(items: seq<Attempt>) returns (result: seq<Attempt>)
    ensures forall a :: a in result <==> a in items && !a.running && a.exitCode == 0
  {
    result := [];
    for i := 0 to |items|
      invariant forall a :: a in result <==> a in items[..i] && !a.running && a.exitCode == 0
    {
      if !items[i].running && items[i].exitCode == 0 {
        result := result + [items[i]];
      }
    }
  }

  method FailedAttempts(items: seq<Attempt>) returns (failed: seq<Attempt>)
    requires DistinctIds(items)
    ensures forall a :: a in failed <==> a in items && FailedAttempt(a)
    ensures DistinctIds(failed)
  {
    failed := [];
    for i := 0 to |items|
      invariant forall a :: a in failed <==> a in items[..i] && FailedAttempt(a)
      invariant DistinctIds(failed)
    {
      if !items[i].running && items[i].exitCode != 0 {
        forall j | 0 <= j < |failed| ensures failed[j].id != items[i].id {
          assert failed[j] in items[..i];
        }
        failed := failed + [items[i]];
      }
    }
  }

  /** `sort.Slice` on attempts. */
  method SortAttempts(items: seq<Attempt>) returns (sorted: seq<Attempt>)
    requires DistinctIds(items)
    ensures Sorted(sorted) && SameAttempts(items, sorted) && DistinctIds(sorted)
    ensures forall i, j :: 0 <= i < j < |sorted| ==>
              sorted[i].number < sorted[j].number
              || (sorted[i].number == sorted[j].number && sorted[i].created <= sorted[j].created)
  {
    sorted := [];
    for i := 0 to |items|
      invariant Sorted(sorted) && SameAttempts(items[..i], sorted) && DistinctIds(sorted)
    {
      var k := 0;
      while k < |sorted| && AtMost(sorted[k], items[i])
        invariant k <= |sorted| && forall j :: 0 <= j < k ==> AtMost(sorted[j], items[i])
      {
        k := k + 1;
      }
      InsertKeepsSorted(sorted, k, items[i]);
      InsertKeepsDistinct(items, i, sorted, k);
      sorted := sorted[..k] + [items[i]] + sorted[k..];
    }
    assert items[..|items|] == items;
  }

  lemma InsertKeepsSorted(s: seq<Attempt>, k: nat, a: Attempt)
    requires Sorted(s) && k <= |s| && (forall j :: 0 <= j < k ==> AtMost(s[j], a))
    requires k < |s| ==> !AtMost(s[k], a)
    ensures Sorted(s[..k] + [a] + s[k..])
  {
    forall j | k <= j < |s| ensures AtMost(a, s[j]) {
      assert j == k || AtMost(s[k], s[j]);
    }
  }

  lemma InsertKeepsDistinct(items: seq<Attempt>, i: nat, s: seq<Attempt>, k: nat)
    requires DistinctIds(items) && i < |items| && DistinctIds(s) && SameAttempts(items[..i], s) && k <= |s|
    ensures DistinctIds(s[..k] + [items[i]] + s[k..])
    ensures SameAttempts(items[..i + 1], s[..k] + [items[i]] + s[k..])
  {
    var t := s[..k] + [items[i]] + s[k..];
    assert s == s[..k] + s[k..];
    assert items[..i + 1] == items[..i] + [items[i]];
    forall j | 0 <= j < |s| ensures s[j].id != items[i].id {
      assert s[j] in items[..i];
    }
    forall a ensures a in t <==> a in items[..i + 1] {
      assert a in t <==> a in s || a == items[i];
    }
  }

  /** `prunedDockerProcedureAttempts`: all failed attempts but the last `retain` in the order of
      numbers. */
  method PrunedAttempts(items: seq<Attempt>, retain: nat) returns (pruned: seq<Attempt>)
    requires DistinctIds(items)
    ensures exists kept :: PrunedTo(items, retain, pruned, kept)
  {
    var failed := FailedAttempts(items);
    var sorted := SortAttempts(failed);
    if |sorted| <= retain {
      assert [] + sorted == sorted;
      assert PrunedTo(items, retain, [], sorted);
      return [];
    }
    TailIsLast(sorted, |sorted| - retain);
    pruned := sorted[..|sorted| - retain];
    assert PrunedTo(items, retain, pruned, sorted[|sorted| - retain..]);
  }

  /** The failed attempts are split into those to prune and those to keep, which are the last ones and
      as many as may be retained. */
  ghost predicate PrunedTo(items: seq<Attempt>, retain: nat, pruned: seq<Attempt>, kept: seq<Attempt>) {
    && DistinctIds(pruned + kept) && (forall a :: a in pruned + kept <==> a in items && FailedAttempt(a))
    && |kept| == (if |pruned| + |kept| <= retain then |pruned| + |kept| else retain)
    && forall p, k :: p in pruned && k in kept ==> AtMost(p, k)
  }

  lemma TailIsLast(sorted: seq<Attempt>, k: nat)
    requires Sorted(sorted) && k <= |sorted|
    ensures sorted[..k] + sorted[k..] == sorted
    ensures forall p, q :: p in sorted[..k] && q in sorted[k..] ==> AtMost(p, q)
  {
    forall p, q | p in sorted[..k] && q in sorted[k..] ensures AtMost(p, q) {
      var i :| 0 <= i < k && sorted[i] == p;
      var j :| k <= j < |sorted| && sorted[j] == q;
    }
  }

  /** `nextDockerProcedureAttempt`: the first number above all listed ones. */
  method NextAttempt(items: seq<Attempt>) returns (next: int)
    ensures next >= 1 && forall i :: 0 <= i < |items| ==> items[i].number < next
    ensures next == 1 || exists i :: 0 <= i < |items| && items[i].number == next - 1
  {
    next := 1;
    for i := 0 to |items|
      invariant next >= 1 && forall j :: 0 <= j < i ==> items[j].number < next
      invariant next == 1 || exists j :: 0 <= j < i && items[j].number == next - 1
    {
      if items[i].number >= next {
        next := items[i].number + 1;
      }
    }
  }

  // ---- the containers of one procedure ------------------------------------------------------------

  type Containers = map<nat, Container>

  function Number(cs: Containers, id: nat, base: string): int
    requires id in cs
  {
    AttemptNumber(cs[id].tag, cs[id].name, base)
  }

  function RunningIds(cs: Containers): set<nat> {
    set id | id in cs && cs[id].running
  }

  function FailedIds(cs: Containers): set<nat> {
    set id | id in cs && !cs[id].running && cs[id].exitCode != 0
  }

  ghost predicate NotAfter(cs: Containers, base: string, a: nat, b: nat)
    requires a in cs && b in cs
  {
    AtMost(AttemptOf(a, cs[a], base), AttemptOf(b, cs[b], base))
  }

  /** `kept` are as many of the failed containers as may be retained, and the last ones. */
  ghost predicate Retains(cs: Containers, base: string, kept: set<nat>) {
    && kept <= FailedIds(cs)
    && |kept| == (if |FailedIds(cs)| <= FAILED_RETENTION then |FailedIds(cs)| else FAILED_RETENTION)
    && forall p, k :: p in FailedIds(cs) && p !in kept && k in kept ==> NotAfter(cs, base, p, k)
  }

  ghost predicate NextNumber(cs: Containers, base: string, next: int) {
    && next >= 1 && (forall id :: id in cs ==> Number(cs, id, base) < next)
    && (next == 1 || exists id :: id in cs && Number(cs, id, base) == next - 1)
  }

  /** The kept failures and the new container. */
  function Created(base: string, cs: Containers, now: int, id: nat, kept: set<nat>, next: int): Containers
    requires next >= 1
  {
    (map k | k in kept && k in cs :: cs[k])[id := Container(Itoa(next), AttemptName(base, next), now, 0, true, true)]
  }

  /** What selecting a container for a procedure does to the engine: the last active container is
      reused and nothing changes; without one, the kept failures and one new container remain. */
  ghost predicate Selected(base: string, cs: Containers, now: int, id: nat, cs': Containers) {
    if RunningIds(cs) != {} then
      && cs' == cs && id in RunningIds(cs)
      && forall other :: other in RunningIds(cs) ==> NotAfter(cs, base, other, id)
    else
      id !in cs && exists kept, next {:trigger Retains(cs, base, kept), NextNumber(cs, base, next)} ::
        Retains(cs, base, kept) && NextNumber(cs, base, next)
        && cs' == Created(base, cs, now, id, kept, next)
  }

  class Engine {
    const base: string
    var containers: Containers
    var nextId: nat

    ghost predicate Valid()
      reads this
    {
      forall id :: id in containers ==> id < nextId
    }

    constructor (base: string)
      ensures Valid() && this.base == base && containers == map[]
    {
      this.base, containers, nextId := base, map[], 0;
    }

    /** The list of containers, inspected one by one, in whatever order the engine gives. */
    method Inspect() returns (attempts: seq<Attempt>)
      ensures DistinctIds(attempts)
      ensures forall a :: a in attempts <==> a.id in containers && a == AttemptOf(a.id, containers[a.id], base)
    {
      attempts := [];
      var rest := containers.Keys;
      while rest != {}
        invariant rest <= containers.Keys && DistinctIds(attempts)
        invariant forall a :: a in attempts <==>
                    a.id in containers && a.id !in rest && a == AttemptOf(a.id, containers[a.id], base)
        decreases |rest|
      {
        var id :| id in rest;
        rest := rest - {id};
        attempts := attempts + [AttemptOf(id, containers[id], base)];
      }
    }

    method RemoveAll(items: seq<Attempt>)
      modifies `containers
      ensures forall id :: id in containers <==> id in old(containers) && forall a :: a in items ==> a.id != id
      ensures forall id :: id in containers ==> containers[id] == old(containers)[id]
    {
      for i := 0 to |items|
        invariant forall id :: id in containers <==>
                    id in old(containers) && forall j :: 0 <= j < i ==> items[j].id != id
        invariant forall id :: id in containers ==> containers[id] == old(containers)[id]
      {
        containers := containers - {items[i].id};
      }
    }

    /** Removes what the next container replaces. */
    method MakeRoom(attempts: seq<Attempt>) returns (ghost keptIds: set<nat>)
      requires Lists(base, containers, attempts) && RunningIds(containers) == {}
      modifies `containers
      ensures Retains(old(containers), base, keptIds)
      ensures containers == map k | k in keptIds && k in old(containers) :: old(containers)[k]
    {
      ghost var before := containers;
      var successful := SuccessfulAttempts(attempts);
      RemoveAll(successful);
      var pruned := PrunedAttempts(attempts, FAILED_RETENTION);
      ghost var kept :| PrunedTo(attempts, FAILED_RETENTION, pruned, kept);
      RemoveAll(pruned);
      keptIds := IdsOf(kept);
      KeptAreRetained(base, before, attempts, pruned, kept);
      forall k ensures k in containers <==> k in keptIds {
        WhatIsLeft(base, before, attempts, successful, pruned, kept, k);
      }
    }

    /** `createOrReuseProcedureContainer`, with removals that succeed. */
    method CreateOrReuse(now: int) returns (id: nat, start: bool)
      requires Valid()
      modifies this
      ensures Valid()
      ensures Selected(base, old(containers), now, id, containers)
      ensures id in containers && start == containers[id].start
      ensures RunningIds(old(containers)) != {} ==>
                containers == old(containers) && LastRunning(base, containers, id)
      ensures RunningIds(old(containers)) == {} ==>
                && id !in old(containers) && start && containers[id].running
                && containers[id].created == now && |containers| <= 4
                && forall k :: k in containers && k != id ==>
                     k in old(containers) && containers[k] == old(containers)[k] && containers[k].exitCode != 0
    {
      ghost var before := containers;
      var attempts := Inspect();
      var active := ActiveAttempt(attempts);
      if active.Some? {
        id, start := active.value.id, active.value.start;
        ActiveIsSelected(base, containers, attempts, active.value, now);
        SelectedIsLast(base, containers, now, id);
        return;
      }
      NothingRuns(base, before, attempts);
      ghost var kept := MakeRoom(attempts);
      var next := NextAttempt(attempts);
      NextIsNext(base, before, attempts, next);
      id, start := nextId, true;
      nextId := nextId + 1;
      containers := containers[id := Container(Itoa(next), AttemptName(base, next), now, 0, true, true)];
      CreatedAreFew(base, before, now, id, start, containers, kept, next);
      CreatedIsSelected(base, before, now, id, containers, kept, next);
    }
  }

  // ---- lists and sets of containers ----------------------------------------------------------------

  function IdsOf(items: seq<Attempt>): set<nat> {
    set i | 0 <= i < |items| :: items[i].id
  }

  ghost predicate Lists(base: string, cs: Containers, attempts: seq<Attempt>) {
    DistinctIds(attempts) && forall a :: a in attempts <==> a.id in cs && a == AttemptOf(a.id, cs[a.id], base)
  }

  lemma Listed(base: string, cs: Containers, attempts: seq<Attempt>, id: nat)
    requires Lists(base, cs, attempts) && id in cs
    ensures AttemptOf(id, cs[id], base) in attempts
  {
  }

  lemma ActiveIsSelected(base: string, cs: Containers, attempts: seq<Attempt>, active: Attempt, now: int)
    requires Lists(base, cs, attempts) && active in attempts && active.running
    requires forall i :: 0 <= i < |attempts| && attempts[i].running ==> AtMost(attempts[i], active)
    ensures Selected(base, cs, now, active.id, cs)
  {
    assert active.id in RunningIds(cs);
    forall other | other in RunningIds(cs) ensures NotAfter(cs, base, other, active.id) {
      Listed(base, cs, attempts, other);
    }
  }

  lemma CreatedIsSelected(base: string, cs: Containers, now: int, id: nat, cs': Containers, kept: set<nat>, next: nat)
    requires RunningIds(cs) == {} && id !in cs && Retains(cs, base, kept) && NextNumber(cs, base, next)
    requires cs' == Created(base, cs, now, id, kept, next)
    ensures Selected(base, cs, now, id, cs')
  {
  }

  /** A running container that no running one comes after, by number and then by creation time. */
  ghost predicate LastRunning(base: string, cs: Containers, id: nat) {
    && id in cs && cs[id].running
    && forall k :: k in cs && cs[k].running ==>
         Number(cs, k, base) < Number(cs, id, base)
         || (Number(cs, k, base) == Number(cs, id, base) && cs[k].created <= cs[id].created)
  }

  lemma SelectedIsLast(base: string, cs: Containers, now: int, id: nat)
    requires RunningIds(cs) != {} && Selected(base, cs, now, id, cs)
    ensures LastRunning(base, cs, id)
  {
    forall k | k in cs && cs[k].running ensures NotAfter(cs, base, k, id) {
      assert k in RunningIds(cs);
    }
  }

  lemma CreatedAreFew(base: string, cs: Containers, now: int, id: nat, start: bool, cs': Containers, kept: set<nat>,
                      next: nat)
    requires id !in cs && Retains(cs, base, kept) && next >= 1 && cs' == Created(base, cs, now, id, kept, next) && start
    ensures id in cs' && cs'[id].running && cs'[id].start == start && cs'[id].created == now && |cs'| <= 4
    ensures forall k :: k in cs' && k != id ==> k in cs && cs'[k] == cs[k] && cs'[k].exitCode != 0
  {
    assert cs'.Keys == kept + {id};
    assert |cs'| == |cs'.Keys|;
  }

  lemma NothingRuns(base: string, cs: Containers, attempts: seq<Attempt>)
    requires Lists(base, cs, attempts) && forall i :: 0 <= i < |attempts| ==> !attempts[i].running
    ensures RunningIds(cs) == {}
  {
    forall id | id in cs ensures !cs[id].running {
      Listed(base, cs, attempts, id);
    }
  }

  lemma {:induction false} CountIds(items: seq<Attempt>)
    requires DistinctIds(items)
    ensures |IdsOf(items)| == |items|
    decreases |items|
  {
    if items != [] {
      var init := items[..|items| - 1];
      CountIds(init);
      assert IdsOf(items) == IdsOf(init) + {items[|items| - 1].id};
    }
  }

  lemma FailedAreListed(base: string, cs: Containers, attempts: seq<Attempt>, failed: seq<Attempt>)
    requires Lists(base, cs, attempts) && forall a :: a in failed <==> a in attempts && FailedAttempt(a)
    ensures IdsOf(failed) == FailedIds(cs)
  {
    forall id | id in FailedIds(cs) ensures id in IdsOf(failed) {
      Listed(base, cs, attempts, id);
      assert AttemptOf(id, cs[id], base) in failed;
    }
  }

  lemma KeptTail(pruned: seq<Attempt>, kept: seq<Attempt>, j: nat)
    requires j < |pruned + kept|
    ensures j < |pruned| || (pruned + kept)[j].id in IdsOf(kept)
  {
    if j >= |pruned| {
      assert (pruned + kept)[j] == kept[j - |pruned|];
    }
  }

  lemma KeptAreRetained(base: string, cs: Containers, attempts: seq<Attempt>, pruned: seq<Attempt>, kept: seq<Attempt>)
    requires Lists(base, cs, attempts) && DistinctIds(pruned + kept)
    requires forall a :: a in pruned + kept <==> a in attempts && FailedAttempt(a)
    requires |kept| == if |pruned| + |kept| <= FAILED_RETENTION then |pruned| + |kept| else FAILED_RETENTION
    requires forall p, k :: p in pruned && k in kept ==> AtMost(p, k)
    ensures Retains(cs, base, IdsOf(kept))
  {
    FailedAreListed(base, cs, attempts, pruned + kept);
    CountIds(pruned + kept);
    assert DistinctIds(kept) by {
      forall i, j | 0 <= i < j < |kept| ensures kept[i].id != kept[j].id {
        assert (pruned + kept)[|pruned| + i] == kept[i] && (pruned + kept)[|pruned| + j] == kept[j];
      }
    }
    CountIds(kept);
    forall i | 0 <= i < |kept| ensures kept[i].id in IdsOf(pruned + kept) {
      assert (pruned + kept)[|pruned| + i] == kept[i];
    }
    forall p, k | p in FailedIds(cs) && p !in IdsOf(kept) && k in IdsOf(kept) ensures NotAfter(cs, base, p, k) {
      var i :| 0 <= i < |kept| && kept[i].id == k;
      assert kept[i] in pruned + kept;
      var j :| 0 <= j < |pruned + kept| && (pruned + kept)[j].id == p;
      KeptTail(pruned, kept, j);
      assert (pruned + kept)[j] == pruned[j] && pruned[j] in pruned && pruned[j] in pruned + kept;
    }
  }

  lemma NextIsNext(base: string, cs: Containers, attempts: seq<Attempt>, next: int)
    requires Lists(base, cs, attempts) && next >= 1
    requires forall i :: 0 <= i < |attempts| ==> attempts[i].number < next
    requires next == 1 || exists i :: 0 <= i < |attempts| && attempts[i].number == next - 1
    ensures NextNumber(cs, base, next)
  {
    forall id | id in cs ensures Number(cs, id, base) < next {
      Listed(base, cs, attempts, id);
    }
    if next != 1 {
      var i :| 0 <= i < |attempts| && attempts[i].number == next - 1;
      assert attempts[i] in attempts;
    }
  }

  /** With nothing running, a container is removed as successful, pruned, or kept. */
  lemma WhatIsLeft(base: string, cs: Containers, attempts: seq<Attempt>, successful: seq<Attempt>,
                   pruned: seq<Attempt>, kept: seq<Attempt>, id: nat)
    requires Lists(base, cs, attempts) && RunningIds(cs) == {}
    requires forall a :: a in successful <==> a in attempts && !a.running && a.exitCode == 0
    requires DistinctIds(pruned + kept)
    requires forall a :: a in pruned + kept <==> a in attempts && FailedAttempt(a)
    ensures (id in cs && (forall a :: a in successful ==> a.id != id) && (forall a :: a in pruned ==> a.id != id))
       <==> id in IdsOf(kept)
  {
    if id in cs {
      var a := AttemptOf(id, cs[id], base);
      Listed(base, cs, attempts, id);
      assert !a.running by {
        assert id !in RunningIds(cs);
      }
      if a.exitCode == 0 {
        assert a in successful;
      } else {
        assert a in pruned + kept;
      }
    }
    if id in IdsOf(kept) {
      var i :| 0 <= i < |kept| && kept[i].id == id;
      assert (pruned + kept)[|pruned| + i] == kept[i] && kept[i] in pruned + kept;
      forall a | a in pruned ensures a.id != id {
        var j :| 0 <= j < |pruned| && pruned[j] == a;
        assert (pruned + kept)[j] == a;
      }
      forall a | a in successful ensures a.id != id {
        assert a in attempts && kept[i] in attempts;
      }
    }
  }

  // ---- over whole runs --------------------------------------------------------------------------------

  /** What happens to the containers of one procedure: the backend selects one for a run, the engine
      starts it, it exits, and anybody may remove it. */
  datatype Move = Select(now: int, id: nat) | Start(id: nat) | Exit(id: nat, code: int) | Remove(id: nat)

  ghost predicate Moves(base: string, cs: Containers, move: Move, cs': Containers) {
    match move
    case Select(now, id) => Selected(base, cs, now, id, cs')
    case Start(id) => id in cs && cs[id].running && cs' == cs[id := cs[id].(start := false)]
    case Exit(id, code) => id in cs && cs[id].running
      && cs' == cs[id := cs[id].(running := false, start := false, exitCode := code)]
    case Remove(id) => cs' == cs - {id}
  }

  /** Label and name of a container agree on its number. */
  ghost predicate Numbered(base: string, cs: Containers) {
    forall id :: id in cs ==>
      Number(cs, id, base) >= 1 && cs[id].tag == Itoa(Number(cs, id, base))
        && cs[id].name == AttemptName(base, Number(cs, id, base))
  }

  ghost predicate DistinctNumbers(base: string, cs: Containers) {
    forall a, b :: a in cs && b in cs && a != b ==> Number(cs, a, base) != Number(cs, b, base)
  }

  ghost predicate Bounded(cs: Containers) {
    |RunningIds(cs)| <= 1 && |RunningIds(cs)| + |FailedIds(cs)| <= FAILED_RETENTION + 1
  }

  ghost predicate Invariant(base: string, cs: Containers) {
    Numbered(base, cs) && DistinctNumbers(base, cs) && Bounded(cs)
  }

  lemma SubsetCount<T>(a: set<T>, b: set<T>)
    requires a <= b
    ensures |a| <= |b|
    ensures |a| == |b| ==> a == b
  {
    assert b == a + (b - a);
    assert |b| == |a| + |b - a|;
  }

  lemma CreatedIds(base: string, cs: Containers, now: int, id: nat, cs': Containers, kept: set<nat>, next: nat)
    requires next >= 1 && id !in cs && kept <= FailedIds(cs) && cs' == Created(base, cs, now, id, kept, next)
    ensures RunningIds(cs') == {id} && FailedIds(cs') == kept
  {
    assert forall k :: k in cs' && k != id ==> k in cs && cs'[k] == cs[k] && k in FailedIds(cs);
  }

  lemma {:induction false} CreatedNumbers(base: string, cs: Containers, now: int, id: nat, cs': Containers,
                                          kept: set<nat>, next: nat)
    requires Numbered(base, cs) && DistinctNumbers(base, cs) && id !in cs && NextNumber(cs, base, next)
    requires cs' == Created(base, cs, now, id, kept, next)
    ensures Numbered(base, cs') && DistinctNumbers(base, cs')
  {
    NumberFromLabel(next, AttemptName(base, next), base);
    assert Number(cs', id, base) == next;
    forall k | k in cs' && k != id ensures k in cs && cs'[k] == cs[k] && Number(cs', k, base) == Number(cs, k, base) {
    }
  }

  lemma SelectKeepsInvariant(base: string, cs: Containers, now: int, id: nat, cs': Containers)
    requires Invariant(base, cs) && Selected(base, cs, now, id, cs')
    ensures Invariant(base, cs')
  {
    if RunningIds(cs) == {} {
      var kept, next :| Retains(cs, base, kept) && NextNumber(cs, base, next)
          && cs' == Created(base, cs, now, id, kept, next);
      CreatedIds(base, cs, now, id, cs', kept, next);
      CreatedNumbers(base, cs, now, id, cs', kept, next);
    }
  }

  lemma ExitKeepsBounded(cs: Containers, id: nat, c: Container)
    requires Bounded(cs) && id in cs && cs[id].running && !c.running
    ensures Bounded(cs[id := c])
  {
    var cs' := cs[id := c];
    assert RunningIds(cs') == RunningIds(cs) - {id};
    assert FailedIds(cs') <= FailedIds(cs) + {id};
    SubsetCount(FailedIds(cs'), FailedIds(cs) + {id});
  }

  lemma StartKeepsBounded(cs: Containers, id: nat, c: Container)
    requires Bounded(cs) && id in cs && cs[id].running && c.running
    ensures Bounded(cs[id := c])
  {
    assert RunningIds(cs[id := c]) == RunningIds(cs) && FailedIds(cs[id := c]) == FailedIds(cs);
  }

  /** Numbers only depend on labels and names. */
  lemma RelabelNothing(base: string, cs: Containers, id: nat, c: Container)
    requires Numbered(base, cs) && DistinctNumbers(base, cs) && id in cs && c.tag == cs[id].tag && c.name == cs[id].name
    ensures Numbered(base, cs[id := c]) && DistinctNumbers(base, cs[id := c])
  {
    forall k | k in cs ensures Number(cs[id := c], k, base) == Number(cs, k, base) {
    }
  }

  lemma RemoveKeepsInvariant(base: string, cs: Containers, id: nat, cs': Containers)
    requires Invariant(base, cs) && cs' == cs - {id}
    ensures Invariant(base, cs')
  {
    SubsetCount(RunningIds(cs'), RunningIds(cs));
    SubsetCount(FailedIds(cs'), FailedIds(cs));
    forall k | k in cs' ensures k in cs && Number(cs', k, base) == Number(cs, k, base) {
    }
  }

  lemma MoveKeepsInvariant(base: string, cs: Containers, move: Move, cs': Containers)
    requires Invariant(base, cs) && Moves(base, cs, move, cs')
    ensures Invariant(base, cs')
  {
    match move
    case Select(now, id) => SelectKeepsInvariant(base, cs, now, id, cs');
    case Start(id) =>
      StartKeepsBounded(cs, id, cs[id].(start := false));
      RelabelNothing(base, cs, id, cs[id].(start := false));
    case Exit(id, code) =>
      ExitKeepsBounded(cs, id, cs[id].(running := false, start := false, exitCode := code));
      RelabelNothing(base, cs, id, cs[id].(running := false, start := false, exitCode := code));
    case Remove(id) => RemoveKeepsInvariant(base, cs, id, cs');
  }

  /** `states` is what the moves make of an engine without containers. */
  ghost predicate History(base: string, states: seq<Containers>, moves: seq<Move>) {
    && |states| == |moves| + 1 && states[0] == map[]
    && forall i :: 0 <= i < |moves| ==> Moves(base, states[i], moves[i], states[i + 1])
  }

  lemma {:induction false} HistoryKeepsInvariant(base: string, states: seq<Containers>, moves: seq<Move>, k: nat)
    requires History(base, states, moves) && k < |states|
    ensures Invariant(base, states[k])
    decreases k
  {
    if k > 0 {
      HistoryKeepsInvariant(base, states, moves, k - 1);
      MoveKeepsInvariant(base, states[k - 1], moves[k - 1], states[k]);
    }
  }

  /** At any time, starting from no containers: at most one attempt is active, attempt numbers and
      names are distinct, and the failed containers exceed the retention by one at most. */
  lemma AttemptsOverRuns(base: string, states: seq<Containers>, moves: seq<Move>, k: nat)
    requires History(base, states, moves) && k < |states|
    ensures |FailedIds(states[k])| <= 4
    ensures forall a, b :: a in states[k] && b in states[k] && a != b ==>
              && !(states[k][a].running && states[k][b].running)
              && Number(states[k], a, base) != Number(states[k], b, base)
              && states[k][a].name != states[k][b].name
  {
    HistoryKeepsInvariant(base, states, moves, k);
    var cs := states[k];
    forall a, b | a in cs && b in cs && a != b
      ensures !(cs[a].running && cs[b].running) && cs[a].name != cs[b].name
    {
      NamesDiffer(base, Number(cs, a, base), Number(cs, b, base));
      if cs[a].running && cs[b].running {
        SubsetCount({a, b}, RunningIds(cs));
      }
    }
  }

  /** The failed containers with a larger number. */
  function Above(cs: Containers, base: string, k: nat): set<nat>
    requires k in cs
  {
    set d | d in FailedIds(cs) && d in cs && Number(cs, d, base) > Number(cs, k, base)
  }

  lemma KeptHaveFewAbove(cs: Containers, base: string, kept: set<nat>, k: nat)
    requires DistinctNumbers(base, cs) && Retains(cs, base, kept) && k in kept
    ensures |Above(cs, base, k)| < FAILED_RETENTION
  {
    forall d | d in Above(cs, base, k) ensures d in kept - {k} {
      assert d in kept || NotAfter(cs, base, d, k);
    }
    SubsetCount(Above(cs, base, k), kept - {k});
  }

  lemma DroppedHaveManyAbove(cs: Containers, base: string, kept: set<nat>, k: nat)
    requires DistinctNumbers(base, cs) && Retains(cs, base, kept) && k in FailedIds(cs) && k !in kept
    ensures |Above(cs, base, k)| >= FAILED_RETENTION
  {
    SubsetCount(kept, FailedIds(cs));
    forall d | d in kept ensures d in Above(cs, base, k) {
      assert NotAfter(cs, base, k, d);
      assert Number(cs, k, base) != Number(cs, d, base);
    }
    SubsetCount(kept, Above(cs, base, k));
  }

  /** When a new container is created, the failures that survive are exactly those with the largest
      attempt numbers. */
  lemma KeptAreLargest(base: string, states: seq<Containers>, moves: seq<Move>, i: nat, k: nat)
    requires History(base, states, moves) && i < |moves| && moves[i].Select? && RunningIds(states[i]) == {}
    requires k in FailedIds(states[i])
    ensures k in FailedIds(states[i + 1]) <==> |Above(states[i], base, k)| < 3
  {
    HistoryKeepsInvariant(base, states, moves, i);
    KeptOnCreate(base, states[i], moves[i].now, moves[i].id, states[i + 1], k);
  }

  lemma {:induction false} KeptOnCreate(base: string, cs: Containers, now: int, id: nat, cs': Containers, k: nat)
    requires Invariant(base, cs) && RunningIds(cs) == {} && Selected(base, cs, now, id, cs') && k in FailedIds(cs)
    ensures k in FailedIds(cs') <==> |Above(cs, base, k)| < FAILED_RETENTION
  {
    var kept, next :| Retains(cs, base, kept) && NextNumber(cs, base, next)
        && cs' == Created(base, cs, now, id, kept, next);
    CreatedIds(base, cs, now, id, cs', kept, next);
    if k in kept {
      KeptHaveFewAbove(cs, base, kept, k);
    } else {
      DroppedHaveManyAbove(cs, base, kept, k);
    }
  }
}
