/** Ports of a scroll: dynamic ports (port 0) are resolved from routing assignments, and must not
    change while the scroll runs. */
module RuntimePorts {
  import opened Domain
  import opened CommandStatus

  datatype Port = Port(name: string, protocol: string, port: int)

  datatype Assignment = Assignment(name: string, portName: string, publicPort: int)

  /** The port an assignment is for: its port name, or its own name when that is empty. */
  function Target(a: Assignment): string {
    if a.portName == "" then a.name else a.portName
  }

  /** The public ports that are assigned to a port, whatever the order. */
  function Offers(routing: seq<Assignment>, name: string): set<int> {
    set i | 0 <= i < |routing| && Target(routing[i]) == name :: routing[i].publicPort
  }

  predicate ValidPublic(port: int) {
    1 <= port <= 65535
  }

  /** A port is fixed, or all its assignments are valid and agree; there is one if it is required. */
  predicate Resolvable(p: Port, routing: seq<Assignment>, required: bool) {
    p.port != 0
    || ((forall v :: v in Offers(routing, p.name) ==> ValidPublic(v))
        && (forall v, w :: v in Offers(routing, p.name) && w in Offers(routing, p.name) ==> v == w)
        && (required ==> Offers(routing, p.name) != {}))
  }

  /** `q` is `p` with its port resolved: fixed and unassigned ports stay, others get the one agreed port. */
  ghost predicate IsResolved(p: Port, routing: seq<Assignment>, q: Port) {
    && q == p.(port := q.port)
    && if p.port != 0 || Offers(routing, p.name) == {} then q.port == p.port
       else Offers(routing, p.name) == {q.port}
  }

  ghost predicate AllResolvable(ports: seq<Port>, routing: seq<Assignment>, required: bool) {
    forall i :: 0 <= i < |ports| ==> Resolvable(ports[i], routing, required)
  }

  ghost predicate AllResolved(ports: seq<Port>, routing: seq<Assignment>, resolved: seq<Port>) {
    |resolved| == |ports| && forall i :: 0 <= i < |ports| ==> IsResolved(ports[i], routing, resolved[i])
  }

  /** The inner loop of `resolveRuntimePorts`: the port assigned to one dynamic port, 0 for none. */
  method AssignedPort(name: string, routing: seq<Assignment>) returns (ok: bool, chosen: int)
    ensures ok <==> Resolvable(Port(name, "", 0), routing, false)
    ensures ok ==>
              if chosen == 0 then Offers(routing, name) == {}
              else ValidPublic(chosen) && Offers(routing, name) == {chosen}
  {
    chosen := 0;
    for i := 0 to |routing|
      invariant if chosen == 0 then Offers(routing[..i], name) == {}
                else ValidPublic(chosen) && Offers(routing[..i], name) == {chosen}
    {
      OffersMore(routing, i, name);
      var portName := routing[i].portName;
      if portName == "" {
        portName := routing[i].name;
      }
      if portName != name {
        continue;
      }
      if routing[i].publicPort < 1 || routing[i].publicPort > 65535 {
        assert routing[i].publicPort in Offers(routing, name);
        return false, 0;
      }
      if chosen != 0 && chosen != routing[i].publicPort {
        OffersPrefix(routing, i, name);
        assert routing[i].publicPort in Offers(routing, name) && chosen in Offers(routing, name);
        return false, 0;
      }
      chosen := routing[i].publicPort;
    }
    assert routing[..|routing|] == routing;
    return true, chosen;
  }

  lemma OffersMore(routing: seq<Assignment>, i: nat, name: string)
    requires i < |routing|
    ensures Offers(routing[..i + 1], name) == Offers(routing[..i], name)
            + if Target(routing[i]) == name then {routing[i].publicPort} else {}
  {
    var before, after := routing[..i], routing[..i + 1];
    assert after == before + [routing[i]];
    forall v | v in Offers(before, name) ensures v in Offers(after, name) {
      var j :| 0 <= j < |before| && Target(before[j]) == name && before[j].publicPort == v;
      assert after[j] == before[j];
    }
    if Target(routing[i]) == name {
      assert after[i] == routing[i];
    }
  }

  lemma OffersPrefix(routing: seq<Assignment>, i: nat, name: string)
    requires i <= |routing|
    ensures Offers(routing[..i], name) <= Offers(routing, name)
  {
  }

  /** The assignment names the port, by its port name or, without one, by its own name. */
  ghost predicate IsFor(a: Assignment, name: string) {
    if a.portName != "" then a.portName == name else a.name == name
  }

  lemma {:induction false} OffersAre(routing: seq<Assignment>, name: string)
    ensures forall a :: a in routing && IsFor(a, name) ==> a.publicPort in Offers(routing, name)
    ensures forall v :: v in Offers(routing, name) ==> exists a :: a in routing && IsFor(a, name) && a.publicPort == v
  {
    forall a | a in routing && IsFor(a, name) ensures a.publicPort in Offers(routing, name) {
      var i :| 0 <= i < |routing| && routing[i] == a;
      assert Target(routing[i]) == name;
    }
    forall v | v in Offers(routing, name) ensures exists a :: a in routing && IsFor(a, name) && a.publicPort == v {
      var i :| 0 <= i < |routing| && Target(routing[i]) == name && routing[i].publicPort == v;
      assert routing[i] in routing && IsFor(routing[i], name);
    }
  }

  lemma {:induction false} OneResolvable(p: Port, routing: seq<Assignment>, required: bool)
    requires p.port == 0
    ensures Resolvable(p, routing, required) <==>
              && (forall a :: a in routing && IsFor(a, p.name) ==> 1 <= a.publicPort <= 65535)
              && (forall a, b :: a in routing && b in routing && IsFor(a, p.name) && IsFor(b, p.name) ==>
                    a.publicPort == b.publicPort)
              && (required ==> exists a :: a in routing && IsFor(a, p.name))
  {
    OffersAre(routing, p.name);
    assert Offers(routing, p.name) != {} <==> exists v :: v in Offers(routing, p.name);
  }

  /** Exactly when all ports can be resolved, from the assignments. */
  lemma {:induction false} ResolvableExactly(ports: seq<Port>, routing: seq<Assignment>, required: bool)
    ensures AllResolvable(ports, routing, required) <==> forall p :: p in ports && p.port == 0 ==>
              && (forall a :: a in routing && IsFor(a, p.name) ==> 1 <= a.publicPort <= 65535)
              && (forall a, b :: a in routing && b in routing && IsFor(a, p.name) && IsFor(b, p.name) ==>
                    a.publicPort == b.publicPort)
              && (required ==> exists a :: a in routing && IsFor(a, p.name))
  {
    forall p | p in ports && p.port == 0
      ensures Resolvable(p, routing, required) <==>
                && (forall a :: a in routing && IsFor(a, p.name) ==> 1 <= a.publicPort <= 65535)
                && (forall a, b :: a in routing && b in routing && IsFor(a, p.name) && IsFor(b, p.name) ==>
                      a.publicPort == b.publicPort)
                && (required ==> exists a :: a in routing && IsFor(a, p.name))
    {
      OneResolvable(p, routing, required);
    }
    assert AllResolvable(ports, routing, required) <==>
      forall p :: p in ports && p.port == 0 ==> Resolvable(p, routing, required);
  }

  /** What the ports are resolved to, from the assignments. */
  lemma {:induction false} ResolvedExactly(ports: seq<Port>, routing: seq<Assignment>, resolved: seq<Port>)
    requires AllResolved(ports, routing, resolved)
    ensures |resolved| == |ports|
    ensures forall i :: 0 <= i < |ports| ==>
              var p, q := ports[i], resolved[i];
              && q.name == p.name && q.protocol == p.protocol
              && (p.port != 0 || (forall a :: a in routing ==> !IsFor(a, p.name)) ==> q.port == p.port)
              && (p.port == 0 ==> forall a :: a in routing && IsFor(a, p.name) ==> q.port == a.publicPort)
  {
    forall i | 0 <= i < |ports|
      ensures var p, q := ports[i], resolved[i];
              && q.name == p.name && q.protocol == p.protocol
              && (p.port != 0 || (forall a :: a in routing ==> !IsFor(a, p.name)) ==> q.port == p.port)
              && (p.port == 0 ==> forall a :: a in routing && IsFor(a, p.name) ==> q.port == a.publicPort)
    {
      OffersAre(routing, ports[i].name);
    }
  }

  /** `resolveRuntimePorts`. */
  method ResolveRuntimePorts(ports: seq<Port>, routing: seq<Assignment>, required: bool)
    returns (resolved: Option<seq<Port>>)
    ensures resolved.Some? <==> AllResolvable(ports, routing, required)
    ensures resolved.Some? ==> AllResolved(ports, routing, resolved.value)
    ensures resolved.Some? <==> forall p :: p in ports && p.port == 0 ==>
              && (forall a :: a in routing && IsFor(a, p.name) ==> 1 <= a.publicPort <= 65535)
              && (forall a, b :: a in routing && b in routing && IsFor(a, p.name) && IsFor(b, p.name) ==>
                    a.publicPort == b.publicPort)
              && (required ==> exists a :: a in routing && IsFor(a, p.name))
    ensures resolved.Some? ==> |resolved.value| == |ports|
    ensures resolved.Some? ==> forall i :: 0 <= i < |ports| ==>
              var p, q := ports[i], resolved.value[i];
              && q.name == p.name && q.protocol == p.protocol
              && (p.port != 0 || (forall a :: a in routing ==> !IsFor(a, p.name)) ==> q.port == p.port)
              && (p.port == 0 ==> forall a :: a in routing && IsFor(a, p.name) ==> q.port == a.publicPort)
    ensures resolved.Some? && required ==> forall i :: 0 <= i < |ports| ==> resolved.value[i].port != 0
  {
    ResolvableExactly(ports, routing, required);
    var result := ports;
    for i := 0 to |ports|
      invariant |result| == |ports| && result[i..] == ports[i..]
      invariant forall j :: 0 <= j < i ==>
                  Resolvable(ports[j], routing, required) && IsResolved(ports[j], routing, result[j])
      invariant required ==> forall j :: 0 <= j < i ==> result[j].port != 0
    {
      assert result[i] == result[i..][0] == ports[i..][0] == ports[i];
      if result[i].port != 0 {
        continue;
      }
      var ok, chosen := AssignedPort(ports[i].name, routing);
      if !ok {
        return None;
      }
      if chosen == 0 {
        if required {
          assert !Resolvable(ports[i], routing, required);
          return None;
        }
        continue;
      }
      result := result[i := result[i].(port := chosen)];
    }
    ResolvedExactly(ports, routing, result);
    return Some(result);
  }

  // ---- resolution as a function ---------------------------------------------------------------------

  lemma HasMember(offers: set<int>)
    requires offers != {}
    ensures exists v :: v in offers
  {
    if !exists v :: v in offers {
      assert false;
    }
  }

  ghost function Pick(offers: set<int>): int
    requires offers != {}
  {
    HasMember(offers);
    var v :| v in offers;
    v
  }

  ghost function ResolvedPort(p: Port, routing: seq<Assignment>): Port {
    if p.port != 0 || Offers(routing, p.name) == {} then p else p.(port := Pick(Offers(routing, p.name)))
  }

  ghost function Resolution(ports: seq<Port>, routing: seq<Assignment>): seq<Port> {
    seq(|ports|, i requires 0 <= i < |ports| => ResolvedPort(ports[i], routing))
  }

  lemma ResolvedIsUnique(p: Port, routing: seq<Assignment>, q: Port)
    requires Resolvable(p, routing, false)
    ensures IsResolved(p, routing, q) <==> q == ResolvedPort(p, routing)
  {
    if p.port == 0 && Offers(routing, p.name) != {} {
      var v := ResolvedPort(p, routing).port;
      assert Offers(routing, p.name) == {v};
    }
  }

  lemma {:induction false} ResolutionIsUnique(ports: seq<Port>, routing: seq<Assignment>, resolved: seq<Port>)
    requires AllResolvable(ports, routing, false)
    ensures AllResolved(ports, routing, resolved) <==> resolved == Resolution(ports, routing)
  {
    forall i | 0 <= i < |ports| && |resolved| == |ports|
      ensures IsResolved(ports[i], routing, resolved[i]) <==> resolved[i] == Resolution(ports, routing)[i]
    {
      ResolvedIsUnique(ports[i], routing, resolved[i]);
    }
    if AllResolved(ports, routing, resolved) {
      assert resolved == Resolution(ports, routing);
    }
  }

  /** Reordering or repeating assignments changes neither success nor result. */
  lemma OrderDoesNotMatter(ports: seq<Port>, routing: seq<Assignment>, routing': seq<Assignment>, required: bool)
    requires forall a :: a in routing <==> a in routing'
    ensures AllResolvable(ports, routing, required) <==> AllResolvable(ports, routing', required)
    ensures Resolution(ports, routing) == Resolution(ports, routing')
  {
    forall i | 0 <= i < |ports| ensures Offers(routing, ports[i].name) == Offers(routing', ports[i].name) {
      SameOffers(routing, routing', ports[i].name);
      SameOffers(routing', routing, ports[i].name);
    }
    SameResolution(ports, routing, routing', required);
  }

  lemma SameResolution(ports: seq<Port>, routing: seq<Assignment>, routing': seq<Assignment>, required: bool)
    requires forall i :: 0 <= i < |ports| ==> Offers(routing, ports[i].name) == Offers(routing', ports[i].name)
    ensures AllResolvable(ports, routing, required) <==> AllResolvable(ports, routing', required)
    ensures Resolution(ports, routing) == Resolution(ports, routing')
  {
  }

  lemma SameOffers(routing: seq<Assignment>, routing': seq<Assignment>, name: string)
    requires forall a :: a in routing ==> a in routing'
    ensures Offers(routing, name) <= Offers(routing', name)
  {
    forall v | v in Offers(routing, name) ensures v in Offers(routing', name) {
      var i :| 0 <= i < |routing| && Target(routing[i]) == name && routing[i].publicPort == v;
      assert routing[i] in routing';
    }
  }

  // ---- reserved ports ---------------------------------------------------------------------------------

  /** The last port of a name. */
  function Lookup(ports: seq<Port>, name: string): Option<Port> {
    if ports == [] then None
    else if ports[|ports| - 1].name == name then Some(ports[|ports| - 1])
    else Lookup(ports[..|ports| - 1], name)
  }

  predicate Agrees(p: Port, q: Port) {
    p.port == q.port && p.protocol == q.protocol
  }

  /** Every reservation either repeats a port that is there or is appended. */
  function Merge(ports: seq<Port>, reservations: seq<Port>): Option<seq<Port>> {
    if reservations == [] then Some(ports)
    else
      var merged := Merge(ports, reservations[..|reservations| - 1]);
      var r := reservations[|reservations| - 1];
      if merged.None? then None
      else if Lookup(merged.value, r.name).None? then Some(merged.value + [r])
      else if Agrees(Lookup(merged.value, r.name).value, r) then merged
      else None
  }

  lemma {:induction false} MergeFails(ports: seq<Port>, reservations: seq<Port>, n: nat)
    requires n <= |reservations| && Merge(ports, reservations[..n]).None?
    ensures Merge(ports, reservations).None?
    decreases |reservations|
  {
    if n < |reservations| {
      assert reservations[..|reservations| - 1][..n] == reservations[..n];
      MergeFails(ports, reservations[..|reservations| - 1], n);
    } else {
      assert reservations[..n] == reservations;
    }
  }

  /** The last port of a name, by its position. */
  lemma {:induction false} LookupIsLast(ports: seq<Port>, name: string)
    ensures Lookup(ports, name).None? <==> forall i :: 0 <= i < |ports| ==> ports[i].name != name
    ensures forall i :: (0 <= i < |ports| && ports[i].name == name
                         && (forall k :: i < k < |ports| ==> ports[k].name != name)) ==>
                          Lookup(ports, name) == Some(ports[i])
    ensures Lookup(ports, name).Some? ==> exists i ::
              0 <= i < |ports| && ports[i] == Lookup(ports, name).value && ports[i].name == name
              && forall k :: i < k < |ports| ==> ports[k].name != name
    decreases |ports|
  {
    if ports != [] && ports[|ports| - 1].name != name {
      var init := ports[..|ports| - 1];
      LookupIsLast(init, name);
      if Lookup(init, name).Some? {
        var i :| 0 <= i < |init| && init[i] == Lookup(init, name).value && init[i].name == name
                 && forall k :: i < k < |init| ==> init[k].name != name;
        assert ports[i] == init[i];
        forall k | i < k < |ports| ensures ports[k].name != name {
          assert k < |init| ==> ports[k] == init[k];
        }
      }
    }
  }

  /** The first port of a name. */
  function FirstOf(ports: seq<Port>, name: string): Option<Port> {
    if ports == [] then None
    else if FirstOf(ports[..|ports| - 1], name).Some? then FirstOf(ports[..|ports| - 1], name)
    else if ports[|ports| - 1].name == name then Some(ports[|ports| - 1])
    else None
  }

  lemma {:induction false} FirstOfIs(ports: seq<Port>, name: string)
    ensures FirstOf(ports, name).None? <==> forall i :: 0 <= i < |ports| ==> ports[i].name != name
    ensures FirstOf(ports, name).Some? ==> exists i ::
              0 <= i < |ports| && ports[i] == FirstOf(ports, name).value && ports[i].name == name
              && forall k :: 0 <= k < i ==> ports[k].name != name
    decreases |ports|
  {
    if ports != [] {
      var init := ports[..|ports| - 1];
      assert forall i :: 0 <= i < |init| ==> init[i] == ports[i];
      FirstOfIs(init, name);
      if FirstOf(init, name).Some? {
        var i :| 0 <= i < |init| && init[i] == FirstOf(init, name).value && init[i].name == name
                 && forall k :: 0 <= k < i ==> init[k].name != name;
        assert ports[i] == init[i];
      }
    }
  }

  /** What a name means after a merge: the scroll's own port, or else the first reservation of that name. */
  lemma {:induction false} LookupMerged(ports: seq<Port>, reservations: seq<Port>, name: string)
    requires Merge(ports, reservations).Some?
    ensures Lookup(Merge(ports, reservations).value, name)
            == if Lookup(ports, name).Some? then Lookup(ports, name) else FirstOf(reservations, name)
    decreases |reservations|
  {
    if reservations != [] {
      var init, r := reservations[..|reservations| - 1], reservations[|reservations| - 1];
      LookupMerged(ports, init, name);
      LookupAppended(Merge(ports, init).value, r, name);
    }
  }

  /** Reservation `j` says something else than the last of the scroll's ports of its name or, if there is
      none, than the first reservation of its name. */
  ghost predicate Conflicts(ports: seq<Port>, reservations: seq<Port>, j: int) {
    && 0 <= j < |reservations|
    && ((exists i :: 0 <= i < |ports| && ports[i].name == reservations[j].name
                     && (forall k :: i < k < |ports| ==> ports[k].name != reservations[j].name)
                     && (ports[i].port != reservations[j].port || ports[i].protocol != reservations[j].protocol))
        || ((forall k :: 0 <= k < |ports| ==> ports[k].name != reservations[j].name)
            && exists i :: 0 <= i < j && reservations[i].name == reservations[j].name
                           && (forall k :: 0 <= k < i ==> reservations[k].name != reservations[j].name)
                           && (reservations[i].port != reservations[j].port
                               || reservations[i].protocol != reservations[j].protocol)))
  }

  /** A merge is refused exactly if some reservation conflicts. */
  lemma {:induction false} RefusedExactly(ports: seq<Port>, reservations: seq<Port>)
    ensures Merge(ports, reservations).None? <==> exists j :: Conflicts(ports, reservations, j)
    decreases |reservations|
  {
    if reservations != [] {
      var init := reservations[..|reservations| - 1];
      RefusedExactly(ports, init);
      OneMoreConflict(ports, reservations, init);
      if Merge(ports, init).Some? {
        LastConflict(ports, reservations);
      }
    }
  }

  lemma {:induction false} OneMoreConflict(ports: seq<Port>, reservations: seq<Port>, init: seq<Port>)
    requires reservations != [] && init == reservations[..|reservations| - 1]
    ensures (exists j :: Conflicts(ports, reservations, j)) <==>
              (exists j :: Conflicts(ports, init, j)) || Conflicts(ports, reservations, |reservations| - 1)
  {
    if j :| Conflicts(ports, reservations, j) {
      if j < |reservations| - 1 {
        SameConflict(ports, reservations, j);
      }
    }
    if j :| Conflicts(ports, init, j) {
      SameConflict(ports, reservations, j);
    }
  }

  lemma {:induction false} SameConflict(ports: seq<Port>, reservations: seq<Port>, j: int)
    requires 0 <= j < |reservations| - 1
    ensures Conflicts(ports, reservations, j) <==> Conflicts(ports, reservations[..|reservations| - 1], j)
  {
    var init := reservations[..|reservations| - 1];
    assert forall i :: 0 <= i < |init| ==> init[i] == reservations[i];
  }

  lemma {:induction false} LastConflict(ports: seq<Port>, reservations: seq<Port>)
    requires reservations != [] && Merge(ports, reservations[..|reservations| - 1]).Some?
    ensures Merge(ports, reservations).None? <==> Conflicts(ports, reservations, |reservations| - 1)
  {
    var init, r := reservations[..|reservations| - 1], reservations[|reservations| - 1];
    LookupMerged(ports, init, r.name);
    LookupIsLast(ports, r.name);
    FirstOfIs(init, r.name);
    assert forall i :: 0 <= i < |init| ==> init[i] == reservations[i];
  }

  /** Neither a port of the scroll nor an earlier reservation has the name of reservation `i`. */
  ghost predicate NewName(ports: seq<Port>, reservations: seq<Port>, i: nat)
    requires i < |reservations|
  {
    && (forall k :: 0 <= k < |ports| ==> ports[k].name != reservations[i].name)
    && (forall k :: 0 <= k < i ==> reservations[k].name != reservations[i].name)
  }

  /** `merged` is `ports` with the reservations at `at`, which are those of the first `n` with a new name. */
  ghost predicate Appended(ports: seq<Port>, reservations: seq<Port>, n: nat, merged: seq<Port>, at: seq<nat>)
    requires n <= |reservations|
  {
    && |merged| == |ports| + |at| && merged[..|ports|] == ports
    && (forall j, k :: 0 <= j < k < |at| ==> at[j] < at[k])
    && (forall k :: 0 <= k < |at| ==> at[k] < n && merged[|ports| + k] == reservations[at[k]])
    && (forall i: nat :: i < n ==> (i in at <==> NewName(ports, reservations, i)))
  }

  lemma {:induction false} AppendedNext(ports: seq<Port>, reservations: seq<Port>, i: nat, merged: seq<Port>,
                                        at: seq<nat>)
    requires i < |reservations| && Appended(ports, reservations, i, merged, at)
    ensures !NewName(ports, reservations, i) ==> Appended(ports, reservations, i + 1, merged, at)
    ensures NewName(ports, reservations, i) ==>
              Appended(ports, reservations, i + 1, merged + [reservations[i]], at + [i])
  {
    forall k | 0 <= k < |at| ensures at[k] < i {
    }
    assert (merged + [reservations[i]])[..|ports|] == merged[..|ports|];
  }

  lemma {:induction false} KnownName(ports: seq<Port>, reservations: seq<Port>, i: nat, merged: seq<Port>)
    requires i < |reservations| && Merge(ports, reservations[..i]) == Some(merged)
    ensures Lookup(merged, reservations[i].name).None? <==> NewName(ports, reservations, i)
  {
    var name := reservations[i].name;
    LookupMerged(ports, reservations[..i], name);
    LookupIsLast(ports, name);
    FirstOfIs(reservations[..i], name);
    assert forall k :: 0 <= k < i ==> reservations[..i][k] == reservations[k];
  }

  /** `byName` holds the last port of every name. */
  ghost predicate Indexed(ports: seq<Port>, byName: map<string, Port>) {
    forall name :: (name in byName <==> Lookup(ports, name).Some?)
                   && (name in byName ==> Lookup(ports, name) == Some(byName[name]))
  }

  lemma InIndex(ports: seq<Port>, byName: map<string, Port>, name: string)
    requires Indexed(ports, byName)
    ensures name in byName <==> Lookup(ports, name).Some?
    ensures name in byName ==> Lookup(ports, name) == Some(byName[name])
  {
  }

  lemma IndexedMore(ports: seq<Port>, byName: map<string, Port>, r: Port)
    requires Indexed(ports, byName)
    ensures Indexed(ports + [r], byName[r.name := r])
  {
    assert (ports + [r])[..|ports|] == ports;
  }

  lemma IndexedNext(ports: seq<Port>, i: nat, byName: map<string, Port>)
    requires i < |ports| && Indexed(ports[..i], byName)
    ensures Indexed(ports[..i + 1], byName[ports[i].name := ports[i]])
  {
    assert ports[..i + 1] == ports[..i] + [ports[i]];
    IndexedMore(ports[..i], byName, ports[i]);
  }

  lemma MergeNext(ports: seq<Port>, reservations: seq<Port>, i: nat, merged: seq<Port>)
    requires i < |reservations| && Merge(ports, reservations[..i]) == Some(merged)
    ensures Merge(ports, reservations[..i + 1])
         == var r := reservations[i];
            if Lookup(merged, r.name).None? then Some(merged + [r])
            else if Agrees(Lookup(merged, r.name).value, r) then Some(merged) else None
  {
    assert reservations[..i + 1][..i] == reservations[..i];
  }

  /** `mergeRuntimePorts`: the scroll's ports stay, and the first reservation of every new name is appended;
      `at` says which those are. It is refused exactly if some reservation has another port or protocol than the
      port its name stands for. */
  method MergeRuntimePorts(ports: seq<Port>, reservations: seq<Port>)
    returns (result: Option<seq<Port>>, ghost at: seq<nat>)
    ensures result == Merge(ports, reservations)
    ensures result.Some? ==>
              && |result.value| == |ports| + |at| && result.value[..|ports|] == ports
              && (forall j, k :: 0 <= j < k < |at| ==> at[j] < at[k])
              && (forall k :: 0 <= k < |at| ==>
                    at[k] < |reservations| && result.value[|ports| + k] == reservations[at[k]])
              && (forall i: nat :: i < |reservations| ==> (i in at <==> NewName(ports, reservations, i)))
    ensures result.None? <==> exists j :: Conflicts(ports, reservations, j)
  {
    RefusedExactly(ports, reservations);
    at := [];
    var merged := ports;
    var byName: map<string, Port> := map[];
    for i := 0 to |merged|
      invariant Indexed(ports[..i], byName)
    {
      IndexedNext(ports, i, byName);
      byName := byName[merged[i].name := merged[i]];
    }
    assert ports[..|ports|] == ports;
    for i := 0 to |reservations|
      invariant Merge(ports, reservations[..i]) == Some(merged)
      invariant Appended(ports, reservations, i, merged, at)
      invariant Indexed(merged, byName)
    {
      var r := reservations[i];
      MergeNext(ports, reservations, i, merged);
      InIndex(merged, byName, r.name);
      IndexedMore(merged, byName, r);
      KnownName(ports, reservations, i, merged);
      AppendedNext(ports, reservations, i, merged, at);
      if r.name in byName {
        if byName[r.name].port != r.port || byName[r.name].protocol != r.protocol {
          MergeFails(ports, reservations, i + 1);
          return None, at;
        }
        continue;
      }
      merged, at := merged + [r], at + [i];
      byName := byName[r.name := r];
    }
    assert reservations[..|reservations|] == reservations;
    return Some(merged), at;
  }

  lemma LookupAppended(ports: seq<Port>, r: Port, name: string)
    ensures Lookup(ports + [r], name) == if name == r.name then Some(r) else Lookup(ports, name)
  {
    assert (ports + [r])[..|ports|] == ports;
  }

  /** A merge keeps the scroll's own ports and the meaning of their names, and every reservation is
      represented under its name. */
  lemma {:induction false} MergeRepresents(ports: seq<Port>, reservations: seq<Port>)
    requires Merge(ports, reservations).Some?
    ensures var merged := Merge(ports, reservations).value;
            && ports <= merged
            && (forall name :: Lookup(ports, name).Some? ==> Lookup(merged, name) == Lookup(ports, name))
            && (forall i :: 0 <= i < |reservations| ==>
                  Lookup(merged, reservations[i].name).Some?
                    && Agrees(Lookup(merged, reservations[i].name).value, reservations[i]))
    decreases |reservations|
  {
    if reservations != [] {
      var init, r := reservations[..|reservations| - 1], reservations[|reservations| - 1];
      MergeRepresents(ports, init);
      var before := Merge(ports, init).value;
      forall name ensures Lookup(before + [r], name) == if name == r.name then Some(r) else Lookup(before, name) {
        LookupAppended(before, r, name);
      }
      forall i | 0 <= i < |init| ensures init[i] == reservations[i] {
      }
    }
  }

  /** Merging the same reservations again changes nothing. */
  lemma MergeTwice(ports: seq<Port>, reservations: seq<Port>)
    requires Merge(ports, reservations).Some?
    ensures Merge(Merge(ports, reservations).value, reservations) == Merge(ports, reservations)
  {
    MergeRepresents(ports, reservations);
    NothingToMerge(Merge(ports, reservations).value, reservations);
  }

  lemma {:induction false} NothingToMerge(merged: seq<Port>, reservations: seq<Port>)
    requires forall i :: 0 <= i < |reservations| ==>
               Lookup(merged, reservations[i].name).Some?
                 && Agrees(Lookup(merged, reservations[i].name).value, reservations[i])
    ensures Merge(merged, reservations) == Some(merged)
    decreases |reservations|
  {
    if reservations != [] {
      NothingToMerge(merged, reservations[..|reservations| - 1]);
    }
  }

  // ---- routing while running ------------------------------------------------------------------------------

  /** Both routings resolve, and to the same ports. */
  ghost predicate Unchanged(ports: seq<Port>, current: seq<Assignment>, next: seq<Assignment>) {
    AllResolvable(ports, current, false) && AllResolvable(ports, next, false)
    && Resolution(ports, current) == Resolution(ports, next)
  }

  /** `validateDynamicPortsUnchanged`. */
  method ValidateUnchanged(ports: seq<Port>, current: seq<Assignment>, next: seq<Assignment>) returns (ok: bool)
    ensures ok <==> Unchanged(ports, current, next)
    ensures ok ==> AllResolvable(ports, current, false) && AllResolvable(ports, next, false)
    ensures ok ==> forall resolved :: AllResolved(ports, current, resolved) <==> AllResolved(ports, next, resolved)
  {
    var currentPorts := ResolveRuntimePorts(ports, current, false);
    if currentPorts.None? {
      return false;
    }
    var nextPorts := ResolveRuntimePorts(ports, next, false);
    if nextPorts.None? {
      return false;
    }
    ResolutionIsUnique(ports, current, currentPorts.value);
    ResolutionIsUnique(ports, next, nextPorts.value);
    for i := 0 to |ports|
      invariant forall j :: 0 <= j < i ==> currentPorts.value[j].port == nextPorts.value[j].port
    {
      if ports[i].port != 0 || currentPorts.value[i].port == nextPorts.value[i].port {
        continue;
      }
      return false;
    }
    assert currentPorts.value == nextPorts.value;
    forall resolved ensures AllResolved(ports, current, resolved) <==> AllResolved(ports, next, resolved) {
      ResolutionIsUnique(ports, current, resolved);
      ResolutionIsUnique(ports, next, resolved);
    }
    return true;
  }

  predicate HasRunning(procedures: map<string, ProcedureStatuses>) {
    exists c, p :: c in procedures && p in procedures[c] && procedures[c][p] == Running
  }

  /** The routing after one call of `ApplyRouting`. */
  ghost function Applied(ports: seq<Port>, running: bool, routing: seq<Assignment>,
                         assignments: seq<Assignment>): seq<Assignment> {
    if running ==> Unchanged(ports, routing, assignments) then assignments else routing
  }

  class RoutedScroll {
    const ports: seq<Port>
    var routing: seq<Assignment>
    var status: ScrollStatus
    var procedures: map<string, ProcedureStatuses>

    constructor (ports: seq<Port>)
      ensures this.ports == ports && routing == [] && status == ScrollCreated && procedures == map[]
    {
      this.ports := ports;
      routing, status, procedures := [], ScrollCreated, map[];
    }

    predicate Running()
      reads this
    {
      status == ScrollRunning || HasRunning(procedures)
    }

    /** `ApplyRouting`: while anything runs, only assignments that resolve to the same ports are
        accepted. */
    method ApplyRouting(assignments: seq<Assignment>) returns (ok: bool)
      modifies `routing
      ensures ok <==> old(Running()) ==> Unchanged(ports, old(routing), assignments)
      ensures old(status) != ScrollRunning
              && (forall c, p :: c in procedures && p in procedures[c] ==> procedures[c][p] != Status.Running) ==>
                ok
      ensures ok
              && (old(status) == ScrollRunning
                  || exists c, p :: c in procedures && p in procedures[c] && procedures[c][p] == Status.Running) ==>
                && AllResolvable(ports, assignments, false)
                && forall resolved :: AllResolved(ports, old(routing), resolved) <==>
                     AllResolved(ports, assignments, resolved)
      ensures routing == if ok then assignments else old(routing)
      ensures routing == Applied(ports, old(Running()), old(routing), assignments) && Running() == old(Running())
    {
      if Running() {
        var same := ValidateUnchanged(ports, routing, assignments);
        if !same {
          return false;
        }
      }
      routing := assignments;
      return true;
    }
  }

  /** One call of `ApplyRouting`, and whether anything runs at the time. */
  datatype Call = Call(running: bool, assignments: seq<Assignment>)

  /** The routing after a sequence of calls, refused ones included. */
  ghost function AfterCalls(ports: seq<Port>, routing: seq<Assignment>, calls: seq<Call>): seq<Assignment>
    decreases |calls|
  {
    if calls == [] then routing
    else AfterCalls(ports, Applied(ports, calls[0].running, routing, calls[0].assignments), calls[1..])
  }

  /** As long as a scroll runs, its resolved ports do not change, whatever sequence of routings is
      applied. */
  lemma {:induction false} RunningPortsAreStable(ports: seq<Port>, routing: seq<Assignment>, calls: seq<Call>)
    requires forall i :: 0 <= i < |calls| ==> calls[i].running
    ensures Resolution(ports, AfterCalls(ports, routing, calls)) == Resolution(ports, routing)
    ensures AllResolvable(ports, routing, false) ==> AllResolvable(ports, AfterCalls(ports, routing, calls), false)
    decreases |calls|
  {
    if calls != [] {
      assert calls[0].running;
      RunningPortsAreStable(ports, Applied(ports, true, routing, calls[0].assignments), calls[1..]);
    }
  }

  // ---- routing over an update ------------------------------------------------------------------------------

  predicate Declared(ports: seq<Port>, name: string) {
    exists i :: 0 <= i < |ports| && ports[i].name == name
  }

  function Preserved(assignments: seq<Assignment>, ports: seq<Port>): seq<Assignment> {
    if assignments == [] then []
    else
      var last := assignments[|assignments| - 1];
      Preserved(assignments[..|assignments| - 1], ports) + if Declared(ports, last.portName) then [last] else []
  }

  /** `kept` are the ones of the first `n` assignments that carry a declared port name; `at` says which. */
  ghost predicate KeptAt(assignments: seq<Assignment>, ports: seq<Port>, n: nat, kept: seq<Assignment>, at: seq<nat>)
    requires n <= |assignments|
  {
    && |at| == |kept| && (forall j, k :: 0 <= j < k < |at| ==> at[j] < at[k])
    && (forall k :: 0 <= k < |at| ==> at[k] < n && kept[k] == assignments[at[k]])
    && (forall i: nat :: i < n ==> (i in at <==> Declared(ports, assignments[i].portName)))
  }

  lemma {:induction false} KeptNext(assignments: seq<Assignment>, ports: seq<Port>, i: nat, kept: seq<Assignment>,
                                    at: seq<nat>)
    requires i < |assignments| && KeptAt(assignments, ports, i, kept, at)
    ensures if Declared(ports, assignments[i].portName) then
              KeptAt(assignments, ports, i + 1, kept + [assignments[i]], at + [i])
            else KeptAt(assignments, ports, i + 1, kept, at)
  {
    forall k | 0 <= k < |at| ensures at[k] < i {
    }
  }

  /** `preserveRoutingAssignments`: only the port name decides. Assignment `k` of those that are kept was
      number `at[k]`. */
  method PreserveRoutingAssignments(assignments: seq<Assignment>, ports: seq<Port>)
    returns (kept: seq<Assignment>, ghost at: seq<nat>)
    ensures kept == Preserved(assignments, ports)
    ensures |at| == |kept| && forall j, k :: 0 <= j < k < |at| ==> at[j] < at[k]
    ensures forall k :: 0 <= k < |at| ==> at[k] < |assignments| && kept[k] == assignments[at[k]]
    ensures forall i: nat :: i < |assignments| ==>
              (i in at <==> exists p :: p in ports && p.name == assignments[i].portName)
  {
    kept, at := [], [];
    if |assignments| == 0 {
      return;
    }
    var names: set<string> := {};
    for i := 0 to |ports|
      invariant forall name :: name in names <==> Declared(ports[..i], name)
    {
      assert ports[..i + 1] == ports[..i] + [ports[i]];
      DeclaredMore(ports, i);
      names := names + {ports[i].name};
    }
    assert ports[..|ports|] == ports;
    for i := 0 to |assignments|
      invariant kept == Preserved(assignments[..i], ports)
      invariant KeptAt(assignments, ports, i, kept, at)
    {
      assert assignments[..i + 1][..i] == assignments[..i];
      KeptNext(assignments, ports, i, kept, at);
      if assignments[i].portName in names {
        kept, at := kept + [assignments[i]], at + [i];
      }
    }
    assert assignments[..|assignments|] == assignments;
    forall name ensures Declared(ports, name) <==> exists p :: p in ports && p.name == name {
    }
  }

  lemma DeclaredMore(ports: seq<Port>, i: nat)
    requires i < |ports|
    ensures forall name :: Declared(ports[..i + 1], name) <==> Declared(ports[..i], name) || ports[i].name == name
  {
    forall name ensures Declared(ports[..i + 1], name) <==> Declared(ports[..i], name) || ports[i].name == name {
      if j :| 0 <= j < i && ports[..i][j].name == name {
        assert ports[..i + 1][j].name == name;
      }
      if ports[i].name == name {
        assert ports[..i + 1][i].name == name;
      }
    }
  }

  lemma {:induction false} PreservedAre(assignments: seq<Assignment>, ports: seq<Port>)
    ensures forall a :: a in Preserved(assignments, ports) <==> a in assignments && Declared(ports, a.portName)
    decreases |assignments|
  {
    if assignments != [] {
      PreservedAre(assignments[..|assignments| - 1], ports);
      assert assignments == assignments[..|assignments| - 1] + [assignments[|assignments| - 1]];
    }
  }

  /** When every assignment carries a port name, an update does not change what routing resolves to. */
  lemma PreservedResolvesTheSame(assignments: seq<Assignment>, ports: seq<Port>, required: bool)
    requires forall a :: a in assignments ==> a.portName != ""
    ensures AllResolvable(ports, Preserved(assignments, ports), required) <==>
              AllResolvable(ports, assignments, required)
    ensures Resolution(ports, Preserved(assignments, ports)) == Resolution(ports, assignments)
  {
    var kept := Preserved(assignments, ports);
    PreservedAre(assignments, ports);
    forall i | 0 <= i < |ports| ensures Offers(kept, ports[i].name) == Offers(assignments, ports[i].name) {
      SameOffers(kept, assignments, ports[i].name);
      NamedOffersKept(assignments, ports, kept, i);
    }
    SameResolution(ports, kept, assignments, required);
  }

  lemma NamedOffersKept(assignments: seq<Assignment>, ports: seq<Port>, kept: seq<Assignment>, i: nat)
    requires i < |ports| && forall a :: a in assignments ==> a.portName != ""
    requires forall a :: a in kept <==> a in assignments && Declared(ports, a.portName)
    ensures Offers(assignments, ports[i].name) <= Offers(kept, ports[i].name)
  {
    forall v | v in Offers(assignments, ports[i].name) ensures v in Offers(kept, ports[i].name) {
      var j :| 0 <= j < |assignments| && Target(assignments[j]) == ports[i].name && assignments[j].publicPort == v;
      assert assignments[j] in kept;
    }
  }

  /** Some kept assignment is for a port of this name. */
  ghost predicate StillAssigned(assignments: seq<Assignment>, ports: seq<Port>, name: string) {
    exists a :: a in assignments && Declared(ports, a.portName) && Target(a) == name
  }

  /** Routing that resolves keeps resolving to the same ports exactly when every dynamic port with an
      assignment keeps one, that is, has one that carries a declared port name. */
  lemma PreservedExactly(assignments: seq<Assignment>, ports: seq<Port>)
    requires AllResolvable(ports, assignments, false)
    ensures Resolution(ports, Preserved(assignments, ports)) == Resolution(ports, assignments)
       <==> forall i :: 0 <= i < |ports| && ports[i].port == 0 && Offers(assignments, ports[i].name) != {} ==>
              StillAssigned(assignments, ports, ports[i].name)
  {
    var kept := Preserved(assignments, ports);
    PreservedAre(assignments, ports);
    forall i | 0 <= i < |ports|
      ensures ResolvedPort(ports[i], kept) == ResolvedPort(ports[i], assignments)
         <==> (ports[i].port == 0 && Offers(assignments, ports[i].name) != {} ==>
                 StillAssigned(assignments, ports, ports[i].name))
    {
      KeptOffers(assignments, ports, kept, ports[i]);
    }
    var before, after := Resolution(ports, assignments), Resolution(ports, kept);
    assert after == before <==> forall i :: 0 <= i < |ports| ==> after[i] == before[i];
    forall i | 0 <= i < |ports|
      ensures after[i] == ResolvedPort(ports[i], kept) && before[i] == ResolvedPort(ports[i], assignments)
    {
    }
  }

  lemma KeptOffers(assignments: seq<Assignment>, ports: seq<Port>, kept: seq<Assignment>, p: Port)
    requires Resolvable(p, assignments, false)
    requires forall a :: a in kept <==> a in assignments && Declared(ports, a.portName)
    ensures ResolvedPort(p, kept) == ResolvedPort(p, assignments)
       <==> (p.port == 0 && Offers(assignments, p.name) != {} ==> StillAssigned(assignments, ports, p.name))
  {
    SameOffers(kept, assignments, p.name);
    if a :| a in assignments && Declared(ports, a.portName) && Target(a) == p.name {
      assert a in kept;
      var j :| 0 <= j < |kept| && kept[j] == a;
      assert a.publicPort in Offers(kept, p.name);
    } else {
      assert Offers(kept, p.name) == {} by {
        if v :| v in Offers(kept, p.name) {
          var j :| 0 <= j < |kept| && Target(kept[j]) == p.name && kept[j].publicPort == v;
          assert kept[j] in kept;
        }
      }
    }
    if p.port == 0 && Offers(assignments, p.name) != {} {
      var v :| v in Offers(assignments, p.name);
      assert ValidPublic(v);
    }
  }

  /** An assignment without a port name is dropped by an update although it resolved its port. */
  lemma UnnamedAssignmentIsLost() returns (assignments: seq<Assignment>, ports: seq<Port>)
    ensures AllResolvable(ports, assignments, true)
    ensures !AllResolvable(ports, Preserved(assignments, ports), true)
  {
    assignments, ports := [Assignment("game", "", 30000)], [Port("game", "udp", 0)];
    assert assignments[0].publicPort in Offers(assignments, "game");
    PreservedAre(assignments, ports);
    assert !Declared(ports, assignments[0].portName);
    assert forall a :: a !in Preserved(assignments, ports);
    assert Offers(Preserved(assignments, ports), ports[0].name) == {};
    assert !Resolvable(ports[0], Preserved(assignments, ports), true);
  }
}
