/** The dependency graph of a command table. */
module Needs {
  import opened Domain

  /** A walk along `needs`: every element but the last is a defined command that needs the next one. */
  ghost predicate Path(table: Table, p: seq<string>) {
    |p| > 0 && forall i :: 0 <= i < |p| - 1 ==> p[i] in table && p[i + 1] in table[p[i]].needs
  }

  /** `d` is reachable from `c` in one or more steps. */
  ghost predicate Reaches(table: Table, c: string, d: string) {
    exists p :: PathBetween(table, p, c, d)
  }

  ghost predicate PathBetween(table: Table, p: seq<string>, c: string, d: string) {
    |p| >= 2 && Path(table, p) && p[0] == c && p[|p| - 1] == d
  }

  lemma ReachesStep(table: Table, c: string, d: string)
    requires c in table && d in table[c].needs
    ensures Reaches(table, c, d)
  {
    assert PathBetween(table, [c, d], c, d);
  }

  lemma ReachesTransitive(table: Table, c: string, d: string, e: string)
    requires Reaches(table, c, d) && Reaches(table, d, e)
    ensures Reaches(table, c, e)
  {
    var p :| PathBetween(table, p, c, d);
    var q :| PathBetween(table, q, d, e);
    assert PathBetween(table, p + q[1..], c, e);
  }

  ghost function Reachable(table: Table, c: string): set<string> {
    set d | d in table && Reaches(table, c, d)
  }

  /** A set of defined commands that holds everything its members need, none of them on a cycle. */
  ghost predicate Cone(table: Table, group: set<string>) {
    && group <= table.Keys
    && (forall c, d :: c in group && d in table[c].needs ==> d in group)
    && (forall c :: c in group ==> !Reaches(table, c, c))
  }

  /** Every set of commands without cycles has one that needs none of the others. */
  lemma {:induction false} Minimal(table: Table, group: set<string>, c: string) returns (x: string)
    requires group <= table.Keys && c in group && forall e :: e in group ==> !Reaches(table, e, e)
    ensures x in group && forall d :: d in table[x].needs ==> d !in group
    decreases |Reachable(table, c)|
  {
    if d :| d in table[c].needs && d in group {
      ReachesStep(table, c, d);
      forall e | e in Reachable(table, d) ensures e in Reachable(table, c) {
        ReachesTransitive(table, c, d, e);
      }
      assert d in Reachable(table, c) && d !in Reachable(table, d);
      assert Reachable(table, d) < Reachable(table, c);
      SubsetSize(Reachable(table, d), Reachable(table, c));
      x := Minimal(table, group, d);
    } else {
      x := c;
    }
  }

  lemma SubsetSize(a: set<string>, b: set<string>)
    requires a < b
    ensures |a| < |b|
  {
    assert |b| == |a| + |b - a| by {
      assert b == a + (b - a);
    }
    assert b - a != {};
  }
}
