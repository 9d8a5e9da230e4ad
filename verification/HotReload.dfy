/** Hot reload: any number of triggers, at most one builder. A trigger during a build is remembered
    in one flag and answered with one more pass over the commands. */
module HotReload {

  datatype Event =
    | Triggered
    | Ignored
    | PassStarted(commands: seq<string>)
    | Built(command: string)
    | PassEnded(commands: seq<string>)

  /** A builder with the commands it captured; `started` is where its current pass began. */
  datatype Builder = Builder(commands: seq<string>, idx: nat, started: nat)

  datatype State = State(
    commands: seq<string>,
    buildActive: bool,
    changeAfterBuild: bool,
    builders: map<nat, Builder>,
    nextBuilder: nat,
    history: seq<Event>)

  datatype Step = SetCommands(commands: seq<string>) | Trigger | Build(b: nat) | EndPass(b: nat)

  const INIT := State([], false, false, map[], 0, [])

  /** The first critical section of `runHotReloadCommand`. */
  function Enter(s: State): State {
    if s.buildActive then s.(changeAfterBuild := true, history := s.history + [Triggered])
    else if s.commands == [] then s.(history := s.history + [Ignored])
    else s.(buildActive := true, builders := s.builders[s.nextBuilder := Builder(s.commands, 0, |s.history| + 1)],
            nextBuilder := s.nextBuilder + 1, history := s.history + [Triggered, PassStarted(s.commands)])
  }

  /** One command of a pass; whether the build fails makes no difference. */
  function BuildOne(s: State, b: nat): State
    requires b in s.builders && s.builders[b].idx < |s.builders[b].commands|
  {
    s.(builders := s.builders[b := s.builders[b].(idx := s.builders[b].idx + 1)],
       history := s.history + [Built(s.builders[b].commands[s.builders[b].idx])])
  }

  /** The last critical section of a pass. */
  function Leave(s: State, b: nat): State
    requires b in s.builders
  {
    var commands := s.builders[b].commands;
    if !s.changeAfterBuild then
      s.(buildActive := false, builders := s.builders - {b}, history := s.history + [PassEnded(commands)])
    else
      s.(changeAfterBuild := false, builders := s.builders[b := Builder(commands, 0, |s.history| + 1)],
         history := s.history + [PassEnded(commands), PassStarted(commands)])
  }

  predicate Enabled(s: State, step: Step) {
    match step
    case SetCommands(commands) => true
    case Trigger => true
    case Build(b) => b in s.builders && s.builders[b].idx < |s.builders[b].commands|
    case EndPass(b) => b in s.builders && s.builders[b].idx == |s.builders[b].commands|
  }

  function Apply(s: State, step: Step): State
    requires Enabled(s, step)
  {
    match step
    case SetCommands(commands) => s.(commands := commands)
    case Trigger => Enter(s)
    case Build(b) => BuildOne(s, b)
    case EndPass(b) => Leave(s, b)
  }

  ghost predicate CanRun(s: State, steps: seq<Step>)
    decreases |steps|
  {
    steps == [] || (Enabled(s, steps[0]) && CanRun(Apply(s, steps[0]), steps[1..]))
  }

  ghost function After(s: State, steps: seq<Step>): State
    requires CanRun(s, steps)
    decreases |steps|
  {
    if steps == [] then s else After(Apply(s, steps[0]), steps[1..])
  }

  // ---- the object ---------------------------------------------------------------------------------

  class WatchService {
    var hotReloadCommands: seq<string>
    var buildActive: bool
    var changeAfterBuild: bool
    ghost var builders: map<nat, Builder>
    ghost var nextBuilder: nat
    ghost var history: seq<Event>

    ghost function Model(): State
      reads this
    {
      State(hotReloadCommands, buildActive, changeAfterBuild, builders, nextBuilder, history)
    }

    constructor ()
      ensures Model() == INIT
    {
      hotReloadCommands, buildActive, changeAfterBuild := [], false, false;
      builders, nextBuilder, history := map[], 0, [];
    }

    /** Whether the caller becomes a builder, and with which commands. */
    method EnterBuild() returns (builder: bool, commands: seq<string>)
      modifies this
      ensures Model() == Apply(old(Model()), Trigger)
      ensures builder <==> !old(buildActive) && old(hotReloadCommands) != []
      ensures builder ==> commands == old(hotReloadCommands)
      ensures hotReloadCommands == old(hotReloadCommands)
      ensures old(buildActive) ==> buildActive && changeAfterBuild && builders == old(builders)
      ensures !old(buildActive) && !builder ==>
                !buildActive && changeAfterBuild == old(changeAfterBuild) && builders == old(builders)
      ensures builder ==>
                && buildActive && changeAfterBuild == old(changeAfterBuild)
                && builders == old(builders)[old(nextBuilder) := builders[old(nextBuilder)]]
                && builders[old(nextBuilder)].commands == commands && builders[old(nextBuilder)].idx == 0
    {
      if buildActive {
        changeAfterBuild, history := true, history + [Triggered];
        return false, [];
      }
      if |hotReloadCommands| == 0 {
        history := history + [Ignored];
        return false, [];
      }
      buildActive := true;
      commands := hotReloadCommands;
      builders := builders[nextBuilder := Builder(commands, 0, |history| + 1)];
      nextBuilder := nextBuilder + 1;
      history := history + [Triggered, PassStarted(commands)];
      return true, commands;
    }

    /** Whether the builder goes round again. */
    method LeaveBuild(ghost b: nat) returns (again: bool)
      requires Enabled(Model(), Step.EndPass(b))
      modifies this
      ensures Model() == Apply(old(Model()), Step.EndPass(b))
      ensures again == old(changeAfterBuild)
      ensures !again ==> !buildActive && builders == old(builders) - {b} && changeAfterBuild == old(changeAfterBuild)
      ensures again ==>
                && buildActive == old(buildActive) && !changeAfterBuild && builders == old(builders)[b := builders[b]]
                && builders[b].commands == old(builders)[b].commands && builders[b].idx == 0
    {
      ghost var commands := builders[b].commands;
      if !changeAfterBuild {
        buildActive := false;
        builders, history := builders - {b}, history + [PassEnded(commands)];
        return false;
      }
      changeAfterBuild := false;
      builders := builders[b := Builder(commands, 0, |history| + 1)];
      history := history + [PassEnded(commands), PassStarted(commands)];
      return true;
    }

    /** One pass of a builder that nobody disturbs: all its commands, in order. */
    method RunPass(b: nat, commands: seq<string>) returns (ghost steps: seq<Step>)
      requires b in builders && builders[b].commands == commands && builders[b].idx == 0
      modifies this
      ensures CanRun(old(Model()), steps) && Model() == After(old(Model()), steps)
      ensures Enabled(Model(), Step.EndPass(b))
    {
      steps := [];
      for i := 0 to |commands|
        invariant b in builders && builders[b].commands == commands && builders[b].idx == i
        invariant CanRun(old(Model()), steps) && Model() == After(old(Model()), steps)
      {
        ghost var before := Model();
        builders := builders[b := builders[b].(idx := builders[b].idx + 1)];
        history := history + [Built(commands[i])];
        RunMore(old(Model()), steps, before, Build(b));
        steps := steps + [Build(b)];
      }
    }
  }

  lemma {:induction false} RunMore(s: State, steps: seq<Step>, s': State, step: Step)
    requires CanRun(s, steps) && s' == After(s, steps) && Enabled(s', step)
    ensures CanRun(s, steps + [step]) && After(s, steps + [step]) == Apply(s', step)
    decreases |steps|
  {
    if steps == [] {
      assert [step][1..] == [];
    } else {
      assert (steps + [step])[0] == steps[0] && (steps + [step])[1..] == steps[1..] + [step];
      RunMore(Apply(s, steps[0]), steps[1..], s', step);
    }
  }

  // ---- at most one builder -----------------------------------------------------------------------------

  ghost predicate OneBuilder(s: State) {
    && (s.buildActive <==> s.builders != map[])
    && (forall b, c :: b in s.builders && c in s.builders ==> b == c)
    && (s.changeAfterBuild ==> s.buildActive)
    && (forall b :: b in s.builders ==> b < s.nextBuilder)
  }

  lemma StepKeepsOneBuilder(s: State, step: Step)
    requires OneBuilder(s) && Enabled(s, step)
    ensures OneBuilder(Apply(s, step))
  {
    var s' := Apply(s, step);
    match step
    case SetCommands(commands) =>
    case Trigger =>
      assert s'.buildActive && !s.buildActive ==> s.nextBuilder in s'.builders;
    case Build(b) =>
      assert b in s'.builders;
    case EndPass(b) =>
      if s.changeAfterBuild {
        assert b in s'.builders;
      } else {
        assert s'.builders == map[];
      }
  }

  // ---- no trigger is lost ----------------------------------------------------------------------------------

  /** The commands built from position `from` on. */
  function Builds(h: seq<Event>, from: nat): seq<string>
    requires from <= |h|
    decreases |h|
  {
    if |h| == from then []
    else Builds(h[..|h| - 1], from) + if h[|h| - 1].Built? then [h[|h| - 1].command] else []
  }

  /** A pass that started at `from` and ended at `to` after building exactly its commands, in order. */
  ghost predicate FullPass(h: seq<Event>, from: nat, to: nat) {
    && from < to < |h| && h[from].PassStarted? && h[from].commands != []
    && h[to] == PassEnded(h[from].commands)
    && Builds(h[..to], from) == h[from].commands
  }

  ghost predicate Answered(h: seq<Event>, t: nat) {
    exists from, to :: t < from && FullPass(h, from, to)
  }

  ghost predicate BuilderOnTrack(h: seq<Event>, b: Builder) {
    && b.commands != [] && b.idx <= |b.commands| && b.started < |h|
    && h[b.started] == PassStarted(b.commands)
    && Builds(h, b.started) == b.commands[..b.idx]
  }

  /** A trigger has been answered, or a builder will start a pass for it, or is in one. */
  ghost predicate InHand(s: State, t: nat) {
    || Answered(s.history, t)
    || (s.buildActive && s.changeAfterBuild)
    || exists b :: b in s.builders && t < s.builders[b].started
  }

  ghost predicate Invariant(s: State) {
    && OneBuilder(s)
    && (forall b :: b in s.builders ==> BuilderOnTrack(s.history, s.builders[b]))
    && (forall t: nat :: t < |s.history| && s.history[t] == Triggered ==> InHand(s, t))
  }

  lemma BuildsMore(h: seq<Event>, from: nat, e: Event)
    requires from <= |h|
    ensures Builds(h + [e], from) == Builds(h, from) + if e.Built? then [e.command] else []
  {
    assert (h + [e])[..|h|] == h;
  }

  lemma FullPassStays(h: seq<Event>, more: seq<Event>, from: nat, to: nat)
    requires FullPass(h, from, to)
    ensures FullPass(h + more, from, to)
  {
    assert (h + more)[..to] == h[..to];
  }

  lemma AnsweredStays(h: seq<Event>, more: seq<Event>, t: nat)
    requires Answered(h, t)
    ensures Answered(h + more, t)
  {
    var from, to :| t < from && FullPass(h, from, to);
    FullPassStays(h, more, from, to);
  }

  lemma EnterKeeps(s: State, s': State)
    requires Invariant(s) && s' == Enter(s)
    ensures Invariant(s')
  {
    StepKeepsOneBuilder(s, Trigger);
    var more := s'.history[|s.history|..];
    assert s'.history == s.history + more;
    forall b | b in s.builders
      ensures b in s'.builders && s'.builders[b] == s.builders[b] && BuilderOnTrack(s'.history, s.builders[b])
    {
      BuildsMore(s.history, s.builders[b].started, s'.history[|s.history|]);
      assert s.buildActive;
      assert s'.history == s.history + [Triggered];
    }
    if !s.buildActive && s.commands != [] {
      FreshBuilder(s.history + [Triggered], s.commands);
      assert s'.history == (s.history + [Triggered]) + [PassStarted(s.commands)];
    }
    forall t: nat | t < |s'.history| && s'.history[t] == Triggered ensures InHand(s', t) {
      if t < |s.history| {
        assert s.history[t] == Triggered && InHand(s, t);
        if Answered(s.history, t) {
          AnsweredStays(s.history, more, t);
        }
      } else if !s.buildActive {
        assert s.nextBuilder in s'.builders;
      }
    }
  }

  lemma FreshBuilder(h: seq<Event>, commands: seq<string>)
    requires commands != []
    ensures BuilderOnTrack(h + [PassStarted(commands)], Builder(commands, 0, |h|))
  {
    BuildsMore(h, |h|, PassStarted(commands));
  }

  lemma BuildKeeps(s: State, b: nat, s': State)
    requires Invariant(s) && Enabled(s, Build(b)) && s' == BuildOne(s, b)
    ensures Invariant(s')
  {
    StepKeepsOneBuilder(s, Build(b));
    BuildsMore(s.history, s.builders[b].started, Built(s.builders[b].commands[s.builders[b].idx]));
    forall t: nat | t < |s'.history| && s'.history[t] == Triggered ensures InHand(s', t) {
      assert s.history[t] == Triggered && InHand(s, t);
      if Answered(s.history, t) {
        AnsweredStays(s.history, [Built(s.builders[b].commands[s.builders[b].idx])], t);
      }
    }
  }

  /** The end of a pass answers every trigger before its start. */
  lemma EndAnswers(s: State, b: nat, more: seq<Event>, t: nat)
    requires Invariant(s) && Enabled(s, EndPass(b)) && t < s.builders[b].started
    ensures Answered(s.history + [PassEnded(s.builders[b].commands)] + more, t)
  {
    var h := s.history + [PassEnded(s.builders[b].commands)];
    assert h[..|s.history|] == s.history;
    assert FullPass(h, s.builders[b].started, |s.history|);
    AnsweredStays(h, more, t);
  }

  lemma LeaveKeeps(s: State, b: nat, s': State)
    requires Invariant(s) && Enabled(s, EndPass(b)) && s' == Leave(s, b)
    ensures Invariant(s')
  {
    StepKeepsOneBuilder(s, EndPass(b));
    var ended := PassEnded(s.builders[b].commands);
    var more := if s.changeAfterBuild then [PassStarted(s.builders[b].commands)] else [];
    assert s'.history == s.history + [ended] + more;
    if s.changeAfterBuild {
      FreshBuilder(s.history + [ended], s.builders[b].commands);
      assert b in s'.builders && s'.builders[b].started == |s.history| + 1;
    }
    forall t: nat | t < |s'.history| && s'.history[t] == Triggered ensures InHand(s', t) {
      assert t < |s.history| && s.history[t] == Triggered && InHand(s, t);
      if Answered(s.history, t) {
        AnsweredStays(s.history, [ended] + more, t);
        assert s.history + ([ended] + more) == s'.history;
      } else if !s.changeAfterBuild {
        var c :| c in s.builders && t < s.builders[c].started;
        EndAnswers(s, b, more, t);
      }
    }
  }

  lemma StepKeeps(s: State, step: Step)
    requires Invariant(s) && Enabled(s, step)
    ensures Invariant(Apply(s, step))
  {
    match step
    case SetCommands(commands) => SetKeeps(s, commands);
    case Trigger => EnterKeeps(s, Enter(s));
    case Build(b) => BuildKeeps(s, b, BuildOne(s, b));
    case EndPass(b) => LeaveKeeps(s, b, Leave(s, b));
  }

  lemma SetKeeps(s: State, commands: seq<string>)
    requires Invariant(s)
    ensures Invariant(s.(commands := commands))
  {
    forall t: nat | t < |s.history| && s.history[t] == Triggered ensures InHand(s.(commands := commands), t) {
      assert InHand(s, t);
    }
  }

  lemma {:induction false} RunKeeps(s: State, steps: seq<Step>)
    requires Invariant(s) && CanRun(s, steps)
    ensures Invariant(After(s, steps))
    decreases |steps|
  {
    if steps != [] {
      StepKeeps(s, steps[0]);
      RunKeeps(Apply(s, steps[0]), steps[1..]);
    }
  }

  /** Whatever happens, there is never more than one builder; and once the service is idle again,
      every trigger that was not ignored has been answered by a pass that started after it and built
      all of its commands. */
  lemma NoLostTrigger(steps: seq<Step>)
    requires CanRun(INIT, steps)
    ensures |After(INIT, steps).builders| <= 1
    ensures var s := After(INIT, steps);
            !s.buildActive ==> forall t: nat :: t < |s.history| && s.history[t] == Triggered ==> Answered(s.history, t)
  {
    RunKeeps(INIT, steps);
    var s := After(INIT, steps);
    if b :| b in s.builders {
      assert s.builders.Keys == {b};
      assert |s.builders| == |s.builders.Keys|;
    }
    forall t: nat | !s.buildActive && t < |s.history| && s.history[t] == Triggered ensures Answered(s.history, t) {
      assert InHand(s, t);
    }
  }

  // ---- coalescing ---------------------------------------------------------------------------------------------

  function Triggers(h: seq<Event>): nat {
    if h == [] then 0 else Triggers(h[..|h| - 1]) + if h[|h| - 1] == Triggered then 1 else 0
  }

  function Passes(h: seq<Event>): nat {
    if h == [] then 0 else Passes(h[..|h| - 1]) + if h[|h| - 1].PassStarted? then 1 else 0
  }

  lemma CountMore(h: seq<Event>, e: Event)
    ensures Triggers(h + [e]) == Triggers(h) + if e == Triggered then 1 else 0
    ensures Passes(h + [e]) == Passes(h) + if e.PassStarted? then 1 else 0
  {
    assert (h + [e])[..|h|] == h;
  }

  ghost predicate Justified(s: State) {
    Passes(s.history) + (if s.changeAfterBuild then 1 else 0) <= Triggers(s.history)
  }

  lemma CountPair(h: seq<Event>, e: Event, f: Event)
    ensures Triggers(h + [e, f]) == Triggers(h) + (if e == Triggered then 1 else 0) + (if f == Triggered then 1 else 0)
    ensures Passes(h + [e, f]) == Passes(h) + (if e.PassStarted? then 1 else 0) + (if f.PassStarted? then 1 else 0)
  {
    CountMore(h, e);
    CountMore(h + [e], f);
    assert h + [e] + [f] == h + [e, f];
  }

  lemma EnterKeepsJustified(s: State)
    requires Justified(s)
    ensures Justified(Enter(s))
  {
    if s.buildActive {
      CountMore(s.history, Triggered);
    } else if s.commands == [] {
      CountMore(s.history, Ignored);
    } else {
      CountPair(s.history, Triggered, PassStarted(s.commands));
    }
  }

  lemma LeaveKeepsJustified(s: State, b: nat)
    requires Justified(s) && b in s.builders
    ensures Justified(Leave(s, b))
  {
    var commands := s.builders[b].commands;
    if s.changeAfterBuild {
      CountPair(s.history, PassEnded(commands), PassStarted(commands));
    } else {
      CountMore(s.history, PassEnded(commands));
    }
  }

  lemma StepKeepsJustified(s: State, step: Step)
    requires Justified(s) && Enabled(s, step)
    ensures Justified(Apply(s, step))
  {
    match step
    case SetCommands(commands) =>
    case Trigger => EnterKeepsJustified(s);
    case Build(b) => CountMore(s.history, Built(s.builders[b].commands[s.builders[b].idx]));
    case EndPass(b) => LeaveKeepsJustified(s, b);
  }

  /** Triggers are coalesced, never multiplied: there are at most as many passes as triggers. */
  lemma {:induction false} PassesAreTriggered(s: State, steps: seq<Step>)
    requires Justified(s) && CanRun(s, steps)
    ensures Passes(After(s, steps).history) <= Triggers(After(s, steps).history)
    decreases |steps|
  {
    if steps != [] {
      StepKeepsJustified(s, steps[0]);
      PassesAreTriggered(Apply(s, steps[0]), steps[1..]);
    }
  }

  // ---- what becomes of a trigger ---------------------------------------------------------------------------------

  function Ignores(h: seq<Event>): nat {
    if h == [] then 0 else Ignores(h[..|h| - 1]) + if h[|h| - 1] == Ignored then 1 else 0
  }

  lemma {:induction false} IgnoresMore(h: seq<Event>, e: Event)
    ensures Ignores(h + [e]) == Ignores(h) + if e == Ignored then 1 else 0
  {
    assert (h + [e])[..|h|] == h;
  }

  lemma {:induction false} IgnoresPair(h: seq<Event>, e: Event, f: Event)
    requires e != Ignored && f != Ignored
    ensures Ignores(h + [e, f]) == Ignores(h)
  {
    IgnoresMore(h, e);
    IgnoresMore(h + [e], f);
    assert h + [e] + [f] == h + [e, f];
  }

  /** How many triggers a run has. */
  function TriggerSteps(steps: seq<Step>): nat {
    if steps == [] then 0 else (if steps[0].Trigger? then 1 else 0) + TriggerSteps(steps[1..])
  }

  /** How many of them find neither a build in progress nor a command to build. */
  ghost function FutileTriggers(s: State, steps: seq<Step>): nat
    requires CanRun(s, steps)
    decreases |steps|
  {
    if steps == [] then 0
    else
      (if steps[0].Trigger? && !s.buildActive && s.commands == [] then 1 else 0)
      + FutileTriggers(Apply(s, steps[0]), steps[1..])
  }

  lemma {:induction false} StepCounts(s: State, step: Step)
    requires Enabled(s, step)
    ensures Ignores(Apply(s, step).history)
         == Ignores(s.history) + if step.Trigger? && !s.buildActive && s.commands == [] then 1 else 0
    ensures Triggers(Apply(s, step).history)
         == Triggers(s.history) + if step.Trigger? && (s.buildActive || s.commands != []) then 1 else 0
  {
    match step
    case SetCommands(commands) =>
    case Trigger =>
      var e := if s.buildActive || s.commands != [] then Triggered else Ignored;
      IgnoresMore(s.history, e);
      CountMore(s.history, e);
      IgnoresPair(s.history, Triggered, PassStarted(s.commands));
      CountPair(s.history, Triggered, PassStarted(s.commands));
    case Build(b) =>
      var built := Built(s.builders[b].commands[s.builders[b].idx]);
      IgnoresMore(s.history, built);
      CountMore(s.history, built);
    case EndPass(b) =>
      var commands := s.builders[b].commands;
      IgnoresMore(s.history, PassEnded(commands));
      CountMore(s.history, PassEnded(commands));
      IgnoresPair(s.history, PassEnded(commands), PassStarted(commands));
      CountPair(s.history, PassEnded(commands), PassStarted(commands));
  }

  /** Over every run, the triggers that find neither a build nor a command are ignored, and exactly these:
      all others are taken, once each. */
  lemma {:induction false} TriggersAreConserved(s: State, steps: seq<Step>)
    requires CanRun(s, steps)
    ensures Ignores(After(s, steps).history) == Ignores(s.history) + FutileTriggers(s, steps)
    ensures Triggers(After(s, steps).history) + FutileTriggers(s, steps) == Triggers(s.history) + TriggerSteps(steps)
    decreases |steps|
  {
    if steps != [] {
      StepCounts(s, steps[0]);
      TriggersAreConserved(Apply(s, steps[0]), steps[1..]);
    }
  }

  /** As long as there are commands, no trigger is ignored. */
  lemma {:induction false} IgnoredOnlyWithoutCommands(s: State, steps: seq<Step>)
    requires CanRun(s, steps) && s.commands != []
    requires forall i :: 0 <= i < |steps| && steps[i].SetCommands? ==> steps[i].commands != []
    ensures Ignores(After(s, steps).history) == Ignores(s.history)
    ensures Triggers(After(s, steps).history) == Triggers(s.history) + TriggerSteps(steps)
    decreases |steps|
  {
    if steps != [] {
      assert Apply(s, steps[0]).commands != [];
      StepCounts(s, steps[0]);
      IgnoredOnlyWithoutCommands(Apply(s, steps[0]), steps[1..]);
    }
  }
}
