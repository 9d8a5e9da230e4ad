/** The Kubernetes backend: where a restarted command resumes, which procedures it runs, and which
    job an attempt at one procedure uses. */
module KubernetesProcedures {
  import opened Domain
  import opened DockerProcedures
  import Attempts = DockerAttempts

  /** A job of one command. `procedure` is its procedure label, `tag` its attempt label. */
  datatype Job = Job(procedure: string, tag: string, created: int, active: int, succeeded: int, failed: bool)

  type Jobs = map<string, Job>

  /** `activeKubernetesJob`. */
  predicate ActiveJob(j: Job) {
    j.active > 0 && j.succeeded == 0 && !j.failed
  }

  // ---- resuming a restarted command ---------------------------------------------------------------

  /** The index a label stands for: the last procedure that carries it. Nil procedures carry none. */
  function IndexOf(labels: seq<Option<string>>, name: string): (r: Option<nat>)
    ensures r.None? <==> forall i :: 0 <= i < |labels| ==> labels[i] != Some(name)
    ensures r.Some? ==> r.value < |labels| && labels[r.value] == Some(name)
                        && forall i :: r.value < i < |labels| ==> labels[i] != Some(name)
  {
    if labels == [] then None
    else if labels[|labels| - 1] == Some(name) then Some(|labels| - 1)
    else IndexOf(labels[..|labels| - 1], name)
  }

  /** The index of an active job whose label is known. */
  function ActiveIndex(labels: seq<Option<string>>, j: Job): Option<nat> {
    if ActiveJob(j) then IndexOf(labels, j.procedure) else None
  }

  /** The largest index of an active known job, 0 without any. */
  ghost predicate IsResumeIndex(labels: seq<Option<string>>, jobs: Jobs, names: set<string>, index: nat) {
    && (forall n :: n in names && n in jobs && ActiveIndex(labels, jobs[n]).Some? ==>
        ActiveIndex(labels, jobs[n]).value <= index)
    && (index == 0 || exists n :: n in names && n in jobs && ActiveIndex(labels, jobs[n]) == Some(index))
  }

  predicate Superseded(labels: seq<Option<string>>, j: Job, index: nat) {
    ActiveIndex(labels, j).Some? && ActiveIndex(labels, j).value < index
  }

  // ---- attempts -------------------------------------------------------------------------------------

  function DigitCount(s: string): (n: nat)
    ensures n <= |s| && forall i :: 0 <= i < n ==> Attempts.IsDigit(s[i])
    ensures n < |s| ==> !Attempts.IsDigit(s[n])
  {
    if s == "" || !Attempts.IsDigit(s[0]) then 0 else 1 + DigitCount(s[1..])
  }

  /** Scanning "%d": an optional sign and the digits that follow; anything after them is ignored. */
  function ScanNumber(s: string): Option<int> {
    var signed := s != "" && (s[0] == '+' || s[0] == '-');
    var rest := if signed then s[1..] else s;
    if DigitCount(rest) == 0 then None
    else
      var n: int := Attempts.ParseDigits(rest[..DigitCount(rest)]);
      Some(if signed && s[0] == '-' then -n else n)
  }

  lemma ScanPrinted(n: nat)
    ensures ScanNumber(Attempts.Itoa(n)) == Some(n)
  {
    var s := Attempts.Itoa(n);
    assert Attempts.IsDigit(s[0]);
    assert DigitCount(s) == |s|;
    assert s[..|s|] == s;
    Attempts.ParsePrinted(n);
  }

  lemma {:induction false} DigitsStop(s: string, rest: string)
    requires (forall i :: 0 <= i < |s| ==> Attempts.IsDigit(s[i])) && (rest != "" ==> !Attempts.IsDigit(rest[0]))
    ensures DigitCount(s + rest) == |s|
    decreases |s|
  {
    if s == "" {
      assert s + rest == rest;
    } else {
      assert (s + rest)[1..] == s[1..] + rest;
      DigitsStop(s[1..], rest);
    }
  }

  lemma {:induction false} DigitsOf(n: nat, rest: string, s: string)
    requires (rest != "" ==> !Attempts.IsDigit(rest[0])) && s == Attempts.Itoa(n) + rest
    ensures Attempts.IsDigit(s[0]) && DigitCount(s) > 0 && Attempts.ParseDigits(s[..DigitCount(s)]) == n
  {
    DigitsStop(Attempts.Itoa(n), rest);
    assert s[..|Attempts.Itoa(n)|] == Attempts.Itoa(n);
    assert s[0] == Attempts.Itoa(n)[0];
    Attempts.ParsePrinted(n);
  }

  lemma {:induction false} ScanUnsigned(s: string, n: nat)
    requires s != "" && Attempts.IsDigit(s[0]) && DigitCount(s) > 0 && Attempts.ParseDigits(s[..DigitCount(s)]) == n
    ensures ScanNumber(s) == Some(n)
  {
  }

  lemma {:induction false} ScanSigned(s: string, n: nat, signed: string)
    requires s != "" && DigitCount(s) > 0 && Attempts.ParseDigits(s[..DigitCount(s)]) == n
    requires signed != "" && signed[1..] == s
    ensures signed[0] == '+' ==> ScanNumber(signed) == Some(n)
    ensures signed[0] == '-' ==> ScanNumber(signed).Some? && ScanNumber(signed).value + n == 0
  {
  }

  /** Whatever follows the digits is ignored, and a sign in front of them is read. */
  lemma {:induction false} ScanIgnoresRest(n: nat, rest: string)
    requires rest != "" ==> !Attempts.IsDigit(rest[0])
    ensures ScanNumber(Attempts.Itoa(n) + rest) == Some(n) && ScanNumber("+" + Attempts.Itoa(n) + rest) == Some(n)
    ensures var negative := ScanNumber("-" + Attempts.Itoa(n) + rest); negative.Some? && negative.value + n == 0
  {
    var s := Attempts.Itoa(n) + rest;
    DigitsOf(n, rest, s);
    ScanUnsigned(s, n);
    assert "+" + Attempts.Itoa(n) + rest == "+" + s && "-" + Attempts.Itoa(n) + rest == "-" + s;
    ScanSigned(s, n, "+" + s);
    ScanSigned(s, n, "-" + s);
  }

  /** `procedureJobAttempt`. */
  function JobNumber(tag: string, name: string, base: string): int {
    if ScanNumber(tag).Some? && ScanNumber(tag).value > 0 then ScanNumber(tag).value
    else if base + "-r" <= name && ScanNumber(name[|base| + 2..]).Some? && ScanNumber(name[|base| + 2..]).value > 0 then
      ScanNumber(name[|base| + 2..]).value
    else 1
  }

  /** The number of a job comes from its label, else from its name, and is 1 without either. */
  lemma {:induction false} NumberedByLabelThenName(n: nat, name: string, base: string)
    requires n >= 1
    ensures JobNumber(Attempts.Itoa(n), name, base) == n
    ensures JobNumber("", Attempts.AttemptName(base, n), base) == n
    ensures !(base + "-r" <= name) ==> JobNumber("", name, base) == 1
  {
    ScanPrinted(n);
    Attempts.NumberFromName(n, base);
    if n > 1 {
      assert Attempts.AttemptName(base, n) == (base + "-r") + Attempts.Itoa(n);
      assert Attempts.AttemptName(base, n)[|base| + 2..] == Attempts.Itoa(n);
    }
  }

  /** The attempt number of every job. */
  function Numbers(jobs: Jobs, base: string): map<string, int> {
    map n | n in jobs :: JobNumber(jobs[n].tag, n, base)
  }

  /** The jobs of a procedure that have not succeeded. */
  function Unfinished(jobs: Jobs, procedure: string): set<string> {
    set n | n in jobs && jobs[n].procedure == procedure && jobs[n].succeeded <= 0
  }

  /** The jobs an attempt reuses: neither succeeded nor failed. */
  function Reusable(jobs: Jobs, procedure: string): set<string> {
    set n | n in jobs && jobs[n].procedure == procedure && jobs[n].succeeded <= 0 && !jobs[n].failed
  }

  function WithoutSucceeded(jobs: Jobs, procedure: string): Jobs {
    map n | n in jobs && !(jobs[n].procedure == procedure && jobs[n].succeeded > 0) :: jobs[n]
  }

  /** The first number, from 1 on, above those of `names`. */
  ghost predicate FirstAbove(numbers: map<string, int>, names: set<string>, next: int) {
    && next >= 1
    && (forall n :: n in names && n in numbers ==> numbers[n] < next)
    && (next == 1 || exists n :: n in names && n in numbers && numbers[n] == next - 1)
  }

  ghost predicate IsNext(jobs: Jobs, procedure: string, base: string, next: int) {
    FirstAbove(Numbers(jobs, base), Unfinished(jobs, procedure), next)
  }

  function NewJob(procedure: string, attempt: nat, now: int): Job {
    Job(procedure, Attempts.Itoa(attempt), now, 0, 0, false)
  }

  /** What choosing a job for a procedure comes to. Succeeded jobs go; a job that has neither
      succeeded nor failed is reused, the youngest if there are several; otherwise a job with the
      next number is created. Failed jobs stay. */
  ghost predicate Chosen(procedure: string, base: string, jobs: Jobs, now: int, name: string, jobs': Jobs) {
    if Reusable(jobs, procedure) != {} then
      && jobs' == WithoutSucceeded(jobs, procedure)
      && name in Reusable(jobs, procedure)
      && forall n :: n in Reusable(jobs, procedure) ==> jobs[n].created <= jobs[name].created
    else
      && name !in WithoutSucceeded(jobs, procedure)
      && exists next :: IsNext(jobs, procedure, base, next)
                        && name == Attempts.AttemptName(base, next)
                        && jobs' == WithoutSucceeded(jobs, procedure)[name := NewJob(procedure, next, now)]
  }

  predicate OldestFirst(jobs: Jobs, s: seq<string>)
    requires forall i :: 0 <= i < |s| ==> s[i] in jobs
  {
    forall i, j :: 0 <= i < j < |s| ==> jobs[s[i]].created <= jobs[s[j]].created
  }

  predicate Distinct(names: seq<string>) {
    forall i, j :: 0 <= i < j < |names| ==> names[i] != names[j]
  }

  lemma InsertMembers(names: seq<string>, k: nat, n: string)
    requires k <= |names| && n !in names && Distinct(names)
    ensures forall m :: m in names[..k] + [n] + names[k..] <==> m in names || m == n
    ensures Distinct(names[..k] + [n] + names[k..])
  {
    assert names == names[..k] + names[k..];
    forall m ensures m in names[..k] + [n] + names[k..] <==> m in names || m == n {
      assert m in names <==> m in names[..k] || m in names[k..];
    }
  }

  lemma InsertOrdered(jobs: Jobs, names: seq<string>, k: nat, n: string)
    requires n in jobs && (forall i :: 0 <= i < |names| ==> names[i] in jobs) && OldestFirst(jobs, names)
             && k <= |names|
    requires forall i :: 0 <= i < k ==> jobs[names[i]].created <= jobs[n].created
    requires k < |names| ==> jobs[n].created <= jobs[names[k]].created
    ensures var inserted := names[..k] + [n] + names[k..];
            (forall i :: 0 <= i < |inserted| ==> inserted[i] in jobs) && OldestFirst(jobs, inserted)
  {
    forall i | k <= i < |names| ensures jobs[n].created <= jobs[names[i]].created {
      assert i == k || jobs[names[k]].created <= jobs[names[i]].created;
    }
  }

  // ---- running a command --------------------------------------------------------------------------------

  predicate Indexes(procedures: seq<Option<Procedure>>, indices: seq<nat>) {
    forall k :: 0 <= k < |indices| ==> indices[k] < |procedures| && procedures[indices[k]].Some?
  }

  /** The procedures at the given indices. */
  function At(procedures: seq<Option<Procedure>>, indices: seq<nat>): seq<Procedure>
    requires Indexes(procedures, indices)
  {
    seq(|indices|, k requires 0 <= k < |indices| => procedures[indices[k]].value)
  }

  /** `indices` are, in order, the indices of the procedures from `start` up to `stop` that are not nil. */
  ghost predicate NonNil(procedures: seq<Option<Procedure>>, start: nat, stop: nat, indices: seq<nat>) {
    && Indexes(procedures, indices)
    && (forall j, k :: 0 <= j < k < |indices| ==> indices[j] < indices[k])
    && (forall i: nat :: i in indices <==> start <= i < stop && i < |procedures| && procedures[i].Some?)
  }

  /** A run from `start` on: absent failures exactly the procedures from there on that are not nil, in
      order; otherwise it stops at the first failure. */
  ghost predicate RanFrom(run: RunMode, procedures: seq<Option<Procedure>>, start: nat, results: seq<Result>,
                          observed: seq<Observation>, ran: seq<nat>, stop: nat, exit: Option<int>, err: bool)
    requires |results| == |procedures|
  {
    && stop <= |procedures| && NonNil(procedures, start, stop, ran)
    && (forall i :: i in ran ==> Passes(run, procedures[i].value, results[i]))
    && (Succeeds(exit, err) <==> stop == |procedures|)
    && (stop < |procedures| ==>
          && start <= stop && procedures[stop].Some? && !Passes(run, procedures[stop].value, results[stop])
          && Result(err, exit) == Reported(run, procedures[stop].value, results[stop]))
    && observed == Completions(run, At(procedures, ran))
                   + if stop == |procedures| then [] else Breakdown(run, procedures[stop].value)
  }

  /** All procedures from `start` to `stop` that are not nil have passed. */
  ghost predicate PassedUpTo(run: RunMode, procedures: seq<Option<Procedure>>, start: nat, results: seq<Result>,
                             observed: seq<Observation>, ran: seq<nat>, stop: nat)
    requires |results| == |procedures|
  {
    && NonNil(procedures, start, stop, ran)
    && (forall i :: i in ran ==> Passes(run, procedures[i].value, results[i]))
    && observed == Completions(run, At(procedures, ran))
  }

  lemma {:induction false} PassedOver(run: RunMode, procedures: seq<Option<Procedure>>, start: nat,
                                      results: seq<Result>, observed: seq<Observation>, ran: seq<nat>, stop: nat)
    requires |results| == |procedures| && stop < |procedures|
             && PassedUpTo(run, procedures, start, results, observed, ran, stop)
    requires procedures[stop].None? || stop < start
    ensures PassedUpTo(run, procedures, start, results, observed, ran, stop + 1)
  {
  }

  lemma {:induction false} PassedOne(run: RunMode, procedures: seq<Option<Procedure>>, start: nat, results: seq<Result>,
                                     observed: seq<Observation>, ran: seq<nat>, stop: nat)
    requires |results| == |procedures| && start <= stop < |procedures|
    requires PassedUpTo(run, procedures, start, results, observed, ran, stop)
    requires procedures[stop].Some? && Passes(run, procedures[stop].value, results[stop])
    ensures PassedUpTo(run, procedures, start, results, observed + Completion(run, procedures[stop].value),
                       ran + [stop], stop + 1)
  {
    AppendRan(run, procedures, start, stop, ran);
  }

  /** Where a run stops, case by case. */
  lemma {:induction false} StopsWhere(run: RunMode, procedures: seq<Option<Procedure>>, start: nat,
                                      results: seq<Result>,
                                      observed: seq<Observation>, ran: seq<nat>, stop: nat, exit: Option<int>,
                                      err: bool)
    requires |results| == |procedures| && RanFrom(run, procedures, start, results, observed, ran, stop, exit, err)
    ensures !err && (exit.None? || exit.value == 0) <==> stop == |procedures|
    ensures forall i :: start <= i < |procedures| && procedures[i].Some? && run != Persistent ==>
              var p, r := procedures[i].value, results[i];
              && (!p.signal && !p.hasImage ==> stop <= i)
              && (p.signal && r.err ==> stop <= i)
              && (!p.signal && p.hasImage && r.exit.Some? && r.exit.value != 0 && !p.ignoreFailure ==> stop <= i)
              && (!p.signal && p.hasImage && r.err && (r.exit.None? || r.exit.value == 0) ==> stop <= i)
    ensures forall i :: start <= i < |procedures| && procedures[i].Some? && run == Persistent ==>
              var p, r := procedures[i].value, results[i];
              (r.err || (!p.signal && !p.hasImage) ==> stop <= i)
    ensures stop < |procedures| ==>
              && start <= stop && procedures[stop].Some?
              && var p, r := procedures[stop].value, results[stop];
                 if run == Persistent then r.err || (!p.signal && !p.hasImage)
                 else if p.signal then r.err
                 else if p.hasImage && r.exit.Some? && r.exit.value != 0 then !p.ignoreFailure
                 else r.err || !p.hasImage
  {
    forall i: nat | start <= i < stop && procedures[i].Some? ensures Passes(run, procedures[i].value, results[i]) {
      assert i in ran;
    }
  }

  /** The loop of `RunCommand` of the Kubernetes backend. */
  method RunFrom(run: RunMode, procedures: seq<Option<Procedure>>, start: nat, results: seq<Result>)
    returns (observed: seq<Observation>, ran: seq<nat>, stop: nat, exit: Option<int>, err: bool)
    requires |results| == |procedures|
    ensures RanFrom(run, procedures, start, results, observed, ran, stop, exit, err)
    ensures !err && (exit.None? || exit.value == 0) <==> stop == |procedures|
    ensures forall i :: start <= i < |procedures| && procedures[i].Some? && run != Persistent ==>
              var p, r := procedures[i].value, results[i];
              && (!p.signal && !p.hasImage ==> stop <= i)
              && (p.signal && r.err ==> stop <= i)
              && (!p.signal && p.hasImage && r.exit.Some? && r.exit.value != 0 && !p.ignoreFailure ==> stop <= i)
              && (!p.signal && p.hasImage && r.err && (r.exit.None? || r.exit.value == 0) ==> stop <= i)
    ensures forall i :: start <= i < |procedures| && procedures[i].Some? && run == Persistent ==>
              var p, r := procedures[i].value, results[i];
              (r.err || (!p.signal && !p.hasImage) ==> stop <= i)
    ensures stop < |procedures| ==>
              && start <= stop && procedures[stop].Some?
              && var p, r := procedures[stop].value, results[stop];
                 if run == Persistent then r.err || (!p.signal && !p.hasImage)
                 else if p.signal then r.err
                 else if p.hasImage && r.exit.Some? && r.exit.value != 0 then !p.ignoreFailure
                 else r.err || !p.hasImage
  {
    observed, ran, stop, exit, err := [], [], 0, None, false;
    while stop < |procedures|
      invariant stop <= |procedures| && exit.None? && !err
      invariant PassedUpTo(run, procedures, start, results, observed, ran, stop)
    {
      if procedures[stop].None? || stop < start {
        PassedOver(run, procedures, start, results, observed, ran, stop);
        stop := stop + 1;
        continue;
      }
      var p := procedures[stop].value;
      var more, goOn, result := RunOne(run, p, results[stop]);
      if !goOn {
        StopsWhere(run, procedures, start, results, observed + more, ran, stop, result.exit, result.err);
        return observed + more, ran, stop, result.exit, result.err;
      }
      PassedOne(run, procedures, start, results, observed, ran, stop);
      observed, ran := observed + more, ran + [stop];
      stop := stop + 1;
    }
    StopsWhere(run, procedures, start, results, observed, ran, stop, exit, err);
  }

  lemma AtMore(procedures: seq<Option<Procedure>>, ran: seq<nat>, stop: nat)
    requires Indexes(procedures, ran) && stop < |procedures| && procedures[stop].Some?
    ensures Indexes(procedures, ran + [stop])
    ensures At(procedures, ran + [stop]) == At(procedures, ran) + [procedures[stop].value]
  {
  }

  lemma AppendRan(run: RunMode, procedures: seq<Option<Procedure>>, start: nat, stop: nat, ran: seq<nat>)
    requires NonNil(procedures, start, stop, ran) && start <= stop < |procedures| && procedures[stop].Some?
    ensures NonNil(procedures, start, stop + 1, ran + [stop])
    ensures Completions(run, At(procedures, ran + [stop]))
            == Completions(run, At(procedures, ran)) + Completion(run, procedures[stop].value)
  {
    forall k | 0 <= k < |ran| ensures ran[k] < stop {
      assert ran[k] in ran;
    }
    AtMore(procedures, ran, stop);
    var more := At(procedures, ran + [stop]);
    assert more[..|more| - 1] == At(procedures, ran);
  }

  /** The labels of the procedures of a command; nil procedures have none. */
  function Labels(procedures: seq<Option<Procedure>>): seq<Option<string>> {
    seq(|procedures|, i requires 0 <= i < |procedures| =>
          if procedures[i].Some? then Some(procedures[i].value.name) else None)
  }

  /** Some superseded job cannot be deleted. */
  ghost predicate ResumeBlocked(labels: seq<Option<string>>, jobs: Jobs, stuck: set<string>) {
    exists index: nat, n :: IsResumeIndex(labels, jobs, jobs.Keys, index) && n in stuck && n in jobs
      && Superseded(labels, jobs[n], index)
  }

  /** A command in restart mode takes up at `index`: that is the largest index of an active job, and
      exactly the active known jobs below it are gone. */
  ghost predicate Resumed(labels: seq<Option<string>>, jobs: Jobs, index: nat, jobs': Jobs) {
    && IsResumeIndex(labels, jobs, jobs.Keys, index)
    && (forall n :: n in jobs' <==> n in jobs && !Superseded(labels, jobs[n], index))
    && (forall n :: n in jobs' ==> jobs'[n] == jobs[n])
  }

  /** There is only one index to resume at. */
  lemma BlockedAtLargest(labels: seq<Option<string>>, jobs: Jobs, stuck: set<string>, index: nat)
    requires IsResumeIndex(labels, jobs, jobs.Keys, index)
    ensures ResumeBlocked(labels, jobs, stuck) <==>
              exists n :: n in stuck && n in jobs && Superseded(labels, jobs[n], index)
  {
    forall other: nat | IsResumeIndex(labels, jobs, jobs.Keys, other) ensures other == index {
    }
  }

  /** Choosing a job, job by job: all other jobs stay but succeeded ones of the procedure. If some job of the
      procedure has neither succeeded nor failed, the chosen one is such a job, the youngest; otherwise it is a
      new one with a number above all that are left of the procedure. */
  ghost predicate JobChosen(procedure: string, base: string, jobs: Jobs, now: int, name: string, jobs': Jobs) {
    && name in jobs'
    && (forall n :: n != name ==>
        (n in jobs' <==> n in jobs && (jobs[n].procedure != procedure || jobs[n].succeeded <= 0)))
    && (forall n :: n != name && n in jobs' ==> jobs'[n] == jobs[n])
    && if exists n :: n in jobs && jobs[n].procedure == procedure && jobs[n].succeeded <= 0 && !jobs[n].failed then
         && name in jobs && jobs'[name] == jobs[name]
         && jobs[name].procedure == procedure && jobs[name].succeeded <= 0 && !jobs[name].failed
         && forall n :: n in jobs && jobs[n].procedure == procedure && jobs[n].succeeded <= 0 && !jobs[n].failed ==>
              jobs[n].created <= jobs[name].created
       else
         exists next: nat :: NewAt(procedure, base, jobs, now, name, jobs'[name], next)
  }

  ghost predicate NewAt(procedure: string, base: string, jobs: Jobs, now: int, name: string, j: Job, next: nat) {
    && next >= 1 && name == (if next == 1 then base else base + "-r" + Attempts.Itoa(next))
    && j.procedure == procedure && j.tag == Attempts.Itoa(next) && j.created == now
    && j.active == 0 && j.succeeded == 0 && !j.failed
    && forall n :: n in jobs && jobs[n].procedure == procedure && jobs[n].succeeded <= 0 ==>
         JobNumber(jobs[n].tag, n, base) < next
  }

  lemma {:induction false} ChosenExactly(procedure: string, base: string, jobs: Jobs, now: int, name: string,
                                         jobs': Jobs)
    requires Chosen(procedure, base, jobs, now, name, jobs')
    ensures JobChosen(procedure, base, jobs, now, name, jobs')
  {
    if Reusable(jobs, procedure) == {} {
      forall n | n in jobs && jobs[n].procedure == procedure && jobs[n].succeeded <= 0 ensures jobs[n].failed {
        assert n !in Reusable(jobs, procedure);
      }
      var next :| IsNext(jobs, procedure, base, next) && name == Attempts.AttemptName(base, next)
                  && jobs' == WithoutSucceeded(jobs, procedure)[name := NewJob(procedure, next, now)];
      Attempts.NumberFromName(next, base);
      NextIsAbove(jobs, procedure, base, next);
      assert NewAt(procedure, base, jobs, now, name, jobs'[name], next);
    } else {
      assert name in jobs && jobs[name].procedure == procedure && jobs[name].succeeded <= 0 && !jobs[name].failed;
      forall n | n in jobs && jobs[n].procedure == procedure && jobs[n].succeeded <= 0 && !jobs[n].failed
        ensures jobs[n].created <= jobs[name].created
      {
        assert n in Reusable(jobs, procedure);
      }
    }
  }

  lemma {:induction false} NextIsAbove(jobs: Jobs, procedure: string, base: string, next: int)
    requires IsNext(jobs, procedure, base, next)
    ensures forall n :: n in jobs && jobs[n].procedure == procedure && jobs[n].succeeded <= 0 ==>
              JobNumber(jobs[n].tag, n, base) < next
  {
    forall n | n in jobs && jobs[n].procedure == procedure && jobs[n].succeeded <= 0
      ensures JobNumber(jobs[n].tag, n, base) < next
    {
      assert n in Unfinished(jobs, procedure) && Numbers(jobs, base)[n] == JobNumber(jobs[n].tag, n, base);
    }
  }

  /** Resuming, job by job: an active job that is left belongs to no procedure, or to the one at `index` as the
      last that carries its label; what has gone were active jobs of earlier procedures; and unless the command
      starts at its first procedure there is an active job of the one at `index`. */
  ghost predicate ResumedAt(labels: seq<Option<string>>, jobs: Jobs, index: nat, jobs': Jobs) {
    && (forall n :: n in jobs' ==> n in jobs && jobs'[n] == jobs[n])
    && (forall n, i :: n in jobs' && jobs'[n].active > 0 && jobs'[n].succeeded == 0 && !jobs'[n].failed
                       && 0 <= i < |labels| && labels[i] == Some(jobs'[n].procedure) ==>
                       i <= index < |labels| && labels[index] == Some(jobs'[n].procedure))
    && (forall n :: n in jobs && n !in jobs' ==>
          && jobs[n].active > 0 && jobs[n].succeeded == 0 && !jobs[n].failed
          && Some(jobs[n].procedure) in labels
          && forall i :: 0 <= i < |labels| && labels[i] == Some(jobs[n].procedure) ==> i < index)
    && (index > 0 ==>
          && index < |labels|
          && exists n :: n in jobs' && jobs'[n].active > 0 && jobs'[n].succeeded == 0 && !jobs'[n].failed
                         && labels[index] == Some(jobs'[n].procedure))
  }

  lemma {:induction false} ResumedExactly(labels: seq<Option<string>>, jobs: Jobs, index: nat, jobs': Jobs)
    requires Resumed(labels, jobs, index, jobs')
    ensures ResumedAt(labels, jobs, index, jobs')
  {
    forall n | n in jobs' && ActiveIndex(labels, jobs'[n]).Some?
      ensures ActiveIndex(labels, jobs'[n]) == Some(index)
    {
      assert !Superseded(labels, jobs[n], index);
    }
    if index > 0 {
      var n :| n in jobs && ActiveIndex(labels, jobs[n]) == Some(index);
      assert n in jobs';
    }
  }

  class Cluster {
    var jobs: Jobs
    /** Names of the jobs that cannot be deleted. */
    const stuck: set<string>

    constructor (jobs: Jobs, stuck: set<string>)
      ensures this.jobs == jobs && this.stuck == stuck
    {
      this.jobs, this.stuck := jobs, stuck;
    }

    /** `deleteJobAndWait`. */
    method DeleteJob(name: string) returns (ok: bool)
      modifies `jobs
      ensures ok <==> name !in stuck
      ensures jobs == if ok then old(jobs) - {name} else old(jobs)
    {
      if name in stuck {
        return false;
      }
      jobs := jobs - {name};
      return true;
    }

    /** The first loop of `resumeRestartProcedureIndex`. */
    method LargestActive(labels: seq<Option<string>>) returns (index: nat)
      ensures IsResumeIndex(labels, jobs, jobs.Keys, index)
    {
      index := 0;
      var rest := jobs.Keys;
      while rest != {}
        invariant rest <= jobs.Keys && IsResumeIndex(labels, jobs, jobs.Keys - rest, index)
        decreases |rest|
      {
        var n :| n in rest;
        rest := rest - {n};
        assert n in jobs.Keys - rest;
        if !ActiveJob(jobs[n]) {
          continue;
        }
        var at := IndexOf(labels, jobs[n].procedure);
        if at.Some? && at.value > index {
          index := at.value;
        }
      }
      assert jobs.Keys - rest == jobs.Keys;
    }

    /** The second loop: deletes the active known jobs below `index`. */
    method DeleteSuperseded(labels: seq<Option<string>>, index: nat) returns (ok: bool)
      modifies `jobs
      ensures forall n :: n in jobs ==> n in old(jobs) && jobs[n] == old(jobs)[n]
      ensures ok <==> forall n :: n in stuck && n in old(jobs) ==> !Superseded(labels, old(jobs)[n], index)
      ensures ok ==> forall n :: n in old(jobs) ==> (n in jobs <==> !Superseded(labels, old(jobs)[n], index))
    {
      ghost var before := jobs;
      var rest := jobs.Keys;
      while rest != {}
        invariant rest <= before.Keys
        invariant forall n :: n in jobs <==> n in before && (n in rest || !Superseded(labels, before[n], index))
        invariant forall n :: n in jobs ==> jobs[n] == before[n]
        invariant forall n :: n in before && n !in rest && Superseded(labels, before[n], index) ==> n !in stuck
        decreases |rest|
      {
        var n :| n in rest;
        if Superseded(labels, jobs[n], index) {
          var deleted := DeleteJob(n);
          if !deleted {
            return false;
          }
        }
        rest := rest - {n};
      }
      return true;
    }

    /** `resumeRestartProcedureIndex`: `labels[i]` is the label of procedure `i`. It fails exactly if a
        superseded job cannot be deleted; otherwise every active known job that is left has the
        returned index. */
    method ResumeIndex(labels: seq<Option<string>>) returns (ok: bool, index: nat)
      modifies `jobs
      ensures ok <==> !ResumeBlocked(labels, old(jobs), stuck)
      ensures ok ==> Resumed(labels, old(jobs), index, jobs) && (index == 0 || index < |labels|)
      ensures ok ==> ResumedAt(labels, old(jobs), index, jobs)
      ensures ok ==> forall n :: n in jobs && ActiveIndex(labels, jobs[n]).Some? ==>
                ActiveIndex(labels, jobs[n]) == Some(index)
      ensures !ok ==> index == 0 && forall n :: n in jobs ==> n in old(jobs) && jobs[n] == old(jobs)[n]
    {
      index := LargestActive(labels);
      ghost var before := jobs;
      BlockedAtLargest(labels, before, stuck, index);
      if index == 0 {
        ResumedExactly(labels, before, index, jobs);
        return true, 0;
      }
      ok := DeleteSuperseded(labels, index);
      if ok {
        ResumedExactly(labels, before, index, jobs);
      } else {
        index := 0;
      }
    }

    /** `RunCommand`: in restart mode the run takes up at the latest procedure that still has an active
        job, in every other mode at the first one. `resumed` is false if the run fails before it looks
        at any procedure. The jobs of the procedures themselves are chosen by `CreateOrReuse`. */
    method RunCommand(run: RunMode, procedures: seq<Option<Procedure>>, results: seq<Result>)
      returns (resumed: bool, start: nat, observed: seq<Observation>, ran: seq<nat>, stop: nat, exit: Option<int>,
               err: bool)
      requires |results| == |procedures|
      modifies `jobs
      ensures resumed <==> run != Restart || !ResumeBlocked(Labels(procedures), old(jobs), stuck)
      ensures !resumed ==> observed == [] && ran == [] && err && exit == None
      ensures resumed ==> RanFrom(run, procedures, start, results, observed, ran, stop, exit, err)
      ensures resumed && run == Restart ==>
                && Resumed(Labels(procedures), old(jobs), start, jobs)
                && (start == 0 || (start < |procedures| && procedures[start].Some?))
      ensures run != Restart ==> start == 0 && jobs == old(jobs)
    {
      resumed, start := true, 0;
      if run == Restart {
        resumed, start := ResumeIndex(Labels(procedures));
        if !resumed {
          return resumed, start, [], [], 0, None, true;
        }
      }
      observed, ran, stop, exit, err := RunFrom(run, procedures, start, results);
    }

    /** The jobs of one procedure, oldest first. */
    method ListJobs(procedure: string) returns (names: seq<string>)
      ensures forall n :: n in names <==> n in jobs && jobs[n].procedure == procedure
      ensures OldestFirst(jobs, names)
      ensures Distinct(names)
    {
      names := [];
      var rest := jobs.Keys;
      while rest != {}
        invariant rest <= jobs.Keys
        invariant forall n :: n in names <==> n in jobs && n !in rest && jobs[n].procedure == procedure
        invariant OldestFirst(jobs, names)
        invariant Distinct(names)
        decreases |rest|
      {
        var n :| n in rest;
        rest := rest - {n};
        if jobs[n].procedure == procedure {
          names := Insert(names, n);
        }
      }
    }

    method Insert(names: seq<string>, n: string) returns (inserted: seq<string>)
      requires n in jobs && n !in names && (forall i :: 0 <= i < |names| ==> names[i] in jobs)
               && OldestFirst(jobs, names)
      requires Distinct(names)
      ensures forall m :: m in inserted <==> m in names || m == n
      ensures (forall i :: 0 <= i < |inserted| ==> inserted[i] in jobs) && OldestFirst(jobs, inserted)
      ensures Distinct(inserted)
    {
      var k := 0;
      while k < |names| && jobs[names[k]].created <= jobs[n].created
        invariant k <= |names| && forall i :: 0 <= i < k ==> jobs[names[i]].created <= jobs[n].created
      {
        k := k + 1;
      }
      InsertMembers(names, k, n);
      InsertOrdered(jobs, names, k, n);
      inserted := names[..k] + [n] + names[k..];
    }

    /** One job of the scan, the youngest so far. */
    method ScanJob(ghost before: Jobs, base: string, ghost seen: set<string>, next: int, active: Option<string>,
                   n: string)
      returns (ok: bool, next': int, active': Option<string>)
      requires Scanned(before, base, seen, next, active, jobs) && n in before && n !in seen
      requires forall m :: m in seen ==> before[m].created <= before[n].created
      modifies `jobs
      ensures ok <==> !(n in stuck && before[n].succeeded > 0)
      ensures ok ==> Scanned(before, base, seen + {n}, next', active', jobs)
      ensures !ok ==> jobs == old(jobs)
    {
      ok, next', active' := true, next, active;
      if jobs[n].succeeded > 0 {
        ScanSucceeded(before, base, seen, next, active, jobs, n);
        ok := DeleteJob(n);
        return;
      }
      ScanUnfinished(before, base, seen, next, active, jobs, n);
      var attempt := JobNumber(jobs[n].tag, n, base);
      if attempt >= next {
        next' := attempt + 1;
      }
      if jobs[n].failed {
        return;
      }
      active' := Some(n);
    }

    /** The loop of `createOrReuseProcedureJob`: deletes the succeeded jobs and finds the next
        attempt number and the youngest job that can be reused. */
    method ScanJobs(procedure: string, base: string) returns (ok: bool, next: int, active: Option<string>)
      modifies `jobs
      ensures ok ==> Scanned(old(jobs), base, Of(old(jobs), procedure), next, active, jobs)
      ensures !ok <==> DeletionFails(old(jobs), procedure, stuck)
      ensures !ok ==> OnlySucceededGone(old(jobs), procedure, jobs)
    {
      ghost var before := jobs;
      var names := ListJobs(procedure);
      ok, next, active := true, 1, None;
      for i := 0 to |names|
        invariant Scanned(before, base, Elements(names[..i]), next, active, jobs)
        invariant AllDeletable(before, names[..i], stuck)
      {
        OlderBefore(before, names, i);
        ok, next, active := ScanJob(before, base, Elements(names[..i]), next, active, names[i]);
        DeletableNext(before, names, i, stuck);
        if !ok {
          StuckFails(before, procedure, names, i, stuck, jobs);
          return;
        }
      }
      assert names[..|names|] == names;
      AllListed(before, procedure, names, stuck);
    }

    /** `createOrReuseProcedureJob`. It fails when a succeeded job cannot be deleted or the name of
        the new job is taken. */
    method CreateOrReuse(procedure: string, base: string, now: int) returns (name: Option<string>)
      modifies `jobs
      ensures name.Some? ==> Chosen(procedure, base, old(jobs), now, name.value, jobs)
      ensures name.Some? ==> JobChosen(procedure, base, old(jobs), now, name.value, jobs)
      ensures name.None? ==> OnlySucceededGone(old(jobs), procedure, jobs)
      ensures name.None? <==>
                || DeletionFails(old(jobs), procedure, stuck)
                || (Reusable(old(jobs), procedure) == {}
                    && exists next :: IsNext(old(jobs), procedure, base, next)
                                      && Attempts.AttemptName(base, next) in WithoutSucceeded(old(jobs), procedure))
    {
      ghost var before := jobs;
      var ok, next, active := ScanJobs(procedure, base);
      if !ok {
        return None;
      }
      AllScanned(before, procedure, base, next, active, jobs);
      if active.Some? {
        ChosenExactly(procedure, base, before, now, active.value, jobs);
        return active;
      }
      var created := Attempts.AttemptName(base, next);
      if created in jobs {
        return None;
      }
      NextIsOne(before, procedure, base, next);
      jobs := jobs[created := NewJob(procedure, next, now)];
      ChosenExactly(procedure, base, before, now, created, jobs);
      return Some(created);
    }
  }

  /** A succeeded job of the procedure cannot be deleted. */
  ghost predicate DeletionFails(jobs: Jobs, procedure: string, stuck: set<string>) {
    exists n :: n in stuck && n in jobs && jobs[n].procedure == procedure && jobs[n].succeeded > 0
  }

  /** Nothing but succeeded jobs of the procedure has gone, and no job is different. */
  ghost predicate OnlySucceededGone(before: Jobs, procedure: string, jobs: Jobs) {
    && (forall n :: n in jobs ==> n in before && jobs[n] == before[n])
    && (forall n :: n in before && n !in jobs ==> before[n].procedure == procedure && before[n].succeeded > 0)
  }

  ghost predicate AllDeletable(before: Jobs, names: seq<string>, stuck: set<string>) {
    forall n :: n in names && n in before ==> !(n in stuck && before[n].succeeded > 0)
  }

  lemma DeletableNext(before: Jobs, names: seq<string>, i: nat, stuck: set<string>)
    requires i < |names| && names[i] in before && AllDeletable(before, names[..i], stuck)
    ensures !(names[i] in stuck && before[names[i]].succeeded > 0) ==> AllDeletable(before, names[..i + 1], stuck)
  {
    assert names[..i + 1] == names[..i] + [names[i]];
  }

  lemma StuckFails(before: Jobs, procedure: string, names: seq<string>, i: nat, stuck: set<string>, jobs: Jobs)
    requires i < |names| && forall n :: n in names <==> n in before && before[n].procedure == procedure
    requires names[i] in stuck && before[names[i]].succeeded > 0
    requires jobs == map n | n in before && !(n in Elements(names[..i]) && before[n].succeeded > 0) :: before[n]
    ensures DeletionFails(before, procedure, stuck) && OnlySucceededGone(before, procedure, jobs)
  {
    assert names[i] in names;
  }

  lemma AllListed(before: Jobs, procedure: string, names: seq<string>, stuck: set<string>)
    requires forall n :: n in names <==> n in before && before[n].procedure == procedure
    ensures Elements(names) == Of(before, procedure)
    ensures AllDeletable(before, names, stuck) ==> !DeletionFails(before, procedure, stuck)
  {
  }

  /** There is only one next number. */
  lemma NextIsOne(jobs: Jobs, procedure: string, base: string, next: int)
    requires IsNext(jobs, procedure, base, next)
    ensures forall other :: IsNext(jobs, procedure, base, other) ==> other == next
  {
  }

  predicate CanReuse(j: Job) {
    j.succeeded <= 0 && !j.failed
  }

  function UnfinishedOf(jobs: Jobs, names: set<string>): set<string> {
    set n | n in names && n in jobs && jobs[n].succeeded <= 0
  }

  /** The youngest of `names` that can be reused. */
  ghost predicate Youngest(jobs: Jobs, names: set<string>, active: Option<string>) {
    match active
    case None => forall n :: n in names && n in jobs ==> !CanReuse(jobs[n])
    case Some(a) => a in names && a in jobs && CanReuse(jobs[a])
                    && forall n :: n in names && n in jobs && CanReuse(jobs[n]) ==> jobs[n].created <= jobs[a].created
  }

  lemma NextGrows(numbers: map<string, int>, names: set<string>, n: string, next: int)
    requires n in numbers && FirstAbove(numbers, names, next)
    ensures FirstAbove(numbers, names + {n}, if numbers[n] >= next then numbers[n] + 1 else next)
  {
    if next != 1 {
      var m :| m in names && m in numbers && numbers[m] == next - 1;
      assert m in names + {n};
    }
    assert n in names + {n};
  }

  function Elements(names: seq<string>): set<string> {
    set n | n in names
  }

  lemma OlderBefore(jobs: Jobs, names: seq<string>, i: nat)
    requires (forall k :: 0 <= k < |names| ==> names[k] in jobs) && OldestFirst(jobs, names) && Distinct(names)
             && i < |names|
    ensures Elements(names[..i + 1]) == Elements(names[..i]) + {names[i]} && names[i] !in Elements(names[..i])
    ensures forall m :: m in Elements(names[..i]) ==> m in jobs && jobs[m].created <= jobs[names[i]].created
  {
    assert names[..i + 1] == names[..i] + [names[i]];
    forall m | m in Elements(names[..i])
      ensures m in jobs && jobs[m].created <= jobs[names[i]].created && m != names[i]
    {
      var j :| 0 <= j < i && names[..i][j] == m;
      assert names[j] == m;
    }
  }

  function Of(jobs: Jobs, procedure: string): set<string> {
    set n | n in jobs && jobs[n].procedure == procedure
  }

  /** What a scan over the jobs `seen` has found and left behind. */
  ghost predicate Scanned(before: Jobs, base: string, seen: set<string>, next: int, active: Option<string>,
                          jobs: Jobs) {
    && seen <= before.Keys
    && jobs == (map n | n in before && !(n in seen && before[n].succeeded > 0) :: before[n])
    && FirstAbove(Numbers(before, base), UnfinishedOf(before, seen), next)
    && Youngest(before, seen, active)
  }

  lemma ScanSucceeded(before: Jobs, base: string, seen: set<string>, next: int, active: Option<string>, jobs: Jobs,
                      n: string)
    requires Scanned(before, base, seen, next, active, jobs) && n in before && before[n].succeeded > 0
    ensures Scanned(before, base, seen + {n}, next, active, jobs - {n})
  {
    assert UnfinishedOf(before, seen + {n}) == UnfinishedOf(before, seen);
  }

  lemma ScanUnfinished(before: Jobs, base: string, seen: set<string>, next: int, active: Option<string>, jobs: Jobs,
                       n: string)
    requires Scanned(before, base, seen, next, active, jobs) && n in before && before[n].succeeded <= 0
    requires forall m :: m in seen ==> before[m].created <= before[n].created
    ensures var number := JobNumber(before[n].tag, n, base);
            Scanned(before, base, seen + {n}, if number >= next then number + 1 else next,
                    if before[n].failed then active else Some(n), jobs)
  {
    assert UnfinishedOf(before, seen + {n}) == UnfinishedOf(before, seen) + {n};
    NextGrows(Numbers(before, base), UnfinishedOf(before, seen), n, next);
  }

  lemma AllScanned(jobs: Jobs, procedure: string, base: string, next: int, active: Option<string>, jobs': Jobs)
    requires Scanned(jobs, base, Of(jobs, procedure), next, active, jobs')
    ensures jobs' == WithoutSucceeded(jobs, procedure) && IsNext(jobs, procedure, base, next)
    ensures active.None? <==> Reusable(jobs, procedure) == {}
    ensures active.Some? ==> active.value in Reusable(jobs, procedure)
                             && forall n :: n in Reusable(jobs, procedure) ==>
                                 jobs[n].created <= jobs[active.value].created
  {
    assert UnfinishedOf(jobs, Of(jobs, procedure)) == Unfinished(jobs, procedure);
    forall n | n in Reusable(jobs, procedure) ensures n in Of(jobs, procedure) && CanReuse(jobs[n]) {
    }
    if active.Some? {
      assert active.value in Reusable(jobs, procedure);
    }
  }

  // ---- attempts over whole runs -----------------------------------------------------------------------

  /** What happens to the jobs of one procedure: the backend chooses one, the cluster changes the
      state of a job that has not ended, and anybody may delete one. */
  datatype Move =
    | Choose(now: int, name: string)
    | Report(name: string, active: int, succeeded: int, failed: bool)
    | Delete(name: string)

  ghost predicate Moves(procedure: string, base: string, jobs: Jobs, move: Move, jobs': Jobs) {
    match move
    case Choose(now, name) => Chosen(procedure, base, jobs, now, name, jobs')
    case Report(name, active, succeeded, failed) =>
      name in jobs && CanReuse(jobs[name])
        && jobs' == jobs[name := jobs[name].(active := active, succeeded := succeeded, failed := failed)]
    case Delete(name) => jobs' == jobs - {name}
  }

  ghost predicate NumberedJob(procedure: string, base: string, name: string, j: Job) {
    j.procedure == procedure && JobNumber(j.tag, name, base) >= 1
    && name == Attempts.AttemptName(base, JobNumber(j.tag, name, base))
  }

  ghost predicate AllNumbered(procedure: string, base: string, jobs: Jobs) {
    forall n :: n in jobs ==> NumberedJob(procedure, base, n, jobs[n])
  }

  ghost predicate JobInvariant(procedure: string, base: string, jobs: Jobs) {
    AllNumbered(procedure, base, jobs)
    && forall n, m :: n in Reusable(jobs, procedure) && m in Reusable(jobs, procedure) ==> n == m
  }

  lemma NewJobNumbered(procedure: string, base: string, attempt: nat, now: int)
    requires attempt >= 1
    ensures NumberedJob(procedure, base, Attempts.AttemptName(base, attempt), NewJob(procedure, attempt, now))
  {
    ScanPrinted(attempt);
  }

  lemma FewerReusable(procedure: string, base: string, jobs: Jobs, jobs': Jobs)
    requires JobInvariant(procedure, base, jobs) && AllNumbered(procedure, base, jobs')
    requires Reusable(jobs', procedure) <= Reusable(jobs, procedure)
    ensures JobInvariant(procedure, base, jobs')
  {
  }

  lemma {:induction false} ChooseKeepsInvariant(procedure: string, base: string, jobs: Jobs, now: int, name: string,
                                                jobs': Jobs)
    requires JobInvariant(procedure, base, jobs) && Chosen(procedure, base, jobs, now, name, jobs')
    ensures JobInvariant(procedure, base, jobs')
  {
    if Reusable(jobs, procedure) == {} {
      var next :| IsNext(jobs, procedure, base, next) && name == Attempts.AttemptName(base, next)
                  && jobs' == WithoutSucceeded(jobs, procedure)[name := NewJob(procedure, next, now)];
      NewJobNumbered(procedure, base, next, now);
      assert Reusable(jobs', procedure) <= Reusable(jobs, procedure) + {name};
    } else {
      FewerReusable(procedure, base, jobs, jobs');
    }
  }

  lemma {:induction false} ReportKeepsInvariant(procedure: string, base: string, jobs: Jobs, name: string, j: Job)
    requires JobInvariant(procedure, base, jobs) && name in jobs && CanReuse(jobs[name])
    requires j.procedure == jobs[name].procedure && j.tag == jobs[name].tag
    ensures JobInvariant(procedure, base, jobs[name := j])
  {
    assert NumberedJob(procedure, base, name, jobs[name]);
    SameNumber(procedure, base, name, jobs[name], j);
    assert name in Reusable(jobs, procedure);
    FewerReusable(procedure, base, jobs, jobs[name := j]);
  }

  lemma SameNumber(procedure: string, base: string, name: string, j: Job, j': Job)
    requires NumberedJob(procedure, base, name, j) && j'.procedure == j.procedure && j'.tag == j.tag
    ensures NumberedJob(procedure, base, name, j')
  {
  }

  lemma {:induction false} DeleteKeepsInvariant(procedure: string, base: string, jobs: Jobs, name: string)
    requires JobInvariant(procedure, base, jobs)
    ensures JobInvariant(procedure, base, jobs - {name})
  {
    FewerReusable(procedure, base, jobs, jobs - {name});
  }

  lemma {:induction false} MoveKeepsInvariant(procedure: string, base: string, jobs: Jobs, move: Move, jobs': Jobs)
    requires JobInvariant(procedure, base, jobs) && Moves(procedure, base, jobs, move, jobs')
    ensures JobInvariant(procedure, base, jobs')
  {
    match move
    case Choose(now, name) => ChooseKeepsInvariant(procedure, base, jobs, now, name, jobs');
    case Report(name, active, succeeded, failed) =>
      ReportKeepsInvariant(procedure, base, jobs, name,
                           jobs[name].(active := active, succeeded := succeeded, failed := failed));
    case Delete(name) => DeleteKeepsInvariant(procedure, base, jobs, name);
  }

  ghost predicate History(procedure: string, base: string, states: seq<Jobs>, moves: seq<Move>) {
    && |states| == |moves| + 1 && states[0] == map[]
    && forall i :: 0 <= i < |moves| ==> Moves(procedure, base, states[i], moves[i], states[i + 1])
  }

  lemma {:induction false} HistoryMoves(procedure: string, base: string, states: seq<Jobs>, moves: seq<Move>, i: nat)
    requires History(procedure, base, states, moves) && i < |moves|
    ensures Moves(procedure, base, states[i], moves[i], states[i + 1])
  {
  }

  lemma {:induction false} NoJobs(procedure: string, base: string)
    ensures JobInvariant(procedure, base, map[])
  {
    assert Reusable(map[], procedure) == {};
  }

  lemma {:induction false} HistoryStep(procedure: string, base: string, states: seq<Jobs>, moves: seq<Move>, i: nat,
                                       jobs: Jobs, jobs': Jobs)
    requires History(procedure, base, states, moves) && i < |moves| && jobs == states[i] && jobs' == states[i + 1]
    requires JobInvariant(procedure, base, jobs)
    ensures JobInvariant(procedure, base, jobs')
  {
    HistoryMoves(procedure, base, states, moves, i);
    MoveKeepsInvariant(procedure, base, jobs, moves[i], jobs');
  }

  lemma {:induction false} HistoryKeepsInvariant(procedure: string, base: string, states: seq<Jobs>, moves: seq<Move>,
                                                 k: nat, jobs: Jobs)
    requires History(procedure, base, states, moves) && k < |states| && jobs == states[k]
    ensures JobInvariant(procedure, base, jobs)
    decreases k
  {
    if k == 0 {
      NoJobs(procedure, base);
    } else {
      HistoryKeepsInvariant(procedure, base, states, moves, k - 1, states[k - 1]);
      HistoryStep(procedure, base, states, moves, k - 1, states[k - 1], jobs);
    }
  }

  /** Starting from no jobs there is never more than one job to reuse, and the name of a new attempt
      is never that of a job that is still there, so creating it does not clash with a retained failure. */
  lemma JobsOverRuns(procedure: string, base: string, states: seq<Jobs>, moves: seq<Move>, k: nat, next: int)
    requires History(procedure, base, states, moves) && k < |states|
    ensures |Reusable(states[k], procedure)| <= 1
    ensures IsNext(states[k], procedure, base, next) ==>
              Attempts.AttemptName(base, next) !in WithoutSucceeded(states[k], procedure)
  {
    var jobs := states[k];
    HistoryKeepsInvariant(procedure, base, states, moves, k, jobs);
    if n :| n in Reusable(jobs, procedure) {
      assert Reusable(jobs, procedure) == {n};
    }
    if IsNext(jobs, procedure, base, next) && Attempts.AttemptName(base, next) in WithoutSucceeded(jobs, procedure) {
      var name := Attempts.AttemptName(base, next);
      assert name in Unfinished(jobs, procedure);
      Attempts.NamesDiffer(base, next, JobNumber(jobs[name].tag, name, base));
      assert false;
    }
  }
}
