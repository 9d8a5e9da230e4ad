/** Stopping an idle job: a job goes only when every traffic threshold of its procedure has been
    missed over the whole of its window. */
module KeepAlive {
  import opened Domain
  import opened Traffic

  /** A port's traffic rule: none, one that does not parse, or so many bytes in a window. Windows
      that parse are positive. */
  datatype Rule = Unset | Bad | Rule(bytes: uint64, window: int)

  datatype ExpectedPort = ExpectedPort(name: string, rule: Rule)

  datatype Threshold = Threshold(port: string, bytes: uint64, window: int)

  /** No enforcement, a stopper that always fails, or one that watches the thresholds. */
  datatype Stopper = NoStopper | Failing | Watching(thresholds: seq<Threshold>)

  // ---- which procedures are watched --------------------------------------------------------------

  /** No problem before port `n`: no rule that does not parse, and none on a port that does not exist. */
  ghost predicate Clean(expected: seq<ExpectedPort>, ports: set<string>, n: nat) {
    forall i :: 0 <= i < n && i < |expected| ==>
      !expected[i].rule.Bad? && (expected[i].rule.Rule? ==> expected[i].name in ports)
  }

  /** The thresholds are those of the declared rules, in the order of the ports: number `k` is that of
      port `at[k]`. */
  ghost predicate OfRules(expected: seq<ExpectedPort>, at: seq<nat>, thresholds: seq<Threshold>) {
    && |at| == |thresholds|
    && (forall i: nat :: i < |expected| && expected[i].rule.Rule? ==> i in at)
    && (forall j, k :: 0 <= j < k < |at| ==> at[j] < at[k])
    && (forall k :: 0 <= k < |at| ==>
          at[k] < |expected| && expected[at[k]].rule.Rule?
          && thresholds[k] == Threshold(expected[at[k]].name, expected[at[k]].rule.bytes, expected[at[k]].rule.window))
  }

  lemma RulesGrow(expected: seq<ExpectedPort>, i: nat, at: seq<nat>, thresholds: seq<Threshold>)
    requires i < |expected| && OfRules(expected[..i], at, thresholds)
    ensures !expected[i].rule.Rule? ==> OfRules(expected[..i + 1], at, thresholds)
    ensures expected[i].rule.Rule? ==>
              OfRules(expected[..i + 1], at + [i],
                      thresholds + [Threshold(expected[i].name, expected[i].rule.bytes, expected[i].rule.window)])
  {
    assert forall k :: 0 <= k < i ==> expected[..i + 1][k] == expected[..i][k];
    assert expected[..i + 1][i] == expected[i];
    forall k: nat | k in at + [i] <==> k in at || k == i {
    }
  }

  /** The building half of `keepAliveTrafficIdleStopper`: a watching stopper has a threshold for every
      declared rule, with its port, bytes and window, and no other; `at` says which rule each is of. */
  method MakeStopper(coldstarter: bool, expected: seq<ExpectedPort>, ports: set<string>, validRoot: bool)
    returns (stopper: Stopper, ghost at: seq<nat>)
    ensures stopper.Watching? <==>
              && !coldstarter && validRoot && (exists i :: 0 <= i < |expected| && expected[i].rule.Rule?)
              && forall i :: 0 <= i < |expected| ==>
                   !expected[i].rule.Bad? && (expected[i].rule.Rule? ==> expected[i].name in ports)
    ensures stopper.Watching? ==>
              && |at| == |stopper.thresholds|
              && (forall i: nat :: i < |expected| && expected[i].rule.Rule? ==> i in at)
              && (forall j, k :: 0 <= j < k < |at| ==> at[j] < at[k])
              && (forall k :: 0 <= k < |at| ==>
                    at[k] < |expected| && expected[at[k]].rule.Rule?
                    && stopper.thresholds[k].port == expected[at[k]].name
                    && stopper.thresholds[k].bytes == expected[at[k]].rule.bytes
                    && stopper.thresholds[k].window == expected[at[k]].rule.window)
    ensures stopper.Failing? <==>
              && !coldstarter
              && ((exists i :: && 0 <= i < |expected| && expected[i].rule.Bad?
                               && forall j :: 0 <= j < i ==>
                                    !expected[j].rule.Bad? && (expected[j].rule.Rule? ==> expected[j].name in ports))
                  || (&& !validRoot && (exists i :: 0 <= i < |expected| && expected[i].rule.Rule?)
                      && forall j :: 0 <= j < |expected| ==>
                           !expected[j].rule.Bad? && (expected[j].rule.Rule? ==> expected[j].name in ports)))
  {
    at := [];
    if coldstarter {
      return NoStopper, at;
    }
    var thresholds := [];
    for i := 0 to |expected|
      invariant Clean(expected, ports, i) && OfRules(expected[..i], at, thresholds)
    {
      RulesGrow(expected, i, at, thresholds);
      match expected[i].rule {
        case Unset =>
        case Bad =>
          return Failing, at;
        case Rule(bytes, window) =>
          if expected[i].name !in ports {
            assert expected[i].rule.Rule?;
            return NoStopper, at;
          }
          thresholds, at := thresholds + [Threshold(expected[i].name, bytes, window)], at + [i];
      }
    }
    assert expected[..|expected|] == expected;
    if |thresholds| == 0 {
      return NoStopper, at;
    }
    assert at[0] < |expected| && expected[at[0]].rule.Rule?;
    if !validRoot {
      return Failing, at;
    }
    return Watching(thresholds), at;
  }

  // ---- the decision ---------------------------------------------------------------------------------

  /** `keepAliveWindowElapsed`; a job without a creation time is never old enough. */
  predicate WindowElapsed(now: int, created: Option<int>, window: int) {
    created.Some? && now - created.value >= window
  }

  predicate Missed(t: Threshold, pods: seq<PodTraffic>, now: int) {
    |pods| > 0 && (forall i :: 0 <= i < |pods| ==> WindowReady(pods[i], t.window, now))
    && TrueTotal(pods, t.window, now) % TWO_TO_THE_64 < t.bytes
  }

  predicate Idle(thresholds: seq<Threshold>, created: Option<int>, pods: seq<PodTraffic>, now: int) {
    forall i :: 0 <= i < |thresholds| ==>
      WindowElapsed(now, created, thresholds[i].window) && Missed(thresholds[i], pods, now)
  }

  /** The stopper itself. `pods` is missing when the statistics or the pods are; a job that is idle
      is deleted, which may fail. */
  method StopIfIdle(thresholds: seq<Threshold>, created: Option<int>, pods: Option<seq<PodTraffic>>, now: int,
                    deletes: bool)
    returns (stopped: bool, failed: bool)
    ensures stopped <==> pods.Some? && Idle(thresholds, created, pods.value, now) && deletes
    ensures failed <==> pods.Some? && Idle(thresholds, created, pods.value, now) && !deletes
  {
    if pods.None? {
      return false, false;
    }
    for i := 0 to |thresholds|
      invariant forall j :: 0 <= j < i ==> WindowElapsed(now, created, thresholds[j].window)
    {
      if !WindowElapsed(now, created, thresholds[i].window) {
        return false, false;
      }
    }
    for i := 0 to |thresholds|
      invariant forall j :: 0 <= j < i ==> Missed(thresholds[j], pods.value, now)
    {
      var ready := AllReady(pods.value, thresholds[i].window, now);
      if !ready {
        return false, false;
      }
      var total := TotalDelta(pods.value, thresholds[i].window, now);
      if total >= thresholds[i].bytes {
        return false, false;
      }
    }
    return deletes, !deletes;
  }

  // ---- what a stop means in terms of everything ever recorded -------------------------------------------

  /** The pods as they stand after their histories, all of which end now. */
  function Pods(histories: seq<seq<Sample>>): seq<PodTraffic> {
    seq(|histories|, i requires 0 <= i < |histories| => Replay(histories[i]))
  }

  ghost predicate EndNow(histories: seq<seq<Sample>>, now: int) {
    forall i :: 0 <= i < |histories| ==>
             InOrder(histories[i]) && histories[i] != [] && histories[i][|histories[i]| - 1].at == now
  }

  /** The increase over a window, read off all samples ever recorded. */
  function Seen(histories: seq<seq<Sample>>, window: int, now: int): nat {
    if histories == [] then 0
    else
      var h := histories[|histories| - 1];
      Seen(histories[..|histories| - 1], window, now)
      + if h == [] then 0 else DeltaFrom(h, h[|h| - 1].rx, now - window)
  }

  lemma {:induction false} EndNowBefore(histories: seq<seq<Sample>>, now: int)
    requires EndNow(histories, now) && histories != []
    ensures EndNow(histories[..|histories| - 1], now)
            && Pods(histories)[..|histories| - 1] == Pods(histories[..|histories| - 1])
    ensures var h := histories[|histories| - 1]; InOrder(h) && h != [] && h[|h| - 1].at == now
  {
  }

  lemma {:induction false} TotalIsSeen(histories: seq<seq<Sample>>, window: int, now: int)
    requires EndNow(histories, now) && 0 < window <= DAY
    ensures TrueTotal(Pods(histories), window, now) == Seen(histories, window, now)
    decreases |histories|
  {
    if histories != [] {
      var init, h := histories[..|histories| - 1], histories[|histories| - 1];
      EndNowBefore(histories, now);
      TotalIsSeen(init, window, now);
      PrunedDelta(h, window);
    }
  }

  /** A pod has been watched for the window: two samples of the last day, one of them before it. */
  ghost predicate Watched(h: seq<Sample>, window: int, now: int) {
    First(h, now - DAY) + 2 <= |h| && Spans(h, window, now)
  }

  /** A threshold is missed exactly when every counted pod has been watched for the window and the
      increase in the whole history, as a 64-bit sum, is below the threshold; the window can then
      not be longer than a day. */
  lemma {:induction false} MissedExactly(t: Threshold, histories: seq<seq<Sample>>, now: int)
    requires EndNow(histories, now) && t.window > 0
    ensures Missed(t, Pods(histories), now) <==>
              && histories != [] && t.window <= DAY
              && (forall i :: 0 <= i < |histories| ==> Watched(histories[i], t.window, now))
              && Seen(histories, t.window, now) % TWO_TO_THE_64 < t.bytes
  {
    forall i | 0 <= i < |histories|
      ensures WindowReady(Pods(histories)[i], t.window, now) <==> Watched(histories[i], t.window, now)
      ensures Watched(histories[i], t.window, now) ==> t.window <= DAY
    {
      ReadyWindows(histories[i], t.window);
    }
    if t.window <= DAY {
      TotalIsSeen(histories, t.window, now);
    } else if histories != [] {
      assert !Watched(histories[0], t.window, now);
      assert !WindowReady(Pods(histories)[0], t.window, now);
    }
  }

  // ---- what was received against what is seen ------------------------------------------------------------

  /** What all samples of the window recorded as received. */
  function Received(histories: seq<seq<Sample>>, window: int, now: int): nat {
    if histories == [] then 0
    else Received(histories[..|histories| - 1], window, now) + ReceivedSince(histories[|histories| - 1], now - window)
  }

  function Hidden(histories: seq<seq<Sample>>, window: int, now: int): nat {
    if histories == [] then 0
    else Hidden(histories[..|histories| - 1], window, now) + Unseen(histories[|histories| - 1], now - window)
  }

  lemma {:induction false} ReceivedIsSeenOrHidden(histories: seq<seq<Sample>>, window: int, now: int)
    requires EndNow(histories, now) && window > 0
    ensures Received(histories, window, now) == Seen(histories, window, now) + Hidden(histories, window, now)
    decreases |histories|
  {
    if histories != [] {
      EndNowBefore(histories, now);
      ReceivedIsSeenOrHidden(histories[..|histories| - 1], window, now);
      SeenAndUnseen(histories[|histories| - 1], now - window);
    }
  }

  /** A missed threshold has received less than it demands if and only if the sum of the increases fits
      64 bits and what is hidden from them is less than what is missing. */
  lemma {:induction false} MissedMeansLess(t: Threshold, histories: seq<seq<Sample>>, now: int)
    requires EndNow(histories, now) && t.window > 0 && Missed(t, Pods(histories), now)
    ensures Received(histories, t.window, now) < t.bytes
       <==> Seen(histories, t.window, now) < TWO_TO_THE_64
            && Hidden(histories, t.window, now) < t.bytes - Seen(histories, t.window, now)
  {
    MissedExactly(t, histories, now);
    SmallSum(Seen(histories, t.window, now));
    ReceivedIsSeenOrHidden(histories, t.window, now);
  }

  /** A job that is stopped has, for every threshold, existed for the window and been watched for it on
      every counted pod. It received less than the threshold if and only if neither the 64-bit sum nor
      what the increases hide makes up the difference. */
  lemma {:induction false} StopIsSound(thresholds: seq<Threshold>, created: Option<int>, histories: seq<seq<Sample>>,
                                       now: int, i: nat)
    requires EndNow(histories, now) && i < |thresholds| && thresholds[i].window > 0
    requires Idle(thresholds, created, Pods(histories), now)
    ensures created.Some? && created.value <= now - thresholds[i].window && thresholds[i].window <= DAY
    ensures forall k :: 0 <= k < |histories| ==> Watched(histories[k], thresholds[i].window, now)
    ensures Received(histories, thresholds[i].window, now) < thresholds[i].bytes
       <==> Seen(histories, thresholds[i].window, now) < TWO_TO_THE_64
            && Hidden(histories, thresholds[i].window, now)
               < thresholds[i].bytes - Seen(histories, thresholds[i].window, now)
  {
    MissedExactly(thresholds[i], histories, now);
    MissedMeansLess(thresholds[i], histories, now);
  }

  /** From the declaration to the decision: a stopper that was built finds a job idle exactly if every
      declared rule finds it so, that is, if the job has existed for the rule's window, every pod has been
      watched for it, and what the pods' counters show over it, as a 64-bit sum, is below the rule's bytes. */
  lemma {:induction false} DeclaredRulesDecide(expected: seq<ExpectedPort>, at: seq<nat>, thresholds: seq<Threshold>,
                                               created: Option<int>, histories: seq<seq<Sample>>, now: int)
    requires OfRules(expected, at, thresholds) && EndNow(histories, now)
    requires forall i :: 0 <= i < |expected| && expected[i].rule.Rule? ==> expected[i].rule.window > 0
    ensures Idle(thresholds, created, Pods(histories), now) <==>
              forall i :: 0 <= i < |expected| && expected[i].rule.Rule? ==>
                var window := expected[i].rule.window;
                && created.Some? && created.value + window <= now
                && histories != [] && window <= DAY
                && (forall k :: 0 <= k < |histories| ==> Watched(histories[k], window, now))
                && Seen(histories, window, now) % TWO_TO_THE_64 < expected[i].rule.bytes
  {
    forall k | 0 <= k < |at|
      ensures Missed(thresholds[k], Pods(histories), now) <==>
                && histories != [] && thresholds[k].window <= DAY
                && (forall m :: 0 <= m < |histories| ==> Watched(histories[m], thresholds[k].window, now))
                && Seen(histories, thresholds[k].window, now) % TWO_TO_THE_64 < thresholds[k].bytes
    {
      MissedExactly(thresholds[k], histories, now);
    }
    forall i: nat | i < |expected| && expected[i].rule.Rule?
      ensures exists k :: 0 <= k < |at| && at[k] == i
    {
      assert i in at;
    }
  }

  lemma SmallSum(total: nat)
    ensures total % TWO_TO_THE_64 == total <==> total < TWO_TO_THE_64
  {
  }

  lemma {:induction false} OnePod(h: seq<Sample>, window: int, now: int)
    requires h != []
    ensures Seen([h], window, now) == DeltaFrom(h, h[|h| - 1].rx, now - window)
    ensures Received([h], window, now) == ReceivedSince(h, now - window)
    ensures Hidden([h], window, now) == Unseen(h, now - window)
  {
    assert [h][..0] == [];
  }

  /** A single pod never makes the sum wrap. If its counter never went back, it received less than a
      missed threshold if and only if what the first sample of the window recorded is less than what is
      missing. */
  lemma {:induction false} OnePodIsIdle(t: Threshold, h: seq<Sample>, now: int)
    requires EndNow([h], now) && t.window > 0 && Missed(t, Pods([h]), now)
    ensures var seen := DeltaFrom(h, h[|h| - 1].rx, now - t.window);
            && (ReceivedSince(h, now - t.window) < t.bytes <==> Unseen(h, now - t.window) < t.bytes - seen)
            && (Growing(h) ==> (ReceivedSince(h, now - t.window) < t.bytes <==>
                seen + Edge(h, now - t.window) < t.bytes))
  {
    OnePod(h, t.window, now);
    MissedMeansLess(t, [h], now);
    if Growing(h) {
      GrowingHidesEdge(h, now - t.window);
    }
  }

  lemma {:induction false} MissedByAll(t: Threshold, histories: seq<seq<Sample>>, now: int)
    requires EndNow(histories, now) && histories != [] && 0 < t.window <= DAY
    requires forall i :: 0 <= i < |histories| ==> Watched(histories[i], t.window, now)
    requires Seen(histories, t.window, now) == 0 && t.bytes > 0
    ensures Missed(t, Pods(histories), now)
  {
    MissedExactly(t, histories, now);
    SmallSum(0);
  }

  lemma {:induction false} MissedByOne(t: Threshold, h: seq<Sample>, now: int)
    requires EndNow([h], now) && 0 < t.window <= DAY && Watched(h, t.window, now)
    requires h != [] && DeltaFrom(h, h[|h| - 1].rx, now - t.window) == 0 && t.bytes > 0
    ensures Missed(t, Pods([h]), now)
  {
    OnePod(h, t.window, now);
    MissedByAll(t, [h], now);
  }

  /** A pod that received some bytes right at the start of the window, before its counter went back. */
  function Restarted(bytes: uint64, window: nat): seq<Sample> {
    [Sample(0, 0, 0), Sample(0, bytes, 0), Sample(window, 0, 0)]
  }

  lemma {:induction false} RestartedPod(bytes: uint64, window: nat)
    requires 0 < window <= DAY
    ensures InOrder(Restarted(bytes, window)) && Watched(Restarted(bytes, window), window, window)
    ensures DeltaFrom(Restarted(bytes, window), 0, 0) == 0
  {
    var h := Restarted(bytes, window);
    assert First(h, 0) == 0 && First(h, window - DAY) == 0;
    assert window - DAY <= h[0].at <= window - window;
  }

  lemma {:induction false} RestartedReceived(bytes: uint64, window: nat)
    ensures ReceivedSince(Restarted(bytes, window), 0) == bytes
  {
    var h := Restarted(bytes, window);
    assert h[..2] == [Sample(0, 0, 0), Sample(0, bytes, 0)] && h[..2][..1] == [Sample(0, 0, 0)]
           && h[..2][..1][..0] == [];
    assert ReceivedSince(h[..2][..1], 0) == 0;
    assert ReceivedSince(h[..2], 0) == bytes;
  }

  /** A counter that goes back: the bytes before it were received but are not seen. */
  lemma {:induction false} ResetStops(t: Threshold) returns (h: seq<Sample>, now: int)
    requires t.bytes > 0 && 0 < t.window <= DAY
    ensures EndNow([h], now) && Missed(t, Pods([h]), now)
    ensures ReceivedSince(h, now - t.window) == t.bytes
  {
    h, now := Restarted(t.bytes, t.window), t.window;
    RestartedPod(t.bytes, t.window);
    RestartedReceived(t.bytes, t.window);
    MissedByOne(t, h, now);
  }

  /** A pod with a single sample in the window, which recorded everything. */
  function Sparse(bytes: uint64, window: nat): seq<Sample> {
    [Sample(0, 0, 0), Sample(window + 1, bytes, 0)]
  }

  lemma {:induction false} SparsePod(bytes: uint64, window: nat)
    requires 0 < window < DAY
    ensures InOrder(Sparse(bytes, window)) && Growing(Sparse(bytes, window))
    ensures Watched(Sparse(bytes, window), window, window + 1) && DeltaFrom(Sparse(bytes, window), bytes, 1) == 0
  {
    var h := Sparse(bytes, window);
    FirstIs(h, 1, 1);
    FirstIs(h, window + 1 - DAY, 0);
    assert window + 1 - DAY <= h[0].at <= window + 1 - window;
  }

  lemma {:induction false} SparseReceived(bytes: uint64, window: nat)
    ensures ReceivedSince(Sparse(bytes, window), 1) == bytes
    ensures Replay(Sparse(bytes, window)).lastDelta == bytes
    ensures bytes > 0 ==> Replay(Sparse(bytes, window)).lastActivity == Some(window + 1)
  {
    var h := Sparse(bytes, window);
    assert h[..1] == [Sample(0, 0, 0)] && h[..1][..0] == [];
    assert ReceivedSince(h[..1], 1) == 0;
    KeepsLast(h[..1]);
  }

  /** A counter that never goes back: the increase of the first sample in the window is not seen, even
      if it is the last one, so that the pod was active at the very time of the stop. */
  lemma {:induction false} EdgeStops(t: Threshold) returns (h: seq<Sample>, now: int)
    requires t.bytes > 0 && 0 < t.window < DAY
    ensures EndNow([h], now) && Missed(t, Pods([h]), now) && Growing(h)
    ensures ReceivedSince(h, now - t.window) == t.bytes
    ensures Replay(h).lastActivity == Some(now) && Replay(h).lastDelta == t.bytes
  {
    h, now := Sparse(t.bytes, t.window), t.window + 1;
    SparsePod(t.bytes, t.window);
    SparseReceived(t.bytes, t.window);
    MissedByOne(t, h, now);
  }

  /** A threshold over more than a day keeps the job alive for good. */
  lemma {:induction false} LongWindowNeverStops(thresholds: seq<Threshold>, created: Option<int>,
                                                histories: seq<seq<Sample>>, now: int, i: nat)
    requires EndNow(histories, now) && i < |thresholds| && thresholds[i].window > 86_400_000_000_000
    ensures !Idle(thresholds, created, Pods(histories), now)
  {
    MissedExactly(thresholds[i], histories, now);
  }

  const HALF: uint64 := 0x8000_0000_0000_0000

  /** A pod that received 2^63 bytes in the window that ends now. */
  function Busy(window: nat): seq<Sample> {
    [Sample(0, 0, 0), Sample(window, HALF, 0)]
  }

  lemma {:induction false} BusyPod(window: nat)
    requires 0 < window <= DAY
    ensures InOrder(Busy(window)) && Watched(Busy(window), window, window) && DeltaFrom(Busy(window), HALF, 0) == HALF
  {
    assert First(Busy(window), window - DAY) == 0 && First(Busy(window), 0) == 0;
  }

  lemma {:induction false} SeenOfTwo(h: seq<Sample>, window: int, now: int)
    requires h != []
    ensures Seen([h, h], window, now) == 2 * DeltaFrom(h, h[|h| - 1].rx, now - window)
  {
    assert [h, h][..1] == [h] && [h][..0] == [];
    assert Seen([h], window, now) == DeltaFrom(h, h[|h| - 1].rx, now - window);
  }

  /** The sum can wrap, whatever the threshold: two pods that received 2^63 bytes each count as having
      received nothing. */
  lemma {:induction false} WrappedSumStops(t: Threshold) returns (histories: seq<seq<Sample>>, now: int)
    requires t.bytes > 0 && 0 < t.window <= DAY
    ensures EndNow(histories, now) && Missed(t, Pods(histories), now)
    ensures Seen(histories, t.window, now) == TWO_TO_THE_64 && Received(histories, t.window, now) >= TWO_TO_THE_64
  {
    var h := Busy(t.window);
    histories, now := [h, h], t.window;
    BusyPod(t.window);
    SeenOfTwo(h, t.window, now);
    MissedExactly(t, histories, now);
    ReceivedIsSeenOrHidden(histories, t.window, now);
  }
}
