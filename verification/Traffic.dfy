/** Traffic samples of pods: a day of samples is kept per pod, and received bytes over a window are
    read off the samples that are left. */
module Traffic {
  import opened Domain

  /** Times are nanoseconds. */
  const DAY: int := 24 * 60 * 60 * 1_000_000_000
  const TWO_TO_THE_64: nat := 0x1_0000_0000_0000_0000

  /** Byte counters are 64 bits wide. */
  type uint64 = n: nat | n < TWO_TO_THE_64

  datatype Sample = Sample(at: int, rx: uint64, tx: uint64)

  /** What is known of a pod right after a record. */
  datatype PodTraffic = PodTraffic(rx: uint64, lastDelta: uint64, lastActivity: Option<int>, samples: seq<Sample>)

  // ---- one record ---------------------------------------------------------------------------------

  function FirstAt(samples: seq<Sample>, cutoff: int, i: nat): (n: nat)
    requires i <= |samples|
    ensures i <= n <= |samples|
    ensures forall j :: i <= j < n ==> samples[j].at < cutoff
    ensures n < |samples| ==> samples[n].at >= cutoff
    decreases |samples| - i
  {
    if i == |samples| || samples[i].at >= cutoff then i else FirstAt(samples, cutoff, i + 1)
  }

  /** The index of the first sample that is not before the cutoff, or the number of samples. */
  function First(samples: seq<Sample>, cutoff: int): nat {
    FirstAt(samples, cutoff, 0)
  }

  function From(samples: seq<Sample>, cutoff: int): seq<Sample> {
    samples[FirstAt(samples, cutoff, 0)..]
  }

  function Increase(samples: seq<Sample>, rx: uint64): uint64 {
    if samples != [] && rx >= samples[|samples| - 1].rx then rx - samples[|samples| - 1].rx else 0
  }

  /** A pod after one more record. */
  function Recorded(samples: seq<Sample>, lastActivity: Option<int>, s: Sample): PodTraffic {
    PodTraffic(s.rx, Increase(samples, s.rx),
               if Increase(samples, s.rx) > 0 then Some(s.at) else lastActivity,
               From(samples + [s], s.at - DAY))
  }

  /** The samples from the first one on that is not before the cutoff. */
  ghost predicate Kept(samples: seq<Sample>, cutoff: int, kept: seq<Sample>) {
    exists k :: && 0 <= k <= |samples| && kept == samples[k..]
                && (forall i :: 0 <= i < k ==> samples[i].at < cutoff)
                && (k < |samples| ==> samples[k].at >= cutoff)
  }

  /** What one more sample makes of a pod: the increase over the sample before it, if any, the time of it if
      there is one, and the samples of the last 24 hours. */
  ghost predicate AfterRecord(samples: seq<Sample>, lastActivity: Option<int>, s: Sample, traffic: PodTraffic) {
    && traffic.rx == s.rx
    && (if samples != [] && s.rx > samples[|samples| - 1].rx then
          traffic.lastDelta == s.rx - samples[|samples| - 1].rx && traffic.lastActivity == Some(s.at)
        else traffic.lastDelta == 0 && traffic.lastActivity == lastActivity)
    && Kept(samples + [s], s.at - 86_400_000_000_000, traffic.samples)
  }

  /** This is what a record does. */
  lemma {:induction false} RecordedExactly(samples: seq<Sample>, lastActivity: Option<int>, s: Sample,
                                           traffic: PodTraffic)
    requires traffic == Recorded(samples, lastActivity, s)
    ensures AfterRecord(samples, lastActivity, s, traffic)
  {
    FromIsKept(samples + [s], s.at - DAY);
  }

  lemma {:induction false} FromIsKept(samples: seq<Sample>, cutoff: int)
    ensures Kept(samples, cutoff, From(samples, cutoff))
  {
    assert From(samples, cutoff) == samples[FirstAt(samples, cutoff, 0)..];
  }

  class PodTrafficStore {
    var samples: map<string, seq<Sample>>
    var lastActivityAt: map<string, int>

    function SamplesOf(pod: string): seq<Sample>
      reads this
    {
      if pod in samples then samples[pod] else []
    }

    function LastActivityOf(pod: string): Option<int>
      reads this
    {
      if pod in lastActivityAt then Some(lastActivityAt[pod]) else None
    }

    constructor ()
      ensures samples == map[] && lastActivityAt == map[]
    {
      samples, lastActivityAt := map[], map[];
    }

    /** `podTrafficStore.record`. */
    method Record(pod: string, rx: uint64, tx: uint64, now: int) returns (traffic: PodTraffic)
      modifies `samples, `lastActivityAt
      ensures traffic == Recorded(old(SamplesOf(pod)), old(LastActivityOf(pod)), Sample(now, rx, tx))
      ensures SamplesOf(pod) == traffic.samples && LastActivityOf(pod) == traffic.lastActivity
      ensures forall other :: other != pod ==>
                SamplesOf(other) == old(SamplesOf(other)) && LastActivityOf(other) == old(LastActivityOf(other))
    {
      var own := SamplesOf(pod);
      var lastDelta: uint64 := 0;
      if |own| > 0 && rx >= own[|own| - 1].rx {
        lastDelta := rx - own[|own| - 1].rx;
        if lastDelta > 0 {
          lastActivityAt := lastActivityAt[pod := now];
        }
      }
      var kept := Prune(own + [Sample(now, rx, tx)], now - DAY);
      samples := samples[pod := kept];
      traffic := PodTraffic(rx, lastDelta, LastActivityOf(pod), kept);
    }

    /** As long as what is stored of a pod is what its whole history `h` replays to, so it is after the
        next record. */
    method RecordNext(pod: string, ghost h: seq<Sample>, rx: uint64, tx: uint64, now: int) returns (traffic: PodTraffic)
      requires Replays(h, SamplesOf(pod), LastActivityOf(pod))
      modifies `samples, `lastActivityAt
      ensures traffic == Replay(h + [Sample(now, rx, tx)])
      ensures Replays(h + [Sample(now, rx, tx)], SamplesOf(pod), LastActivityOf(pod))
    {
      ReplaysNext(h, SamplesOf(pod), LastActivityOf(pod), Sample(now, rx, tx));
      traffic := Record(pod, rx, tx, now);
    }
  }

  /** What is stored of a pod is what replaying its history gives; nothing is, before the first record. */
  ghost predicate Replays(h: seq<Sample>, samples: seq<Sample>, lastActivity: Option<int>) {
    samples == Replay(h).samples && lastActivity == Replay(h).lastActivity
  }

  lemma ReplaysNext(h: seq<Sample>, samples: seq<Sample>, lastActivity: Option<int>, s: Sample)
    requires Replays(h, samples, lastActivity)
    ensures Replay(h + [s]) == Recorded(samples, lastActivity, s)
  {
    ReplayMore(h, s);
  }

  method Prune(samples: seq<Sample>, cutoff: int) returns (kept: seq<Sample>)
    ensures kept == From(samples, cutoff)
  {
    var keepFrom := 0;
    while keepFrom < |samples| && samples[keepFrom].at < cutoff
      invariant keepFrom <= |samples| && First(samples, cutoff) == FirstAt(samples, cutoff, keepFrom)
    {
      keepFrom := keepFrom + 1;
    }
    return samples[keepFrom..];
  }

  // ---- reading a window -----------------------------------------------------------------------------

  /** The sample a window starts from: its first one, or the first of all when the window is empty. */
  function Base(samples: seq<Sample>, cutoff: int): Sample
    requires samples != []
  {
    if First(samples, cutoff) < |samples| then samples[First(samples, cutoff)] else samples[0]
  }

  /** The received bytes since the base sample, 0 when the counter went back. */
  function DeltaFrom(samples: seq<Sample>, rx: uint64, cutoff: int): uint64
    requires samples != []
  {
    if rx < Base(samples, cutoff).rx then 0 else rx - Base(samples, cutoff).rx
  }

  function WindowDelta(t: PodTraffic, window: int, now: int): uint64 {
    if window <= 0 || t.samples == [] then t.lastDelta else DeltaFrom(t.samples, t.rx, now - window)
  }

  /** `podTraffic.rxDelta`. */
  method RxDelta(t: PodTraffic, window: int, now: int) returns (delta: uint64)
    ensures delta == WindowDelta(t, window, now)
    ensures window <= 0 || t.samples == [] ==> delta == t.lastDelta
    ensures window > 0 && t.samples != [] ==> exists b ::
              && 0 <= b < |t.samples| && delta == (if t.rx < t.samples[b].rx then 0 else t.rx - t.samples[b].rx)
              && (if t.samples[b].at >= now - window then forall i :: 0 <= i < b ==> t.samples[i].at < now - window
                  else b == 0 && forall i :: 0 <= i < |t.samples| ==> t.samples[i].at < now - window)
  {
    if window <= 0 || |t.samples| == 0 {
      return t.lastDelta;
    }
    var base := t.samples[0];
    for i := 0 to |t.samples|
      invariant base == t.samples[0]
      invariant First(t.samples, now - window) == FirstAt(t.samples, now - window, i)
    {
      if t.samples[i].at >= now - window {
        base := t.samples[i];
        break;
      }
    }
    assert exists b ::
        && 0 <= b < |t.samples| && base == t.samples[b]
        && (if t.samples[b].at >= now - window then forall i :: 0 <= i < b ==> t.samples[i].at < now - window
            else b == 0 && forall i :: 0 <= i < |t.samples| ==> t.samples[i].at < now - window);
    if t.rx < base.rx {
      return 0;
    }
    return t.rx - base.rx;
  }

  /** `podTraffic.windowReady`. */
  predicate WindowReady(t: PodTraffic, window: int, now: int) {
    if window <= 0 then |t.samples| > 1
    else |t.samples| >= 2 && t.samples[0].at <= now - window
  }

  // ---- the pruned samples against the whole history ----------------------------------------------------

  /** A pod after all records of its history. */
  function Replay(h: seq<Sample>): PodTraffic {
    if h == [] then PodTraffic(0, 0, None, [])
    else
      var before := Replay(h[..|h| - 1]);
      Recorded(before.samples, before.lastActivity, h[|h| - 1])
  }

  ghost predicate InOrder(h: seq<Sample>) {
    forall i, j :: 0 <= i <= j < |h| ==> h[i].at <= h[j].at
  }

  lemma ReplayMore(h: seq<Sample>, s: Sample)
    ensures Replay(h + [s]) == Recorded(Replay(h).samples, Replay(h).lastActivity, s)
  {
    assert (h + [s])[..|h|] == h;
  }

  lemma KeepsLast(h: seq<Sample>)
    requires h != []
    ensures Replay(h).samples != [] && Replay(h).samples[|Replay(h).samples| - 1] == h[|h| - 1]
    ensures Replay(h).rx == h[|h| - 1].rx
  {
    var all := Replay(h[..|h| - 1]).samples + [h[|h| - 1]];
    HasLast(all, h[|h| - 1].at - DAY);
  }

  lemma HasLast(h: seq<Sample>, cutoff: int)
    requires h != [] && h[|h| - 1].at >= cutoff
    ensures First(h, cutoff) < |h|
  {
  }

  lemma FirstIs(h: seq<Sample>, cutoff: int, n: nat)
    requires n <= |h| && (forall i :: 0 <= i < n ==> h[i].at < cutoff) && (n < |h| ==> h[n].at >= cutoff)
    ensures First(h, cutoff) == n
  {
  }

  /** Dropping what lies before an earlier cutoff does not change what a later one selects. */
  lemma FirstAfterDrop(h: seq<Sample>, k: nat, cutoff: int)
    requires k <= |h| && forall i :: 0 <= i < k ==> h[i].at < cutoff
    ensures First(h, cutoff) == k + First(h[k..], cutoff)
  {
    var n := k + First(h[k..], cutoff);
    forall i | 0 <= i < n ensures h[i].at < cutoff {
      if i >= k {
        assert h[k..][i - k] == h[i];
      }
    }
    if n < |h| {
      assert h[k..][n - k] == h[n];
    }
    FirstIs(h, cutoff, n);
  }

  /** One more record on samples that were pruned out of `init`. */
  lemma RetainMore(init: seq<Sample>, k: nat, s: Sample)
    requires k <= |init| && forall i :: 0 <= i < k ==> init[i].at < s.at - DAY
    ensures From(init[k..] + [s], s.at - DAY) == From(init + [s], s.at - DAY)
  {
    var h := init + [s];
    assert init[k..] + [s] == h[k..];
    FirstAfterDrop(h, k, s.at - DAY);
    assert h[k..][First(h[k..], s.at - DAY)..] == h[First(h, s.at - DAY)..];
  }

  lemma RetainNext(init: seq<Sample>, kept: seq<Sample>, s: Sample)
    requires init != [] && kept == From(init, init[|init| - 1].at - DAY) && init[|init| - 1].at <= s.at
    ensures From(kept + [s], s.at - DAY) == From(init + [s], s.at - DAY)
  {
    RetainMore(init, First(init, init[|init| - 1].at - DAY), s);
  }

  /** Pruning on every record comes to pruning the whole history once. */
  lemma {:induction false} RetainedSamples(h: seq<Sample>)
    requires InOrder(h) && h != []
    ensures Replay(h).samples == From(h, h[|h| - 1].at - DAY)
    decreases |h|
  {
    var init, s := h[..|h| - 1], h[|h| - 1];
    assert h == init + [s];
    if init == [] {
      assert [] + [s] == h;
    } else {
      RetainedSamples(init);
      RetainedOneMore(init, Replay(init), s, h, Replay(h));
    }
  }

  lemma RetainedOneMore(init: seq<Sample>, before: PodTraffic, s: Sample, h: seq<Sample>, after: PodTraffic)
    requires h == init + [s] && InOrder(h) && init != []
    requires before.samples == From(init, init[|init| - 1].at - DAY)
    requires after == Recorded(before.samples, before.lastActivity, s)
    ensures after.samples == From(h, s.at - DAY)
  {
    assert h[|init| - 1] == init[|init| - 1] && h[|init|] == s;
    RetainNext(init, before.samples, s);
  }

  /** A window that starts after the cutoff starts at the same sample with and without pruning. */
  lemma PrunedBase(h: seq<Sample>, early: int, late: int)
    requires h != [] && early <= late <= h[|h| - 1].at
    ensures From(h, early) != [] && Base(From(h, early), late) == Base(h, late)
  {
    var k := First(h, early);
    HasLast(h, early);
    HasLast(h, late);
    FirstAfterDrop(h, k, late);
  }

  lemma DeltaOfPruned(h: seq<Sample>, t: PodTraffic, window: int)
    requires h != [] && 0 < window <= DAY && t.samples == From(h, h[|h| - 1].at - DAY)
    ensures WindowDelta(t, window, h[|h| - 1].at) == DeltaFrom(h, t.rx, h[|h| - 1].at - window)
  {
    PrunedBase(h, h[|h| - 1].at - DAY, h[|h| - 1].at - window);
  }

  /** The pruned samples give the same increase as the whole history, for windows of up to a day that
      end with the last record. */
  lemma {:induction false} PrunedDelta(h: seq<Sample>, window: int)
    requires InOrder(h) && h != [] && 0 < window <= DAY
    ensures WindowDelta(Replay(h), window, h[|h| - 1].at) == DeltaFrom(h, h[|h| - 1].rx, h[|h| - 1].at - window)
  {
    var t := Replay(h);
    KeepsLast(h);
    RetainedSamples(h);
    DeltaOfPruned(h, t, window);
  }

  /** Without a window the last increase is meant; pruning never takes away the sample it needs. */
  lemma {:induction false} LastIncrease(h: seq<Sample>)
    requires h != []
    ensures Replay(h).lastDelta == Increase(h[..|h| - 1], h[|h| - 1].rx)
  {
    if |h| > 1 {
      KeepsLast(h[..|h| - 1]);
    }
  }

  /** Sample `i` received more than the one before it. */
  predicate Increased(h: seq<Sample>, i: int) {
    0 < i < |h| && h[i].rx > h[i - 1].rx
  }

  /** `i` is the most recent increase. */
  ghost predicate LatestIncrease(h: seq<Sample>, i: int) {
    Increased(h, i) && forall j :: Increased(h, j) ==> j <= i
  }

  /** The last activity is the time of the most recent increase in the whole history, pruned or not. */
  lemma {:induction false} LastActivity(h: seq<Sample>)
    ensures Replay(h).lastActivity.None? <==> forall i :: !Increased(h, i)
    ensures Replay(h).lastActivity.Some? ==>
              exists i :: LatestIncrease(h, i) && h[i].at == Replay(h).lastActivity.value
    decreases |h|
  {
    if h != [] {
      var init, n := h[..|h| - 1], |h| - 1;
      LastActivity(init);
      LastIncrease(h);
      LatestGrows(h);
      if Increased(h, n) {
        assert LatestIncrease(h, n);
      } else if Replay(init).lastActivity.Some? {
        var i :| LatestIncrease(init, i) && init[i].at == Replay(init).lastActivity.value;
        assert LatestIncrease(h, i);
      }
    }
  }

  lemma LatestGrows(h: seq<Sample>)
    requires h != []
    ensures forall i :: i < |h| - 1 ==> (Increased(h, i) <==> Increased(h[..|h| - 1], i))
    ensures forall i :: Increased(h, i) ==> i <= |h| - 1
    ensures Increased(h, |h| - 1) <==> Increase(h[..|h| - 1], h[|h| - 1].rx) > 0
  {
  }

  /** Some sample is no older than a day and not younger than the window. */
  ghost predicate Spans(h: seq<Sample>, window: int, now: int) {
    exists i :: 0 <= i < |h| && now - DAY <= h[i].at <= now - window
  }

  lemma FirstSpans(h: seq<Sample>, window: int, now: int)
    requires InOrder(h) && h != [] && h[|h| - 1].at == now
    ensures First(h, now - DAY) < |h|
    ensures h[First(h, now - DAY)].at <= now - window <==> Spans(h, window, now)
  {
    HasLast(h, now - DAY);
    if i :| 0 <= i < |h| && now - DAY <= h[i].at <= now - window {
      assert i >= First(h, now - DAY);
    }
  }

  /** A window is ready exactly when at least two samples are left and some sample of the last day
      lies before the window, so never when it is longer than a day. */
  lemma {:induction false} ReadyWindows(h: seq<Sample>, window: int)
    requires InOrder(h) && h != [] && window > 0
    ensures WindowReady(Replay(h), window, h[|h| - 1].at)
       <==> First(h, h[|h| - 1].at - DAY) + 2 <= |h| && Spans(h, window, h[|h| - 1].at)
    ensures WindowReady(Replay(h), window, h[|h| - 1].at) ==> window <= DAY
  {
    RetainedSamples(h);
    FirstSpans(h, window, h[|h| - 1].at);
  }

  // ---- counters that never go back ----------------------------------------------------------------------

  ghost predicate Growing(h: seq<Sample>) {
    forall i, j :: 0 <= i <= j < |h| ==> h[i].rx <= h[j].rx
  }

  /** The increases between consecutive samples, added up. */
  function Steps(h: seq<Sample>): nat {
    if |h| < 2 then 0 else Steps(h[..|h| - 1]) + Increase(h[..|h| - 1], h[|h| - 1].rx)
  }

  lemma {:induction false} Telescopes(h: seq<Sample>)
    requires Growing(h) && h != []
    ensures Steps(h) == h[|h| - 1].rx - h[0].rx
    decreases |h|
  {
    if |h| >= 2 {
      Telescopes(h[..|h| - 1]);
    }
  }

  /** The decreases between consecutive samples, added up. */
  function Drops(h: seq<Sample>): nat {
    if |h| < 2 then 0
    else Drops(h[..|h| - 1]) + if h[|h| - 1].rx < h[|h| - 2].rx then h[|h| - 2].rx - h[|h| - 1].rx else 0
  }

  lemma {:induction false} Balance(h: seq<Sample>)
    requires h != []
    ensures h[|h| - 1].rx - h[0].rx == Steps(h) - Drops(h)
    decreases |h|
  {
    if |h| >= 2 {
      Balance(h[..|h| - 1]);
    }
  }

  /** What the samples from the cutoff on recorded as received: each its increase over the one before it. */
  function ReceivedSince(h: seq<Sample>, cutoff: int): nat {
    if h == [] then 0
    else
      var init, s := h[..|h| - 1], h[|h| - 1];
      ReceivedSince(init, cutoff) + if s.at >= cutoff then Increase(init, s.rx) else 0
  }

  /** What the first sample of the window recorded as received. */
  function Edge(h: seq<Sample>, cutoff: int): nat {
    var n := First(h, cutoff);
    if n < |h| then Increase(h[..n], h[n].rx) else 0
  }

  lemma {:induction false} NothingSince(h: seq<Sample>, cutoff: int)
    requires First(h, cutoff) == |h|
    ensures ReceivedSince(h, cutoff) == 0
    decreases |h|
  {
    if h != [] {
      FirstIs(h[..|h| - 1], cutoff, |h| - 1);
      NothingSince(h[..|h| - 1], cutoff);
    }
  }

  lemma {:induction false} StepsMore(h: seq<Sample>, s: Sample)
    requires h != []
    ensures Steps(h + [s]) == Steps(h) + Increase(h, s.rx)
  {
    assert (h + [s])[..|h|] == h;
  }

  lemma {:induction false} FromMore(init: seq<Sample>, s: Sample, cutoff: int)
    requires First(init, cutoff) < |init| || cutoff <= s.at
    ensures First(init + [s], cutoff) == First(init, cutoff)
    ensures From(init + [s], cutoff) == From(init, cutoff) + [s] && Edge(init + [s], cutoff)
         == if First(init, cutoff) < |init| then Edge(init, cutoff) else Increase(init, s.rx)
  {
    var h, n := init + [s], First(init, cutoff);
    FirstIs(h, cutoff, n);
    assert h[..n] == init[..n] && h[n..] == init[n..] + [s];
  }

  lemma {:induction false} ReceivedMore(h: seq<Sample>, s: Sample, cutoff: int)
    ensures ReceivedSince(h + [s], cutoff) == ReceivedSince(h, cutoff) + if s.at >= cutoff then Increase(h, s.rx) else 0
  {
    assert (h + [s])[..|h|] == h;
  }

  lemma {:induction false} SplitsMore(init: seq<Sample>, s: Sample, cutoff: int)
    requires s.at >= cutoff && First(init, cutoff) < |init|
    requires ReceivedSince(init, cutoff) == Edge(init, cutoff) + Steps(From(init, cutoff))
    ensures ReceivedSince(init + [s], cutoff) == Edge(init + [s], cutoff) + Steps(From(init + [s], cutoff))
  {
    FromMore(init, s, cutoff);
    ReceivedMore(init, s, cutoff);
    StepsMore(From(init, cutoff), s);
  }

  lemma {:induction false} SplitsFirst(init: seq<Sample>, s: Sample, cutoff: int)
    requires s.at >= cutoff && First(init, cutoff) == |init|
    ensures ReceivedSince(init + [s], cutoff) == Edge(init + [s], cutoff) + Steps(From(init + [s], cutoff))
  {
    FromMore(init, s, cutoff);
    ReceivedMore(init, s, cutoff);
    NothingSince(init, cutoff);
    assert From(init, cutoff) == [] && [] + [s] == [s] && Steps([s]) == 0;
  }

  lemma {:induction false} ReceivedSplits(h: seq<Sample>, cutoff: int)
    requires InOrder(h) && h != [] && cutoff <= h[|h| - 1].at
    ensures ReceivedSince(h, cutoff) == Edge(h, cutoff) + Steps(From(h, cutoff))
    decreases |h|
  {
    var init, s := h[..|h| - 1], h[|h| - 1];
    assert h == init + [s];
    if First(init, cutoff) == |init| {
      SplitsFirst(init, s, cutoff);
    } else {
      assert init[First(init, cutoff)].at <= init[|init| - 1].at;
      ReceivedSplits(init, cutoff);
      SplitsMore(init, s, cutoff);
    }
  }

  /** What was received in a window and does not show in its increase: what its first sample recorded,
      and what a counter that went back has swallowed. */
  function Unseen(h: seq<Sample>, cutoff: int): nat {
    var inside := From(h, cutoff);
    Edge(h, cutoff) + if Steps(inside) <= Drops(inside) then Steps(inside) else Drops(inside)
  }

  /** The increase over a window against what was recorded as received in it, for every history. */
  lemma {:induction false} SeenAndUnseen(h: seq<Sample>, cutoff: int)
    requires InOrder(h) && h != [] && cutoff <= h[|h| - 1].at
    ensures ReceivedSince(h, cutoff) == DeltaFrom(h, h[|h| - 1].rx, cutoff) + Unseen(h, cutoff)
  {
    HasLast(h, cutoff);
    ReceivedSplits(h, cutoff);
    Balance(From(h, cutoff));
  }

  lemma {:induction false} GrowingNeverDrops(h: seq<Sample>)
    requires Growing(h)
    ensures Drops(h) == 0
    decreases |h|
  {
    if h != [] {
      GrowingNeverDrops(h[..|h| - 1]);
    }
  }

  /** A counter that never goes back only hides what the first sample of the window recorded. */
  lemma {:induction false} GrowingHidesEdge(h: seq<Sample>, cutoff: int)
    requires Growing(h)
    ensures Unseen(h, cutoff) == Edge(h, cutoff)
  {
    GrowingNeverDrops(From(h, cutoff));
  }

  lemma WindowTelescopes(h: seq<Sample>, cutoff: int)
    requires Growing(h) && h != [] && cutoff <= h[|h| - 1].at
    ensures DeltaFrom(h, h[|h| - 1].rx, cutoff) == Steps(From(h, cutoff))
  {
    HasLast(h, cutoff);
    Telescopes(From(h, cutoff));
  }

  /** With a counter that never goes back, the increase over a window is the sum of all single increases
      after its first sample. */
  lemma {:induction false} DeltaTelescopes(h: seq<Sample>, window: int)
    requires InOrder(h) && Growing(h) && h != [] && 0 < window <= DAY
    ensures WindowDelta(Replay(h), window, h[|h| - 1].at) == Steps(From(h, h[|h| - 1].at - window))
  {
    PrunedDelta(h, window);
    WindowTelescopes(h, h[|h| - 1].at - window);
  }

  /** A longer window never shows a smaller increase. */
  lemma {:induction false} DeltaGrowsWithWindow(h: seq<Sample>, shorter: int, longer: int)
    requires InOrder(h) && Growing(h) && h != [] && 0 < shorter <= longer <= DAY
    ensures WindowDelta(Replay(h), shorter, h[|h| - 1].at) <= WindowDelta(Replay(h), longer, h[|h| - 1].at)
  {
    var now := h[|h| - 1].at;
    PrunedDelta(h, shorter);
    PrunedDelta(h, longer);
    HasLast(h, now - shorter);
    HasLast(h, now - longer);
    assert First(h, now - longer) <= First(h, now - shorter);
  }

  // ---- several pods ---------------------------------------------------------------------------------------

  /** What the pods of a procedure received in truth. */
  function TrueTotal(pods: seq<PodTraffic>, window: int, now: int): nat {
    if pods == [] then 0
    else TrueTotal(pods[..|pods| - 1], window, now) + WindowDelta(pods[|pods| - 1], window, now)
  }

  /** `procedureTraffic.rxDelta`: the sum is kept in 64 bits and wraps around. */
  method TotalDelta(pods: seq<PodTraffic>, window: int, now: int) returns (total: uint64)
    ensures total == TrueTotal(pods, window, now) % TWO_TO_THE_64
  {
    total := 0;
    for i := 0 to |pods|
      invariant total == TrueTotal(pods[..i], window, now) % TWO_TO_THE_64
    {
      var delta := RxDelta(pods[i], window, now);
      assert pods[..i + 1][..i] == pods[..i];
      WrapSum(TrueTotal(pods[..i], window, now), delta);
      total := (total + delta) % TWO_TO_THE_64;
    }
    assert pods[..|pods|] == pods;
  }

  lemma WrapSum(a: nat, b: nat)
    ensures (a % TWO_TO_THE_64 + b) % TWO_TO_THE_64 == (a + b) % TWO_TO_THE_64
  {
    var q := a / TWO_TO_THE_64;
    assert a == q * TWO_TO_THE_64 + a % TWO_TO_THE_64;
    WrapMultiple(a % TWO_TO_THE_64 + b, q);
  }

  lemma {:induction false} WrapMultiple(a: nat, q: nat)
    ensures (a + q * TWO_TO_THE_64) % TWO_TO_THE_64 == a % TWO_TO_THE_64
  {
    if q > 0 {
      WrapMultiple(a, q - 1);
      assert a + q * TWO_TO_THE_64 == (a + (q - 1) * TWO_TO_THE_64) + TWO_TO_THE_64;
    }
  }

  /** `procedureTraffic.windowReady`. */
  method AllReady(pods: seq<PodTraffic>, window: int, now: int) returns (ready: bool)
    ensures ready <==> |pods| > 0 && forall i :: 0 <= i < |pods| ==> WindowReady(pods[i], window, now)
    ensures ready <==>
              && |pods| > 0
              && forall i :: 0 <= i < |pods| ==>
                   if window <= 0 then |pods[i].samples| > 1
                   else |pods[i].samples| >= 2 && pods[i].samples[0].at <= now - window
  {
    if |pods| == 0 {
      return false;
    }
    for i := 0 to |pods|
      invariant forall j :: 0 <= j < i ==> WindowReady(pods[j], window, now)
    {
      if !WindowReady(pods[i], window, now) {
        return false;
      }
    }
    return true;
  }
}
