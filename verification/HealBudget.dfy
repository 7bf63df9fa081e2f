/**
 The per-CR bounds on the dual-master self-heal: the attempt budget with its
 shifted backoff, and the rate-limited deferral event edge.
 */
module HealBudget {
  import opened Base

  const BASE_COOLDOWN: nat := 30 * SECOND
  const MAX_BACKOFF: nat := 300 * SECOND
  const MAX_ATTEMPTS: nat := 5
  const DEFER_MIN_INTERVAL: nat := 60 * SECOND

  const TWO_63: int := 0x8000_0000_0000_0000
  const TWO_64: int := 0x1_0000_0000_0000_0000

  /** Two's-complement wrap to a signed 64-bit integer. */
  function Wrap64(v: int): (r: int)
    ensures -TWO_63 <= r < TWO_63
    ensures -TWO_63 <= v < TWO_63 ==> r == v
  {
    var m := v % TWO_64;
    if m >= TWO_63 then m - TWO_64 else m
  }

  function Pow2(n: nat): (p: nat)
    ensures p > 0
  {
    if n == 0 then 1 else 2 * Pow2(n - 1)
  }

  function Shl64(x: int, n: nat): int {
    Wrap64(x * Pow2(n))
  }

  /** `attempts == 0` is the nil tracker. */
  datatype Budget = Budget(attempts: nat, last: Instant)

  /** The wait after attempt number `k`: the wrapped shift, clamped to the cap. */
  function Backoff(k: nat, cooldown: int, cap: int): int
    requires k > 0
  {
    var b := Shl64(cooldown, k - 1);
    if b <= 0 || b > cap then cap else b
  }

  predicate Allowed(b: Budget, now: Instant, cooldown: int, cap: int, maxAttempts: nat) {
    b.attempts == 0 || (b.attempts < maxAttempts && now >= b.last + Backoff(b.attempts, cooldown, cap))
  }

  /** The deferral signature; the tie names its two pods in lexical order. */
  datatype Reason = PendingPods | NoOffset | Cooldown | Tie(lo: string, hi: string) | StaleEpoch(seen: int, fence: int)

  /** The edge latch: `None` is re-armed. */
  datatype Defer = Defer(edge: Option<Reason>, lastAt: Instant)

  predicate DeferFires(d: Defer, sig: Reason, now: Instant) {
    d.edge != Some(sig) && (d.lastAt == 0 || now - d.lastAt >= DEFER_MIN_INTERVAL)
  }

  class Bounds {
    var attempts: nat
    var lastAttempt: Instant
    var deferEdge: Option<Reason>
    var deferLastAt: Instant

    function BudgetView(): Budget
      reads this
    {
      Budget(attempts, lastAttempt)
    }

    function DeferView(): Defer
      reads this
    {
      Defer(deferEdge, deferLastAt)
    }

    constructor ()
      ensures attempts == 0 && deferEdge == None && deferLastAt == 0
    {
      attempts, lastAttempt, deferEdge, deferLastAt := 0, 0, None, 0;
    }

    method AttemptAllowed(now: Instant, cooldown: int, cap: int, maxAttempts: nat) returns (ok: bool)
      ensures ok == Allowed(BudgetView(), now, cooldown, cap, maxAttempts)
    {
      if attempts == 0 {
        return true;
      }
      if attempts >= maxAttempts {
        return false;
      }
      var backoff := Shl64(cooldown, attempts - 1);
      if backoff <= 0 || backoff > cap {
        backoff := cap;
      }
      return !(now < lastAttempt + backoff);
    }

    method RecordAttempt(now: Instant)
      modifies this`attempts, this`lastAttempt
      ensures BudgetView() == Budget(old(attempts) + 1, now)
    {
      attempts := attempts + 1;
      lastAttempt := now;
    }

    method ResetBudget()
      modifies this`attempts, this`lastAttempt
      ensures BudgetView() == Step(old(BudgetView()), Reset)
    {
      attempts, lastAttempt := 0, 0;
    }

    method FireDeferEdge(sig: Reason, now: Instant) returns (fire: bool)
      modifies this`deferEdge, this`deferLastAt
      ensures fire == DeferFires(old(DeferView()), sig, now)
      ensures DeferView() == if fire then Defer(Some(sig), now) else old(DeferView())
    {
      if deferEdge == Some(sig) {
        return false;
      }
      if deferLastAt != 0 && now - deferLastAt < DEFER_MIN_INTERVAL {
        return false;
      }
      deferEdge := Some(sig);
      deferLastAt := now;
      return true;
    }

    /** Re-arms what may fire; how often stays bounded by the kept stamp. */
    method RearmDeferEdge()
      modifies this`deferEdge
      ensures DeferView() == old(DeferView()).(edge := None)
    {
      deferEdge := None;
    }

    /** A prune of the per-CR trackers, as far as they are kept here. */
    method PruneStale()
      modifies this
      ensures BudgetView() == Step(old(BudgetView()), Reset) && DeferView() == DeferStep(old(DeferView()), Prune)
    {
      attempts, lastAttempt, deferEdge, deferLastAt := 0, 0, None, 0;
    }
  }

  // ----- budget runs

  /**
   The production backoff never wraps, doubles from 30 seconds, and stays below
   the five-minute cap for every attempt the budget admits, so it equals the
   documented min(30s * 2^(k-1), 5min).
   */
  lemma ProductionBackoff(k: nat)
    requires 0 < k < MAX_ATTEMPTS
    ensures Shl64(BASE_COOLDOWN, k - 1) == BASE_COOLDOWN * Pow2(k - 1)
    ensures Backoff(k, BASE_COOLDOWN, MAX_BACKOFF) == BASE_COOLDOWN * Pow2(k - 1) < MAX_BACKOFF
  {
    assert Pow2(0) == 1 && Pow2(1) == 2 && Pow2(2) == 4 && Pow2(3) == 8;
  }

  /**
   One self-heal pass at `now`, `admitted` being whether its other gates let it
   commit; or a reset, by a labelled primary or a prune.
   */
  datatype Visit = Pass(now: Instant, admitted: bool) | Reset

  predicate Commits(b: Budget, p: Visit) {
    p.Pass? && p.admitted && Allowed(b, p.now, BASE_COOLDOWN, MAX_BACKOFF, MAX_ATTEMPTS)
  }

  function Step(b: Budget, p: Visit): Budget {
    if p.Reset? then Budget(0, 0) else if Commits(b, p) then Budget(b.attempts + 1, p.now) else b
  }

  function Run(b: Budget, ps: seq<Visit>): Budget {
    if ps == [] then b else Step(Run(b, ps[..|ps|-1]), ps[|ps|-1])
  }

  /** When the commits since the last reset were made. */
  function CommitTimes(b: Budget, ps: seq<Visit>): seq<Instant> {
    if ps == [] || ps[|ps|-1].Reset? then []
    else
      CommitTimes(b, ps[..|ps|-1]) + if Commits(Run(b, ps[..|ps|-1]), ps[|ps|-1]) then [ps[|ps|-1].now] else []
  }

  /**
   At every point of every run of passes and resets: since the last reset at most
   five commits were made, and the k-th was followed by at least 30s * 2^(k-1)
   before the next.
   */
  lemma {:induction false} CommitsPaced(b: Budget, ps: seq<Visit>)
    requires b.attempts == 0
    ensures |CommitTimes(b, ps)| <= MAX_ATTEMPTS
    ensures forall k :: 0 < k < |CommitTimes(b, ps)| ==>
              CommitTimes(b, ps)[k] - CommitTimes(b, ps)[k-1] >= BASE_COOLDOWN * Pow2(k - 1)
    ensures Run(b, ps).attempts == |CommitTimes(b, ps)|
    ensures CommitTimes(b, ps) != [] ==> Run(b, ps).last == CommitTimes(b, ps)[|CommitTimes(b, ps)|-1]
  {
    if ps != [] {
      var init := ps[..|ps|-1];
      CommitsPaced(b, init);
      var n := |CommitTimes(b, init)|;
      if 0 < n < MAX_ATTEMPTS {
        ProductionBackoff(n);
      }
    }
  }

  /**
   And nothing else holds a commit back: after any run a pass commits exactly when
   its other gates admit it and since the last reset no commit was made, or fewer
   than five, the k-th of them at least 30s * 2^(k-1) ago.
   */
  lemma CommitsExactly(b: Budget, ps: seq<Visit>, now: Instant, admitted: bool)
    requires b.attempts == 0
    ensures var t := CommitTimes(b, ps);
            Commits(Run(b, ps), Pass(now, admitted)) <==>
            && admitted
            && (|t| == 0 || (|t| < 5 && now - t[|t|-1] >= 30 * SECOND * Pow2(|t| - 1)))
  {
    CommitsPaced(b, ps);
    var n := |CommitTimes(b, ps)|;
    if 0 < n < MAX_ATTEMPTS {
      ProductionBackoff(n);
    }
  }

  // ----- deferral runs

  datatype DeferEvent = Deferred(sig: Reason, now: Instant) | Rearm | Prune

  function DeferStep(d: Defer, e: DeferEvent): Defer {
    match e
    case Rearm => d.(edge := None)
    case Prune => Defer(None, 0)
    case Deferred(sig, now) => if DeferFires(d, sig, now) then Defer(Some(sig), now) else d
  }

  function DeferRun(d: Defer, es: seq<DeferEvent>): Defer {
    if es == [] then d else DeferStep(DeferRun(d, es[..|es|-1]), es[|es|-1])
  }

  ghost predicate FiresAt(d: Defer, es: seq<DeferEvent>, k: nat)
    requires k < |es|
  {
    es[k].Deferred? && DeferFires(DeferRun(d, es[..k]), es[k].sig, es[k].now)
  }

  /** The clock of the deferrals never runs backwards. */
  ghost predicate Forward(es: seq<DeferEvent>) {
    forall k, m :: 0 <= k < m < |es| && es[k].Deferred? && es[m].Deferred? ==> es[k].now <= es[m].now
  }

  lemma {:induction false} StampKept(d: Defer, es: seq<DeferEvent>, i: nat, j: nat)
    requires i < j <= |es| && FiresAt(d, es, i) && es[i].now > 0 && Forward(es)
    requires forall k :: i < k < j ==> !es[k].Prune?
    ensures es[i].now <= DeferRun(d, es[..j]).lastAt
  {
    assert es[..j] == es[..j-1] + [es[j-1]] && es[..j][..j-1] == es[..j-1];
    if j > i + 1 {
      StampKept(d, es, i, j - 1);
    }
  }

  /**
   However the deferral reasons alternate and whatever re-arms them, two
   emissions closer than the minimum interval have a prune between them.
   */
  lemma DeferralsPaced(d: Defer, es: seq<DeferEvent>, i: nat, j: nat)
    requires i < j < |es| && FiresAt(d, es, i) && FiresAt(d, es, j) && es[i].now > 0 && Forward(es)
    ensures es[j].now - es[i].now >= DEFER_MIN_INTERVAL || exists k :: i < k < j && es[k].Prune?
  {
    if forall k :: i < k < j ==> !es[k].Prune? {
      StampKept(d, es, i, j);
    }
  }

  /** The last emission since the last prune, or -1. */
  ghost function LastEmission(es: seq<DeferEvent>): int {
    if es == [] || es[|es|-1].Prune? then -1
    else if FiresAt(Defer(None, 0), es, |es| - 1) then |es| - 1
    else LastEmission(es[..|es|-1])
  }

  /** The latch is the last emission since the last prune, its reason forgotten by a re-arm. */
  lemma {:induction false} LatchIsLastEmission(es: seq<DeferEvent>)
    requires forall k :: 0 <= k < |es| && es[k].Deferred? ==> es[k].now > 0
    ensures var m, d := LastEmission(es), DeferRun(Defer(None, 0), es);
            && -1 <= m < |es| && (m == -1 ==> d == Defer(None, 0))
            && (m >= 0 ==> es[m].Deferred? && d.lastAt == es[m].now &&
                           d.edge == if exists k :: m < k < |es| && es[k].Rearm? then None else Some(es[m].sig))
  {
    if es != [] {
      var n := |es| - 1;
      var init := es[..n];
      LatchIsLastEmission(init);
      assert FiresAt(Defer(None, 0), es, n) <==>
             es[n].Deferred? && DeferFires(DeferRun(Defer(None, 0), init), es[n].sig, es[n].now);
      var m := LastEmission(init);
      if es[n].Rearm? && m >= 0 {
        assert m < n < |es| && es[n].Rearm?;
      }
      assert forall k :: 0 <= k < n ==> init[k] == es[k];
    }
  }

  /**
   A deferral emits exactly when nothing was emitted since the last prune, or the
   minimum interval has passed since the last emission and either its reason is
   another one or a re-arm came in between.
   */
  lemma DefersExactly(es: seq<DeferEvent>, j: nat)
    requires j < |es| && es[j].Deferred? && forall k :: 0 <= k < |es| && es[k].Deferred? ==> es[k].now > 0
    ensures var m := LastEmission(es[..j]);
            FiresAt(Defer(None, 0), es, j) <==>
            || m == -1
            || (&& 0 <= m < j && es[m].Deferred? && es[j].now - es[m].now >= DEFER_MIN_INTERVAL
                && (es[m].sig != es[j].sig || exists k :: m < k < j && es[k].Rearm?))
  {
    var init := es[..j];
    LatchIsLastEmission(init);
    assert forall k :: 0 <= k < j ==> init[k] == es[k];
  }

  /**
   A prune does let them: after any run that emitted, the first deferral behind
   a prune emits again, the same reason included, however soon it comes. A
   re-arm instead of the prune lets it emit exactly when the interval is over.
   */
  lemma PruneReopens(d: Defer, es: seq<DeferEvent>, sig: Reason, now: Instant)
    requires DeferRun(d, es).lastAt > 0
    ensures FiresAt(d, es + [Prune, Deferred(sig, now)], |es| + 1)
    ensures FiresAt(d, es + [Rearm, Deferred(sig, now)], |es| + 1) <==>
              now - DeferRun(d, es).lastAt >= DEFER_MIN_INTERVAL
  {
    forall e: DeferEvent | e == Prune || e == Rearm
      ensures DeferRun(d, (es + [e, Deferred(sig, now)])[..|es|+1]) == DeferStep(DeferRun(d, es), e)
    {
      var upTo := (es + [e, Deferred(sig, now)])[..|es|+1];
      assert upTo == es + [e] && upTo[..|es|] == es;
    }
  }
}
