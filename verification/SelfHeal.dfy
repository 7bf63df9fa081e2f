/**
 The bounded dual-master self-heal: scan every listed pod, elect the
 unambiguous survivor, fence it and demote every other de-facto master.
 */
module SelfHeal {
  import opened Base
  import opened HealBudget
  import opened Names
  import opened Ordering

  const EPSILON: nat := 4096

  type Int64 = x: int | -TWO_63 <= x < TWO_63

  /** What dialling a pod's INFO gave. */
  datatype Reading = Unreachable | Replica | MasterNoOffset | Master(offset: Int64)

  /** A listed pod; an empty `ip` means it is still pending. */
  datatype Pod = Pod(name: string, ip: string, reading: Reading)

  datatype DeFacto = DeFacto(name: string, ip: string, offset: Int64) {
    function Addr(): string {
      if ':' in ip then "[" + ip + "]:6379" else ip + ":6379"
    }
  }

  datatype Scan = Scan(masters: seq<DeFacto>, names: seq<string>, sawNoOffset: bool, complete: bool, pending: nat)

  /** The pods that answered as a rankable master, in list order. */
  function Masters(pods: seq<Pod>): seq<DeFacto> {
    if pods == [] then []
    else
      var p := pods[|pods|-1];
      Masters(pods[..|pods|-1]) +
      if p.ip != "" && p.reading.Master? then [DeFacto(p.name, p.ip, p.reading.offset)] else []
  }

  /** The pods that answered as a master, rankable or not. */
  function MasterNames(pods: seq<Pod>): seq<string> {
    if pods == [] then []
    else
      var p := pods[|pods|-1];
      MasterNames(pods[..|pods|-1]) +
      if p.ip != "" && (p.reading.Master? || p.reading.MasterNoOffset?) then [p.name] else []
  }

  predicate Pending(pods: seq<Pod>) {
    exists p :: p in pods && p.ip == ""
  }

  predicate OffsetMissing(pods: seq<Pod>) {
    exists p :: p in pods && p.ip != "" && p.reading.MasterNoOffset?
  }

  predicate AllAnswered(pods: seq<Pod>) {
    forall p :: p in pods ==> p.ip != "" && !p.reading.Unreachable?
  }

  lemma OneMore(pods: seq<Pod>, p: Pod)
    ensures OffsetMissing(pods + [p]) <==> OffsetMissing(pods) || (p.ip != "" && p.reading.MasterNoOffset?)
    ensures Pending(pods + [p]) <==> Pending(pods) || p.ip == ""
    ensures AllAnswered(pods + [p]) <==> AllAnswered(pods) && p.ip != "" && !p.reading.Unreachable?
  {
    assert forall q :: q in pods + [p] <==> q in pods || q == p;
  }

  method ScanDeFactoMasters(pods: seq<Pod>) returns (scan: Scan)
    ensures scan.masters == Masters(pods) && scan.names == MasterNames(pods)
    ensures scan.sawNoOffset <==> OffsetMissing(pods)
    ensures scan.pending > 0 <==> Pending(pods)
    ensures scan.complete <==> AllAnswered(pods)
  {
    scan := Scan([], [], false, true, 0);
    for i := 0 to |pods|
      invariant scan.masters == Masters(pods[..i]) && scan.names == MasterNames(pods[..i])
      invariant scan.sawNoOffset <==> OffsetMissing(pods[..i])
      invariant scan.pending > 0 <==> Pending(pods[..i])
      invariant scan.complete <==> AllAnswered(pods[..i])
    {
      var p := pods[i];
      assert pods[..i+1] == pods[..i] + [p] && pods[..i+1][..i] == pods[..i];
      OneMore(pods[..i], p);
      if p.ip == "" {
        scan := scan.(pending := scan.pending + 1, complete := false);
        continue;
      }
      match p.reading {
        case Unreachable => scan := scan.(complete := false);
        case Replica =>
        case MasterNoOffset => scan := scan.(names := scan.names + [p.name], sawNoOffset := true);
        case Master(offset) =>
          scan := scan.(names := scan.names + [p.name], masters := scan.masters + [DeFacto(p.name, p.ip, offset)]);
      }
    }
    assert pods[..|pods|] == pods;
  }

  // ----- the election

  /** The sort order: highest offset, then the pre-strip address, then the name. */
  predicate Ranks(a: DeFacto, b: DeFacto, preStripAddr: string) {
    if a.offset != b.offset then a.offset > b.offset
    else if (a.Addr() == preStripAddr) != (b.Addr() == preStripAddr) then a.Addr() == preStripAddr
    else Less(a.name, b.name)
  }

  function Order(preStripAddr: string): (DeFacto, DeFacto) -> bool {
    (a, b) => Ranks(a, b, preStripAddr)
  }

  lemma RanksIsOrder(pre: string)
    ensures StrictWeak(Order(pre))
  {
    LessIsOrder();
    var lt := Order(pre);
    assert forall a, b :: lt(a, b) == Ranks(a, b, pre);
  }

  /** `s` leads every other master of `ms` by more than epsilon. */
  ghost predicate Dominant(s: DeFacto, ms: seq<DeFacto>) {
    s in ms && forall m :: m in ms && m != s ==> s.offset - m.offset > EPSILON
  }

  ghost predicate DistinctPods(pods: seq<Pod>) {
    forall i, j :: 0 <= i < j < |pods| ==> pods[i].name != pods[j].name
  }

  ghost predicate DistinctNames(ms: seq<DeFacto>) {
    forall i, j :: 0 <= i < j < |ms| ==> ms[i].name != ms[j].name
  }

  /** No two offsets are so far apart that their 64-bit difference wraps. */
  ghost predicate NoWrap(ms: seq<DeFacto>) {
    forall a, b :: a in ms && b in ms ==> a.offset - b.offset < TWO_63
  }

  lemma SortedHead(r: seq<DeFacto>, pre: string)
    requires Sorted(r, Order(pre)) && |r| > 1
    ensures forall k :: 0 < k < |r| ==> r[k].offset <= r[1].offset <= r[0].offset
  {
    RanksIsOrder(pre);
    var lt := Order(pre);
    assert !lt(r[1], r[0]);
    forall k | 0 < k < |r|
      ensures r[k].offset <= r[1].offset
    {
      assert Sorted(r[1..], lt) by {
        assert forall i :: 0 <= i < |r| - 1 ==> r[1..][i] == r[i+1];
      }
      HeadLeast(r[1..], lt, k - 1);
      assert !lt(r[k], r[1]);
    }
  }

  lemma TwiceIn(r: seq<DeFacto>, i: nat, j: nat)
    requires i < j < |r| && r[i] == r[j]
    ensures multiset(r)[r[i]] >= 2
  {
    assert r == r[..j] + [r[j]] + r[j+1..];
    assert r[i] in r[..j];
  }

  lemma DistinctPermuted(ms: seq<DeFacto>, r: seq<DeFacto>)
    requires DistinctNames(ms) && multiset(r) == multiset(ms)
    ensures DistinctNames(r)
  {
    forall i, j | 0 <= i < j < |r|
      ensures r[i].name != r[j].name
    {
      if r[i] == r[j] {
        TwiceIn(r, i, j);
        OnceEach(ms, r[i]);
      } else {
        assert r[i] in multiset(r) && r[j] in multiset(r);
        assert r[i] in ms && r[j] in ms;
      }
    }
  }

  lemma {:induction false} OnceEach(ms: seq<DeFacto>, m: DeFacto)
    requires DistinctNames(ms)
    ensures multiset(ms)[m] <= 1
  {
    if ms != [] {
      var init := ms[..|ms|-1];
      OnceEach(init, m);
      assert ms == init + [ms[|ms|-1]];
    }
  }

  /** The tied pair in lexical order. */
  function TieReason(a: string, b: string): Reason {
    if Less(b, a) then Tie(b, a) else Tie(a, b)
  }

  /** Offsets that cross inside the window keep the deferral signature. */
  lemma TieOrderFree(a: string, b: string)
    ensures TieReason(a, b) == TieReason(b, a)
    ensures var t := TieReason(a, b); t.Tie? && {t.lo, t.hi} == {a, b} && !Less(t.hi, t.lo)
  {
    LessTotal(a, b);
  }

  method SortMasters(ms: seq<DeFacto>, preStripAddr: string) returns (r: seq<DeFacto>)
    requires |ms| >= 2 && DistinctNames(ms)
    ensures multiset(r) == multiset(ms) && |r| == |ms| && DistinctNames(r) && forall m :: m in ms <==> m in r
    ensures forall k :: 0 < k < |r| ==> r[k].offset <= r[1].offset <= r[0].offset
    ensures TopTwo(ms, preStripAddr, r[0], r[1])
  {
    RanksIsOrder(preStripAddr);
    r := Sort(ms, Order(preStripAddr));
    SameMembers(ms, r);
    assert forall m :: m in ms <==> m in Elements(ms);
    assert forall m :: m in r <==> m in Elements(r);
    DistinctPermuted(ms, r);
    SortedHead(r, preStripAddr);
    HeadsOnTop(ms, r, preStripAddr);
  }

  /** `a` and then `b` lead: by offset, then by the pre-strip address, then by the lower name. */
  ghost predicate TopTwo(ms: seq<DeFacto>, pre: string, a: DeFacto, b: DeFacto) {
    && a in ms && b in ms && a != b
    && (forall m :: m in ms && m != a ==> Leads(a, m, pre))
    && (forall m :: m in ms && m != a && m != b ==> Leads(b, m, pre))
  }

  ghost predicate Leads(a: DeFacto, m: DeFacto, pre: string) {
    && a.offset >= m.offset
    && (a.offset == m.offset && m.Addr() == pre ==> a.Addr() == pre)
    && (a.offset == m.offset && (m.Addr() == pre <==> a.Addr() == pre) ==> !Less(m.name, a.name))
  }

  lemma HeadsOnTop(ms: seq<DeFacto>, r: seq<DeFacto>, pre: string)
    requires |r| > 1 && DistinctNames(r) && Sorted(r, Order(pre)) && forall m :: m in ms <==> m in r
    ensures TopTwo(ms, pre, r[0], r[1])
  {
    RanksIsOrder(pre);
    forall m | m in ms && m != r[0]
      ensures Leads(r[0], m, pre) && (m != r[1] ==> Leads(r[1], m, pre))
    {
      var k :| 0 <= k < |r| && r[k] == m;
      HeadLeast(r, Order(pre), k);
      assert Sorted(r[1..], Order(pre)) by {
        assert forall i :: 0 <= i < |r| - 1 ==> r[1..][i] == r[i+1];
      }
      HeadLeast(r[1..], Order(pre), k - 1);
    }
  }

  /**
   Sort, compare the top two with the wrapped difference, and split survivor
   from losers. A survivor is named only when it is dominant, and with offsets
   whose differences fit 64 bits whenever some master is; the losers are all the
   others, once each.
   */
  method Elect(ms: seq<DeFacto>, preStripAddr: string)
    returns (survivor: Option<DeFacto>, losers: seq<DeFacto>, tie: Reason)
    requires |ms| >= 2 && DistinctNames(ms)
    ensures survivor.Some? ==> Dominant(survivor.value, ms)
    ensures survivor.Some? ==> multiset(losers) + multiset{survivor.value} == multiset(ms)
    ensures survivor.Some? ==> survivor.value !in losers && DistinctNames(losers)
    ensures NoWrap(ms) ==> (survivor.Some? <==> exists s :: Dominant(s, ms))
    ensures survivor.None? ==> losers == []
    ensures exists a, b :: TopTwo(ms, preStripAddr, a, b) && tie == TieReason(a.name, b.name)
  {
    var r := SortMasters(ms, preStripAddr);
    assert r[0] in ms && r[1] in ms && r[0].name != r[1].name;
    tie := TieReason(r[0].name, r[1].name);
    assert TopTwo(ms, preStripAddr, r[0], r[1]);
    if Wrap64(r[0].offset - r[1].offset) <= EPSILON {
      HeadRefused(r, ms);
      return None, [], tie;
    }
    survivor, losers := Some(r[0]), r[1..];
    assert r == [r[0]] + r[1..];
    HeadDominant(r, ms);
  }

  lemma HeadDominant(r: seq<DeFacto>, ms: seq<DeFacto>)
    requires |r| > 1 && DistinctNames(r) && (forall m :: m in ms <==> m in r)
    requires forall k :: 0 < k < |r| ==> r[k].offset <= r[1].offset <= r[0].offset
    requires Wrap64(r[0].offset - r[1].offset) > EPSILON
    ensures Dominant(r[0], ms) && r[0] !in r[1..] && DistinctNames(r[1..])
  {
  }

  lemma HeadRefused(r: seq<DeFacto>, ms: seq<DeFacto>)
    requires |r| > 1 && DistinctNames(r) && (forall m :: m in ms <==> m in r)
    requires forall k :: 0 < k < |r| ==> r[k].offset <= r[1].offset <= r[0].offset
    requires Wrap64(r[0].offset - r[1].offset) <= EPSILON
    ensures NoWrap(ms) ==> !exists s :: Dominant(s, ms)
  {
    if NoWrap(ms) {
      assert r[0] in ms && r[1] in ms && r[0] != r[1];
      assert forall k :: 0 <= k < |r| ==> r[k] in ms;
    }
  }

  /** At most one master is dominant: the one more than 4096 bytes ahead of every other. */
  lemma DominantUnique(ms: seq<DeFacto>, s: DeFacto, t: DeFacto)
    ensures Dominant(s, ms) && Dominant(t, ms) ==> s == t
    ensures Dominant(s, ms) <==> s in ms && forall m :: m in ms && m != s ==> s.offset > m.offset + 4096
  {
  }

  lemma {:induction false} MasterIsPod(pods: seq<Pod>, m: DeFacto)
    requires m in Masters(pods)
    ensures exists k :: 0 <= k < |pods| && pods[k].name == m.name
  {
    var n := |pods| - 1;
    var init := pods[..n];
    if m in Masters(init) {
      MasterIsPod(init, m);
      var k :| 0 <= k < |init| && init[k].name == m.name;
      assert pods[k].name == m.name;
    } else {
      assert pods[n].name == m.name;
    }
  }

  lemma {:induction false} MastersDistinct(pods: seq<Pod>)
    requires DistinctPods(pods)
    ensures DistinctNames(Masters(pods))
  {
    if pods != [] {
      var n := |pods| - 1;
      var init := pods[..n];
      MastersDistinct(init);
      forall m | m in Masters(init)
        ensures m.name != pods[n].name
      {
        MasterIsPod(init, m);
        var k :| 0 <= k < |init| && init[k].name == m.name;
        assert pods[k].name != pods[n].name;
      }
    }
  }

  // ----- one self-heal pass

  datatype Command = ReplicaOf(target: DeFacto, master: DeFacto) | ClientKill(target: DeFacto)

  datatype Outcome = Idle | Refused(reason: Reason, emitted: bool) | Committed(survivor: DeFacto, issued: seq<Command>)

  /** The reading of the cluster a pass is given, besides the pods. */
  datatype Context = Context(inFlight: bool, viewUnusable: bool, preStripAddr: string, preStripEpoch: int,
                             quorumEpoch: Option<int>)

  /** The observer's agreed epoch is below the failover's fence. */
  predicate EpochStale(c: Context) {
    c.preStripEpoch > 0 && c.quorumEpoch.Some? && c.quorumEpoch.value < c.preStripEpoch
  }

  /** Everything a commit needs besides the attempt budget. */
  ghost predicate Admits(pods: seq<Pod>, c: Context) {
    && c.inFlight && c.viewUnusable && !Pending(pods) && !OffsetMissing(pods)
    && |Masters(pods)| >= 2 && (exists s :: Dominant(s, Masters(pods))) && !EpochStale(c)
  }

  function Targets(issued: seq<Command>): seq<DeFacto> {
    if issued == [] then []
    else Targets(issued[..|issued|-1]) + if issued[|issued|-1].ReplicaOf? then [issued[|issued|-1].target] else []
  }

  /** Command `k` is where it belongs: REPLICAOF to the survivor, its CLIENT KILL right behind it if it was accepted. */
  ghost predicate InPlace(issued: seq<Command>, k: nat, survivor: DeFacto, accepted: DeFacto -> bool)
    requires k < |issued|
  {
    match issued[k]
    case ReplicaOf(l, master) =>
      master == survivor && (accepted(l) ==> k + 1 < |issued| && issued[k+1] == ClientKill(l))
    case ClientKill(l) =>
      accepted(l) && k > 0 && issued[k-1] == ReplicaOf(l, survivor)
  }

  ghost predicate Paired(issued: seq<Command>, survivor: DeFacto, accepted: DeFacto -> bool) {
    forall k :: 0 <= k < |issued| ==> InPlace(issued, k, survivor, accepted)
  }

  /** Demote every loser in order; a failed REPLICAOF skips its CLIENT KILL and goes on. */
  method Demote(losers: seq<DeFacto>, survivor: DeFacto, accepted: DeFacto -> bool) returns (issued: seq<Command>)
    ensures Targets(issued) == losers && Paired(issued, survivor, accepted)
  {
    issued := [];
    for i := 0 to |losers|
      invariant Targets(issued) == losers[..i] && Paired(issued, survivor, accepted)
    {
      var l := losers[i];
      ghost var before := issued;
      issued := issued + [ReplicaOf(l, survivor)];
      assert issued[..|issued|-1] == before;
      assert losers[..i+1] == losers[..i] + [l];
      if accepted(l) {
        ghost var demoted := issued;
        issued := issued + [ClientKill(l)];
        assert issued[..|issued|-1] == demoted;
      }
      PairedMore(before, l, survivor, accepted);
    }
    assert losers[..|losers|] == losers;
  }

  lemma PairedMore(issued: seq<Command>, l: DeFacto, survivor: DeFacto, accepted: DeFacto -> bool)
    requires Paired(issued, survivor, accepted)
    ensures var more := issued + [ReplicaOf(l, survivor)];
            if accepted(l) then Paired(more + [ClientKill(l)], survivor, accepted) else Paired(more, survivor, accepted)
  {
    var more := issued + [ReplicaOf(l, survivor)] + if accepted(l) then [ClientKill(l)] else [];
    forall k | 0 <= k < |more|
      ensures InPlace(more, k, survivor, accepted)
    {
      if k < |issued| {
        assert InPlace(issued, k, survivor, accepted);
      }
    }
    assert !accepted(l) ==> more == issued + [ReplicaOf(l, survivor)];
  }

  /** What precedes a whole pair, or a REPLICAOF that was not accepted, is well paired. */
  lemma PairedBefore(issued: seq<Command>, n: nat, survivor: DeFacto, accepted: DeFacto -> bool)
    requires Paired(issued, survivor, accepted) && n < |issued| && issued[n].ReplicaOf?
    ensures Paired(issued[..n], survivor, accepted)
  {
    forall k | 0 <= k < n
      ensures InPlace(issued[..n], k, survivor, accepted)
    {
      assert InPlace(issued, k, survivor, accepted);
    }
  }

  /** How often `c` was issued. */
  function Times(issued: seq<Command>, c: Command): nat {
    if issued == [] then 0 else Times(issued[..|issued|-1], c) + if issued[|issued|-1] == c then 1 else 0
  }

  /** How often `m` was told to follow. */
  function TimesTargeted(issued: seq<Command>, m: DeFacto): nat {
    if issued == [] then 0
    else
      TimesTargeted(issued[..|issued|-1], m) +
      if issued[|issued|-1].ReplicaOf? && issued[|issued|-1].target == m then 1 else 0
  }

  lemma {:induction false} TargetedTimes(issued: seq<Command>, m: DeFacto)
    ensures TimesTargeted(issued, m) == multiset(Targets(issued))[m]
  {
    if issued != [] {
      TargetedTimes(issued[..|issued|-1], m);
    }
  }

  /** Every kill matches one accepted REPLICAOF. */
  lemma {:induction false} KillsMatch(issued: seq<Command>, survivor: DeFacto, accepted: DeFacto -> bool, m: DeFacto)
    requires Paired(issued, survivor, accepted)
    ensures Times(issued, ClientKill(m)) == if accepted(m) then TimesTargeted(issued, m) else 0
    decreases |issued|
  {
    if issued != [] {
      var n := |issued| - 1;
      assert InPlace(issued, n, survivor, accepted);
      if issued[n].ClientKill? {
        var init := issued[..n];
        assert init[..n-1] == issued[..n-1] && init[n-1] == issued[n-1];
        PairedBefore(issued, n - 1, survivor, accepted);
        KillsMatch(issued[..n-1], survivor, accepted, m);
      } else {
        PairedBefore(issued, n, survivor, accepted);
        KillsMatch(issued[..n], survivor, accepted, m);
      }
    }
  }

  /** Each loser is told to follow once, and killed once if it accepted and never otherwise. */
  lemma KilledOnce(issued: seq<Command>, losers: seq<DeFacto>, survivor: DeFacto, accepted: DeFacto -> bool, m: DeFacto)
    requires Paired(issued, survivor, accepted) && Targets(issued) == losers && DistinctNames(losers)
    ensures TimesTargeted(issued, m) == if m in losers then 1 else 0
    ensures Times(issued, ClientKill(m)) == if m in losers && accepted(m) then 1 else 0
  {
    TargetedTimes(issued, m);
    KillsMatch(issued, survivor, accepted, m);
    OnceEach(losers, m);
    assert m in losers <==> m in multiset(losers);
  }

  class Healer {
    const bounds: Bounds

    constructor (bounds: Bounds)
      ensures this.bounds == bounds
    {
      this.bounds := bounds;
    }

    method Defer(reason: Reason, now: Instant) returns (out: Outcome)
      modifies bounds`deferEdge, bounds`deferLastAt
      ensures out == Refused(reason, DeferFires(old(bounds.DeferView()), reason, now))
      ensures bounds.DeferView() == DeferStep(old(bounds.DeferView()), Deferred(reason, now))
    {
      var fire := bounds.FireDeferEdge(reason, now);
      return Refused(reason, fire);
    }

    /**
     A pass commits only when it is admitted and budgeted, and with offsets whose
     differences fit 64 bits exactly then. On commit the survivor leads every
     other pod that answered as master by more than epsilon, is never a target,
     and every other one is sent REPLICAOF the survivor exactly once, followed by
     its CLIENT KILL if it accepted. Otherwise nothing is issued and the budget is
     untouched; what is refused and why is settled by the first gate that fails,
     and the refusal is announced as the paced deferrals say.
     */
    method Pass(pods: seq<Pod>, c: Context, now: Instant, accepted: DeFacto -> bool) returns (out: Outcome)
      requires DistinctPods(pods)
      modifies bounds
      ensures out.Committed? ==>
                && Admits(pods, c) && old(Allowed(bounds.BudgetView(), now, BASE_COOLDOWN, MAX_BACKOFF, MAX_ATTEMPTS))
                && Dominant(out.survivor, Masters(pods))
                && multiset(Targets(out.issued)) + multiset{out.survivor} == multiset(Masters(pods))
                && out.survivor !in Targets(out.issued) && DistinctNames(Targets(out.issued))
                && Paired(out.issued, out.survivor, accepted)
                && (c.preStripEpoch <= 0 || c.quorumEpoch.None? || c.quorumEpoch.value >= c.preStripEpoch)
      ensures (&& NoWrap(Masters(pods)) && Admits(pods, c)
               && old(Allowed(bounds.BudgetView(), now, BASE_COOLDOWN, MAX_BACKOFF, MAX_ATTEMPTS))) ==> out.Committed?
      ensures bounds.BudgetView() == if out.Committed? then Budget(old(bounds.attempts) + 1, now)
                                     else old(bounds.BudgetView())
      ensures out.Refused? ==>
                && out.emitted == DeferFires(old(bounds.DeferView()), out.reason, now)
                && bounds.DeferView() == DeferStep(old(bounds.DeferView()), Deferred(out.reason, now))
      ensures out.Idle? ==> bounds.DeferView() == old(bounds.DeferView())
      ensures out.Committed? ==> bounds.DeferView() == DeferStep(old(bounds.DeferView()), Rearm)
      ensures if !c.inFlight || !c.viewUnusable then out.Idle?
              else if Pending(pods) then
                if |MasterNames(pods)| >= 2 then out.Refused? && out.reason == PendingPods else out.Idle?
              else if OffsetMissing(pods) then out.Refused? && out.reason == NoOffset
              else if |Masters(pods)| < 2 then out.Idle?
              else if !old(Allowed(bounds.BudgetView(), now, BASE_COOLDOWN, MAX_BACKOFF, MAX_ATTEMPTS)) then
                out.Refused? && out.reason == Cooldown
              else
                || out.Committed?
                || (&& out.Refused? && c.preStripEpoch > 0 && c.quorumEpoch.Some? &&
                    c.quorumEpoch.value < c.preStripEpoch
                    && (exists s :: Dominant(s, Masters(pods)))
                    && out.reason == StaleEpoch(c.quorumEpoch.value, c.preStripEpoch))
                || (&& out.Refused? && (NoWrap(Masters(pods)) ==> !exists s :: Dominant(s, Masters(pods)))
                    && exists a, b ::
                         TopTwo(Masters(pods), c.preStripAddr, a, b) && out.reason == TieReason(a.name, b.name))
    {
      if !c.inFlight || !c.viewUnusable {
        return Idle;
      }
      var scan := ScanDeFactoMasters(pods);
      if scan.pending > 0 {
        if |scan.names| >= 2 {
          out := Defer(PendingPods, now);
          return;
        }
        return Idle;
      }
      if scan.sawNoOffset {
        out := Defer(NoOffset, now);
        return;
      }
      if |scan.masters| < 2 {
        return Idle;
      }
      var allowed := bounds.AttemptAllowed(now, BASE_COOLDOWN, MAX_BACKOFF, MAX_ATTEMPTS);
      if !allowed {
        out := Defer(Cooldown, now);
        return;
      }
      MastersDistinct(pods);
      var survivor, losers, tie := Elect(scan.masters, c.preStripAddr);
      if survivor.None? {
        out := Defer(tie, now);
        return;
      }
      if c.preStripEpoch > 0 && c.quorumEpoch.Some? && c.quorumEpoch.value < c.preStripEpoch {
        out := Defer(StaleEpoch(c.quorumEpoch.value, c.preStripEpoch), now);
        return;
      }
      bounds.RecordAttempt(now);
      bounds.RearmDeferEdge();
      var issued := Demote(losers, survivor.value, accepted);
      return Committed(survivor.value, issued);
    }

    /**
     One reconcile: a labelled primary gives the next split a full budget and
     re-arms the deferral event, whose pacing stamp stays; without one the heal
     runs. Either way the budget moves by a step of the paced runs.
     */
    method Visit(labelled: bool, pods: seq<Pod>, c: Context, now: Instant, accepted: DeFacto -> bool)
      returns (out: Outcome)
      requires DistinctPods(pods)
      modifies bounds
      ensures bounds.BudgetView() ==
              HealBudget.Step(old(bounds.BudgetView()),
                              if labelled then Reset else HealBudget.Pass(now, out.Committed?))
      ensures labelled ==> out.Idle? && bounds.DeferView() == DeferStep(old(bounds.DeferView()), Rearm)
      ensures labelled ==> forall t :: Allowed(bounds.BudgetView(), t, BASE_COOLDOWN, MAX_BACKOFF, MAX_ATTEMPTS)
      ensures out.Committed? ==> !labelled && Admits(pods, c) && Dominant(out.survivor, Masters(pods))
    {
      if labelled {
        bounds.ResetBudget();
        bounds.RearmDeferEdge();
        return Idle;
      }
      out := Pass(pods, c, now, accepted);
    }
  }

  // ----- the pod list's order does not matter

  ghost predicate AnswersAs(p: Pod, m: DeFacto) {
    p.ip != "" && p.reading.Master? && m == DeFacto(p.name, p.ip, p.reading.offset)
  }

  lemma {:induction false} MastersAre(pods: seq<Pod>, m: DeFacto)
    ensures m in Masters(pods) <==> exists p :: p in pods && AnswersAs(p, m)
  {
    if pods != [] {
      var init, p := pods[..|pods|-1], pods[|pods|-1];
      MastersAre(init, m);
      assert pods == init + [p];
      assert m in Masters(pods) <==> m in Masters(init) || AnswersAs(p, m);
    }
  }

  /** A pod that answered as a master, whether or not it can be ranked. */
  predicate AnswersMaster(p: Pod) {
    p.ip != "" && (p.reading.Master? || p.reading.MasterNoOffset?)
  }

  /** The names are those of the pods that answered as masters, one each. */
  lemma {:induction false} MasterNamesAre(pods: seq<Pod>, n: string)
    ensures n in MasterNames(pods) <==> exists k :: 0 <= k < |pods| && pods[k].name == n && AnswersMaster(pods[k])
    ensures |MasterNames(pods)| == |Answering(pods)|
  {
    if pods != [] {
      var last := |pods| - 1;
      var init := pods[..last];
      MasterNamesAre(init, n);
      assert forall k :: 0 <= k < last ==> init[k] == pods[k];
      assert Answering(pods) == Answering(init) + if AnswersMaster(pods[last]) then {last} else {};
    }
  }

  function Answering(pods: seq<Pod>): set<int> {
    set i | 0 <= i < |pods| && AnswersMaster(pods[i])
  }


  lemma TwoMasters(ms: seq<DeFacto>)
    requires DistinctNames(ms)
    ensures |ms| >= 2 <==> exists m, n :: m in ms && n in ms && m != n
  {
    if |ms| >= 2 {
      assert ms[0] in ms && ms[1] in ms && ms[0].name != ms[1].name;
    }
  }

  /**
   Two listings of the same pods admit the same commit, with the same survivor,
   whatever lineage address the tie-break would have consulted.
   */
  lemma ListOrderIrrelevant(a: seq<Pod>, b: seq<Pod>, c: Context, d: Context, s: DeFacto)
    requires DistinctPods(a) && DistinctPods(b) && (forall p :: p in a <==> p in b)
    requires d == c.(preStripAddr := d.preStripAddr)
    ensures Dominant(s, Masters(a)) <==> Dominant(s, Masters(b))
    ensures Admits(a, c) <==> Admits(b, d)
  {
    forall m
      ensures m in Masters(a) <==> m in Masters(b)
    {
      MastersAre(a, m);
      MastersAre(b, m);
    }
    MastersDistinct(a);
    MastersDistinct(b);
    TwoMasters(Masters(a));
    TwoMasters(Masters(b));
    assert forall t :: Dominant(t, Masters(a)) <==> Dominant(t, Masters(b));
  }
}
