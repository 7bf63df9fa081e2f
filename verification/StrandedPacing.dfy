/**
 Pacing of the stranded-sentinel surgery: a per-address record map rebuilt on
 every pass, a backoff level derived from each record, and the skip set the
 dispatcher hands to the surgery.
 */
module StrandedPacing {
  import opened Base
  import opened Names
  import opened Ordering

  const COOLDOWN: nat := 30 * SECOND
  const STUCK_THRESHOLD: nat := 3
  const MAX_LEVEL: nat := 3
  const STUCK_FRESHNESS: nat := 2 * 8 * COOLDOWN

  datatype Rec = Rec(noProgress: nat, lastWiped: Instant)

  function Level(noProgress: nat): (l: nat)
    ensures l <= MAX_LEVEL
    ensures l >= 1 <==> noProgress >= STUCK_THRESHOLD
  {
    if noProgress < STUCK_THRESHOLD then 0
    else if noProgress - STUCK_THRESHOLD + 1 < MAX_LEVEL then noProgress - STUCK_THRESHOLD + 1 else MAX_LEVEL
  }

  /** The cooldown shifted left by the level: 30s, 60s, 120s, 240s. */
  function Pace(level: nat): (d: nat)
    requires level <= MAX_LEVEL
    ensures COOLDOWN <= d <= 8 * COOLDOWN
  {
    if level == 0 then COOLDOWN
    else if level == 1 then 2 * COOLDOWN
    else if level == 2 then 4 * COOLDOWN
    else 8 * COOLDOWN
  }

  /** A stuck record whose lengthened cadence has not elapsed. */
  predicate Paced(r: Rec, now: Instant) {
    Level(r.noProgress) >= 1 && now - r.lastWiped < Pace(Level(r.noProgress))
  }

  function SkipSet(recs: map<string, Rec>, now: Instant): set<string> {
    set a | a in recs && Paced(recs[a], now)
  }

  /** The re-wipe interval in seconds after `n` wipes without progress. */
  function Seconds(n: nat): nat {
    if n < 3 then 30 else if n == 3 then 60 else if n == 4 then 120 else 240
  }

  /** A tracked address is skipped exactly while its count is at least three and that time has not passed. */
  lemma SkipExactly(recs: map<string, Rec>, now: Instant)
    ensures forall a :: a in SkipSet(recs, now) <==>
              a in recs && recs[a].noProgress >= 3 && now - recs[a].lastWiped < Seconds(recs[a].noProgress) * SECOND
  {
    assert forall a :: a in recs && recs[a].noProgress >= 3 ==>
             Pace(Level(recs[a].noProgress)) == Seconds(recs[a].noProgress) * SECOND;
  }

  /** Each level doubles the cadence, from 30 seconds at level 0 to 240 at level 3. */
  lemma PaceDoubles(level: nat)
    requires level <= MAX_LEVEL
    ensures Pace(0) == 30 * SECOND && Pace(MAX_LEVEL) == 240 * SECOND
    ensures level < MAX_LEVEL ==> Pace(level + 1) == 2 * Pace(level)
  {
  }

  function Get(recs: map<string, Rec>, a: string): Option<Rec> {
    if a in recs then Some(recs[a]) else None
  }

  /** One address's record after one fold. */
  function FoldRec(r: Option<Rec>, wiped: bool, skipped: bool, authFailed: bool, now: Instant): Option<Rec> {
    if skipped && r.Some? then r
    else if !wiped then None
    else
      var prior := if r.None? || now - r.value.lastWiped > STUCK_FRESHNESS then 0 else r.value.noProgress;
      var n := if authFailed && prior + 1 < STUCK_THRESHOLD then STUCK_THRESHOLD else prior + 1;
      Some(Rec(n, now))
  }

  /** The rebuilt map: exactly the wiped addresses and the skipped tracked ones. */
  function FoldMap(recs: map<string, Rec>, wiped: set<string>, skipped: set<string>, authFailed: set<string>,
                   now: Instant): map<string, Rec> {
    map a | a in wiped + (skipped * recs.Keys) ::
      FoldRec(Get(recs, a), a in wiped, a in skipped, a in authFailed, now).value
  }

  function Stuck(recs: map<string, Rec>): set<string> {
    set a | a in recs && Level(recs[a].noProgress) >= 1
  }

  lemma FoldMapIsFoldRec(recs: map<string, Rec>, wiped: set<string>, skipped: set<string>, authFailed: set<string>,
                         now: Instant, a: string)
    ensures Get(FoldMap(recs, wiped, skipped, authFailed, now), a) ==
            FoldRec(Get(recs, a), a in wiped, a in skipped, a in authFailed, now)
  {
  }

  lemma FoldMapSkipsOne(recs: map<string, Rec>, wiped: set<string>, skipped: set<string>, authFailed: set<string>,
                        now: Instant, a: string)
    ensures FoldMap(recs, wiped, skipped + {a}, authFailed, now) ==
            var m := FoldMap(recs, wiped, skipped, authFailed, now); if a in recs then m[a := recs[a]] else m
  {
    var m, n := FoldMap(recs, wiped, skipped, authFailed, now), FoldMap(recs, wiped, skipped + {a}, authFailed, now);
    assert n.Keys == if a in recs then m.Keys + {a} else m.Keys;
    forall b | b in n.Keys
      ensures n[b] == if b == a && a in recs then recs[a] else m[b]
    {
      FoldMapIsFoldRec(recs, wiped, skipped, authFailed, now, b);
      FoldMapIsFoldRec(recs, wiped, skipped + {a}, authFailed, now, b);
    }
  }

  lemma FoldMapSeedsOne(recs: map<string, Rec>, wiped: set<string>, authFailed: set<string>, now: Instant, a: string)
    ensures FoldMap(recs, wiped, {}, authFailed + {a}, now) ==
            var m := FoldMap(recs, wiped, {}, authFailed, now);
            if a in m && m[a].noProgress < STUCK_THRESHOLD then m[a := m[a].(noProgress := STUCK_THRESHOLD)] else m
  {
    var m, n := FoldMap(recs, wiped, {}, authFailed, now), FoldMap(recs, wiped, {}, authFailed + {a}, now);
    assert n.Keys == m.Keys;
    assert forall b :: b in n && b != a ==> n[b] == m[b];
  }

  /** One recovery result, with pod names already mapped to addresses. */
  datatype Outcome = Outcome(probed: bool, healthy: bool, otherWork: bool,
                             wiped: seq<string>, skipped: seq<string>, authFailed: seq<string>) {
    /** Neither healthy nor gate-deferred: the detector runs. */
    predicate Folds() {
      !healthy && (otherWork || wiped != [] || skipped != [])
    }
  }

  function NextRecs(recs: map<string, Rec>, o: Outcome, now: Instant): map<string, Rec> {
    if o.healthy then map[]
    else if o.Folds() then FoldMap(recs, Elements(o.wiped), Elements(o.skipped), Elements(o.authFailed), now)
    else recs
  }

  class Tracker {
    var probedAt: Instant
    var recs: map<string, Rec>
    var stuck: bool
    var stuckAt: Instant
    var edge: string
    ghost var edgeAddrs: seq<string>  // the addresses `edge` was joined from

    constructor ()
      ensures Valid() && probedAt == 0 && recs == map[] && !stuck && edgeAddrs == []
    {
      probedAt, recs, stuck, stuckAt, edge, edgeAddrs := 0, map[], false, 0, "", [];
    }

    ghost predicate Valid()
      reads this
    {
      && StrictlySorted(edgeAddrs, Less) && (forall a :: a in edgeAddrs ==> Key(a)) && edge == Join(edgeAddrs)
      && (forall a :: a in recs ==> Key(a))
    }

    method Skip(now: Instant) returns (skip: set<string>)
      ensures skip == SkipSet(recs, now)
      ensures forall a :: a in skip <==>
                a in recs && recs[a].noProgress >= 3 && now - recs[a].lastWiped < Seconds(recs[a].noProgress) * SECOND
    {
      SkipExactly(recs, now);
      skip := {};
      var todo := recs.Keys;
      while todo != {}
        invariant todo <= recs.Keys
        invariant skip == set a | a in recs.Keys - todo && Paced(recs[a], now)
      {
        var a :| a in todo;
        todo := todo - {a};
        var level := Level(recs[a].noProgress);
        if level < 1 {
          continue;
        }
        if now - recs[a].lastWiped >= Pace(level) {
          continue;
        }
        skip := skip + {a};
      }
    }

    /** First rebuild loop: every wiped address restarts or advances its count. */
    method CountWiped(wiped: seq<string>, now: Instant) returns (next: map<string, Rec>)
      ensures next == FoldMap(recs, Elements(wiped), {}, {}, now)
    {
      next := map[];
      for i := 0 to |wiped|
        invariant next == FoldMap(recs, Elements(wiped[..i]), {}, {}, now)
      {
        var a := wiped[i];
        ElementsUpTo(wiped, i);
        var n := if a in recs then recs[a].noProgress else 0;
        var last := if a in recs then recs[a].lastWiped else 0;
        if now - last > STUCK_FRESHNESS {
          n := 0;
        }
        next := next[a := Rec(n + 1, now)];
      }
      assert wiped[..|wiped|] == wiped;
    }

    /** Second rebuild loop: a wiped address that cannot authenticate is stuck at once. */
    method SeedAuthFailed(counted: map<string, Rec>, wiped: set<string>, authFailed: seq<string>, now: Instant)
      returns (next: map<string, Rec>)
      requires counted == FoldMap(recs, wiped, {}, {}, now)
      ensures next == FoldMap(recs, wiped, {}, Elements(authFailed), now)
    {
      next := counted;
      for i := 0 to |authFailed|
        invariant next == FoldMap(recs, wiped, {}, Elements(authFailed[..i]), now)
      {
        var a := authFailed[i];
        ElementsUpTo(authFailed, i);
        FoldMapSeedsOne(recs, wiped, Elements(authFailed[..i]), now, a);
        if a in next && next[a].noProgress < STUCK_THRESHOLD {
          next := next[a := next[a].(noProgress := STUCK_THRESHOLD)];
        }
      }
      assert authFailed[..|authFailed|] == authFailed;
    }

    /** Third rebuild loop: a paced address carries its record forward untouched. */
    method CarrySkipped(seeded: map<string, Rec>, wiped: set<string>, skipped: seq<string>, authFailed: set<string>,
                        now: Instant)
      returns (next: map<string, Rec>)
      requires seeded == FoldMap(recs, wiped, {}, authFailed, now)
      ensures next == FoldMap(recs, wiped, Elements(skipped), authFailed, now)
    {
      next := seeded;
      for i := 0 to |skipped|
        invariant next == FoldMap(recs, wiped, Elements(skipped[..i]), authFailed, now)
      {
        var a := skipped[i];
        ElementsUpTo(skipped, i);
        FoldMapSkipsOne(recs, wiped, Elements(skipped[..i]), authFailed, now, a);
        if a in recs {
          next := next[a := recs[a]];
        }
      }
      assert skipped[..|skipped|] == skipped;
    }

    /** Collect and sort the stuck addresses, and the deepest level among them. */
    method Collect() returns (sorted: seq<string>, deepest: nat)
      ensures StrictlySorted(sorted, Less) && Elements(sorted) == Stuck(recs)
      ensures forall a :: a in Stuck(recs) ==> Level(recs[a].noProgress) <= deepest
      ensures if Stuck(recs) == {} then deepest == 0
              else exists a :: a in Stuck(recs) && Level(recs[a].noProgress) == deepest
    {
      sorted, deepest := [], 0;
      var todo := recs.Keys;
      while todo != {}
        invariant todo <= recs.Keys
        invariant StrictlySorted(sorted, Less)
        invariant Elements(sorted) == set a | a in recs.Keys - todo && Level(recs[a].noProgress) >= 1
        invariant forall a :: a in Elements(sorted) ==> Level(recs[a].noProgress) <= deepest
        invariant if Elements(sorted) == {} then deepest == 0
                  else exists a :: a in Elements(sorted) && Level(recs[a].noProgress) == deepest
      {
        var a :| a in todo;
        todo := todo - {a};
        var level := Level(recs[a].noProgress);
        if level >= 1 {
          sorted := MergeNames(sorted, [a]);
          if level > deepest {
            deepest := level;
          }
        }
      }
    }

    /** Rebuild the map, then raise or drop the stuck flag and its event edge. */
    method Detect(wiped: seq<string>, skipped: seq<string>, authFailed: seq<string>, now: Instant)
      returns (addrs: seq<string>, fire: bool, deepest: nat)
      requires Valid() && forall a :: a in wiped ==> Key(a)
      modifies this
      ensures Valid() && probedAt == old(probedAt)
      ensures recs == FoldMap(old(recs), Elements(wiped), Elements(skipped), Elements(authFailed), now)
      ensures StrictlySorted(addrs, Less) && Elements(addrs) == Stuck(recs)
      ensures stuck <==> Stuck(recs) != {}
      ensures stuck ==> stuckAt == now && edgeAddrs == addrs
      ensures !stuck ==> edgeAddrs == []
      ensures fire <==> Stuck(recs) != {} && Stuck(recs) != old(Elements(edgeAddrs))
      ensures forall a :: a in Stuck(recs) ==> Level(recs[a].noProgress) <= deepest
    {
      var next := CountWiped(wiped, now);
      next := SeedAuthFailed(next, Elements(wiped), authFailed, now);
      next := CarrySkipped(next, Elements(wiped), skipped, Elements(authFailed), now);
      recs := next;
      addrs, deepest := Collect();
      assert forall a :: a in addrs <==> a in Elements(addrs);
      NonEmptyElements(addrs);
      if |addrs| == 0 {
        stuck, edge, edgeAddrs := false, "", [];
        return [], false, 0;
      }
      stuck, stuckAt := true, now;
      KeysAgree(addrs, edgeAddrs);
      var sig := Join(addrs);
      fire := edge != sig;
      edge, edgeAddrs := sig, addrs;
    }

    method ClearStuck()
      requires Valid()
      modifies this`recs, this`stuck, this`edge, this`edgeAddrs
      ensures Valid() && recs == map[] && !stuck && edgeAddrs == []
    {
      recs, stuck, edge, edgeAddrs := map[], false, "", [];
    }

    /** Fold one dispatched recovery: stamp the probe, then clear, defer or detect. */
    method Apply(o: Outcome, now: Instant) returns (fire: bool)
      requires Valid() && forall a :: a in o.wiped ==> Key(a)
      modifies this
      ensures Valid() && recs == NextRecs(old(recs), o, now)
      ensures probedAt == if o.probed then now else old(probedAt)
      ensures fire <==> o.Folds() && Stuck(recs) != {} && Stuck(recs) != old(Elements(edgeAddrs))
    {
      if o.probed {
        probedAt := now;
      }
      if o.healthy {
        ClearStuck();
        return false;
      }
      if !o.otherWork && |o.wiped| == 0 && |o.skipped| == 0 {
        return false;
      }
      var addrs, deepest;
      addrs, fire, deepest := Detect(o.wiped, o.skipped, o.authFailed, now);
    }

    function Value(): World
      reads this
    {
      World(recs, probedAt)
    }

    /**
     The dispatcher: the probe gate, the skip set, the surgery, the fold. A pass
     that gets through is a step of the runs below, legal whenever the surgery
     respects the skip set it is handed; one that does not changes nothing.
     */
    method Recover(probeNow: Instant, skipNow: Instant, now: Instant, surgery: set<string> -> Outcome)
      returns (dispatched: bool, fire: bool)
      requires Valid() && forall skip, a :: a in surgery(skip).wiped ==> Key(a)
      modifies this
      ensures Valid() && (dispatched <==> probeNow - old(probedAt) >= COOLDOWN)
      ensures !dispatched ==> Value() == old(Value()) && !fire
      ensures dispatched ==>
                var p := Pass(probeNow, skipNow, now, surgery(SkipSet(old(recs), skipNow)));
                && Value() == Next(old(Value()), p)
                && (probeNow <= skipNow <= now && Respects(p.o, SkipSet(old(recs), skipNow)) ==>
                    Dispatches(old(Value()), p))
    {
      if probeNow - probedAt < COOLDOWN {
        return false, false;
      }
      var skip := Skip(skipNow);
      fire := Apply(surgery(skip), now);
      dispatched := true;
    }

    /** The status read; an unrefreshed flag expires and re-arms the event. */
    method StuckOrExpire(now: Instant) returns (active: bool)
      requires Valid()
      modifies this`stuck, this`edge, this`edgeAddrs
      ensures Valid()
      ensures active <==> old(stuck) && now - stuckAt <= STUCK_FRESHNESS
      ensures active ==> stuck && edgeAddrs == old(edgeAddrs)
      ensures old(stuck) && !active ==> !stuck && edgeAddrs == []
    {
      if stuck && now - stuckAt <= STUCK_FRESHNESS {
        return true;
      }
      if stuck {
        stuck, edge, edgeAddrs := false, "", [];
      }
      return false;
    }
  }

  // ----- runs of dispatches

  /** One dispatch: the clock at the probe gate, at the skip set and at the fold. */
  datatype Pass = Pass(probeNow: Instant, skipNow: Instant, now: Instant, o: Outcome)

  datatype World = World(recs: map<string, Rec>, probedAt: Instant)

  function Next(w: World, p: Pass): World {
    World(NextRecs(w.recs, p.o, p.now), if p.o.probed then p.now else w.probedAt)
  }

  /**
   The surgery keeps its side: it wipes no address it was told to skip, skips
   only such addresses, and reports a wipe only after classifying.
   */
  predicate Respects(o: Outcome, skip: set<string>) {
    && Elements(o.wiped) !! skip && Elements(o.skipped) <= skip
    && (o.wiped != [] ==> o.probed) && (o.healthy ==> o.wiped == [] && o.skipped == [])
  }

  /** The pass got through the probe gate, and the surgery kept its side. */
  predicate Dispatches(w: World, p: Pass) {
    && p.probeNow <= p.skipNow <= p.now && p.probeNow - w.probedAt >= COOLDOWN
    && Respects(p.o, SkipSet(w.recs, p.skipNow))
  }

  /** The worlds `ws` are what the passes `ps` lead through. */
  ghost predicate Legal(ws: seq<World>, ps: seq<Pass>) {
    && |ws| == |ps| + 1
    && (forall k :: 0 <= k < |ps| ==> Dispatches(ws[k], ps[k]))
    && (forall k :: 0 <= k < |ps| ==> ws[k+1] == Next(ws[k], ps[k]))
  }

  lemma NextAt(w: World, p: Pass, a: string)
    ensures Get(Next(w, p).recs, a) ==
            if p.o.healthy then None
            else if p.o.Folds() then FoldRec(Get(w.recs, a), a in p.o.wiped, a in p.o.skipped, a in p.o.authFailed,
                                             p.now)
            else Get(w.recs, a)
  {
    FoldMapIsFoldRec(w.recs, Elements(p.o.wiped), Elements(p.o.skipped), Elements(p.o.authFailed), p.now, a);
  }

  lemma WipeStep(v: World, p: Pass, a: string)
    requires Dispatches(v, p) && a in p.o.wiped
    ensures a in Next(v, p).recs && Next(v, p).recs[a].lastWiped == p.now == Next(v, p).probedAt
  {
    NextAt(v, p, a);
    assert a in Elements(p.o.wiped);
    assert a !in Elements(p.o.skipped);
  }

  lemma CarryStep(v: World, p: Pass, a: string)
    requires Dispatches(v, p) && a !in p.o.wiped && a in Next(v, p).recs
    ensures a in v.recs && Next(v, p).recs[a] == v.recs[a] && v.probedAt <= Next(v, p).probedAt
  {
    NextAt(v, p, a);
  }

  /** Between wipes a tracked address keeps its record, and the probe stamp never goes back. */
  lemma {:induction false} RecordCarried(ws: seq<World>, ps: seq<Pass>, a: string, i: nat, j: nat)
    requires i < j <= |ps| && Legal(ws, ps) && a in ps[i].o.wiped
    requires forall k :: i < k < j ==> a !in ps[k].o.wiped
    requires forall k :: i < k <= j ==> a in ws[k].recs
    ensures ws[j].recs[a] == ws[i+1].recs[a] && ws[i+1].recs[a].lastWiped == ps[i].now <= ws[j].probedAt
  {
    if j > i + 1 {
      RecordCarried(ws, ps, a, i, j - 1);
      assert ws[j-1+1] == Next(ws[j-1], ps[j-1]);
      CarryStep(ws[j-1], ps[j-1], a);
    } else {
      WipeStep(ws[i], ps[i], a);
    }
  }

  /**
   In every legal run, two successive wipes of an address tracked in between are
   at least 30 seconds apart if its count after the first was below three, 60 at
   three, 120 at four and 240 from five on. The second wipe counts one more inside
   the freshness window of eight minutes and starts over at one outside it; an
   authentication failure lifts the count to three at least.
   */
  lemma WipesPaced(ws: seq<World>, ps: seq<Pass>, a: string, i: nat, j: nat)
    requires i < j < |ps| && Legal(ws, ps) && a in ps[i].o.wiped && a in ps[j].o.wiped
    requires forall k :: i < k < j ==> a !in ps[k].o.wiped
    requires forall k :: i < k <= j ==> a in ws[k].recs
    ensures var n, gap := ws[i+1].recs[a].noProgress, ps[j].now - ps[i].now;
            && gap >= 30 * SECOND && (n == 3 ==> gap >= 60 * SECOND)
            && (n == 4 ==> gap >= 120 * SECOND) && (n >= 5 ==> gap >= 240 * SECOND)
    ensures a in ws[j+1].recs && ws[j+1].recs[a].lastWiped == ps[j].now
    ensures var n := if ps[j].now - ps[i].now <= 480 * SECOND then ws[i+1].recs[a].noProgress + 1 else 1;
            ws[j+1].recs[a].noProgress == if a in ps[j].o.authFailed && n < 3 then 3 else n
  {
    RecordCarried(ws, ps, a, i, j);
    WipeAgain(ws[j], ps[j], a);
  }

  lemma WipeAgain(v: World, p: Pass, a: string)
    requires Dispatches(v, p) && a in p.o.wiped && a in v.recs && v.recs[a].lastWiped <= v.probedAt
    ensures p.now - v.recs[a].lastWiped >= Seconds(v.recs[a].noProgress) * SECOND
    ensures a in Next(v, p).recs && Next(v, p).recs[a].lastWiped == p.now
    ensures var n := if p.now - v.recs[a].lastWiped <= 480 * SECOND then v.recs[a].noProgress + 1 else 1;
            Next(v, p).recs[a].noProgress == if a in p.o.authFailed && n < 3 then 3 else n
  {
    SkipExactly(v.recs, p.skipNow);
    NextAt(v, p, a);
    assert a in Elements(p.o.wiped);
    assert a !in SkipSet(v.recs, p.skipNow);
    assert a !in Elements(p.o.skipped);
  }

  /** The first wipe of an address that is not tracked counts one, or three if it failed to authenticate. */
  lemma FirstWipe(v: World, p: Pass, a: string)
    requires Dispatches(v, p) && a in p.o.wiped && a !in v.recs
    ensures a in Next(v, p).recs && Next(v, p).recs[a] == Rec(if a in p.o.authFailed then 3 else 1, p.now)
  {
    WipeStep(v, p, a);
    NextAt(v, p, a);
    assert a !in Elements(p.o.skipped);
  }

  /**
   An address is tracked after a pass exactly when the pass was not healthy and
   wiped it, or it was tracked before and was skipped or the pass did nothing at
   all.
   */
  lemma TrackedExactly(v: World, p: Pass, a: string)
    ensures a in Next(v, p).recs <==>
            && !p.o.healthy
            && (|| a in p.o.wiped
                || (a in v.recs && (a in p.o.skipped || (!p.o.otherWork && p.o.wiped == [] && p.o.skipped == []))))
  {
    NextAt(v, p, a);
  }

  /** The record `r` of `a` dates from its last wipe, pass `i`. */
  ghost predicate LastWipe(ps: seq<Pass>, a: string, i: nat, r: Rec) {
    i < |ps| && a in ps[i].o.wiped && r.lastWiped == ps[i].now && forall k :: i < k < |ps| ==> a !in ps[k].o.wiped
  }

  lemma {:induction false} TrackedWasWiped(ws: seq<World>, ps: seq<Pass>, a: string) returns (i: nat)
    requires Legal(ws, ps) && ws[0].recs == map[] && a in ws[|ps|].recs
    ensures LastWipe(ps, a, i, ws[|ps|].recs[a])
  {
    var n := |ps| - 1;
    if a in ps[n].o.wiped {
      i := n;
      WipeStep(ws[n], ps[n], a);
    } else {
      CarryStep(ws[n], ps[n], a);
      i := TrackedWasWiped(ws[..n+1], ps[..n], a);
    }
  }

  /**
   The skip set of any pass of any legal run holds only addresses wiped earlier
   in the run, at most 240 seconds before; an address never wiped is never
   skipped, and a wedged one is always retried.
   */
  lemma SkippedRecently(ws: seq<World>, ps: seq<Pass>, now: Instant, a: string) returns (i: nat)
    requires Legal(ws, ps) && ws[0].recs == map[] && a in SkipSet(ws[|ps|].recs, now)
    ensures i < |ps| && a in ps[i].o.wiped && now - ps[i].now < 8 * COOLDOWN
    ensures forall k :: i < k < |ps| ==> a !in ps[k].o.wiped
  {
    i := TrackedWasWiped(ws, ps, a);
  }

  // ----- non-interference

  function Run(w: World, ps: seq<Pass>): World
    decreases |ps|
  {
    if ps == [] then w else Run(Next(w, ps[0]), ps[1..])
  }

  /** The two passes look the same to address `a`. */
  predicate SameFor(p: Pass, q: Pass, a: string) {
    SameToward(p, q, a) && p.o.Folds() == q.o.Folds()
  }

  /**
   Although every pass rebuilds the whole map, an address's record depends only
   on what the passes did to it, whatever happened to every other address.
   */
  lemma {:induction false} NonInterference(v: World, w: World, ps: seq<Pass>, qs: seq<Pass>, a: string)
    requires Get(v.recs, a) == Get(w.recs, a) && |ps| == |qs|
    requires forall k :: 0 <= k < |ps| ==> SameFor(ps[k], qs[k], a)
    ensures Get(Run(v, ps).recs, a) == Get(Run(w, qs).recs, a)
    decreases |ps|
  {
    if ps != [] {
      assert SameFor(ps[0], qs[0], a);
      NextAt(v, ps[0], a);
      NextAt(w, qs[0], a);
      NonInterference(Next(v, ps[0]), Next(w, qs[0]), ps[1..], qs[1..], a);
    }
  }

  /** Everything the two passes do to address `a` itself is the same. */
  predicate SameToward(p: Pass, q: Pass, a: string) {
    && p.now == q.now && p.o.healthy == q.o.healthy
    && (a in p.o.wiped <==> a in q.o.wiped) && (a in p.o.skipped <==> a in q.o.skipped)
    && (a in p.o.authFailed <==> a in q.o.authFailed)
  }

  /**
   Other addresses reach `a` through the deferral and in no other way: two
   passes that treat `a` alike leave it the same record exactly when they are
   healthy, when both fold or both defer, or when `a` is not tracked. Otherwise
   the one that folds, on account of some other address, drops the record that
   the one that defers keeps.
   */
  lemma DeferralInterferes(w: World, p: Pass, q: Pass, a: string)
    requires SameToward(p, q, a)
    ensures Get(Next(w, p).recs, a) == Get(Next(w, q).recs, a) <==>
            p.o.healthy || p.o.Folds() == q.o.Folds() || a !in w.recs
  {
    NextAt(w, p, a);
    NextAt(w, q, a);
  }
}
