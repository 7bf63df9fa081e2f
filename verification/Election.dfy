/**
 The zero-master recovery election and the bounded stale-replica escape: which
 replica would be promoted, which may be deleted, and why deleting it never
 changes the election.
 */
module Election {
  import opened Base
  import opened Names
  import opened Ordering

  const ESCAPE_DWELL: nat := 600 * SECOND
  const ESCAPE_COOLDOWN: nat := 600 * SECOND
  const PROMOTION_COOLDOWN: nat := 60 * SECOND

  /** One reachable replica's INFO reading; `offset` means something only if `rankable`. */
  datatype Replica = Replica(name: string, ip: string, linkUp: bool, masterHost: string, rankable: bool, offset: int)

  datatype Survey = Survey(live: set<string>, pending: nat, dialed: bool, masters: nat, replicas: seq<Replica>,
                           dialFailures: nat)

  /** Every replica is link-down and orphaned by one and the same dead master. */
  predicate OneDeadLineage(rs: seq<Replica>, live: set<string>) {
    && (forall r :: r in rs ==> !r.linkUp && r.masterHost != "" && r.masterHost !in live)
    && (forall i, j :: 0 <= i < j < |rs| ==> rs[i].masterHost == rs[j].masterHost)
  }

  predicate Admissible(s: Survey, endpoints: nat) {
    && s.dialed && s.dialFailures == 0 && s.pending == 0
    && s.masters == 0 && s.replicas != [] && endpoints > 0
    && OneDeadLineage(s.replicas, s.live)
  }

  /** The admission loop with its running lineage host. */
  method SurveyAdmits(s: Survey, endpoints: nat) returns (ok: bool)
    ensures ok <==> Admissible(s, endpoints)
    ensures ok <==>
            && s.dialed && s.dialFailures == 0 && s.pending == 0 && s.masters == 0 && |s.replicas| > 0 && endpoints > 0
            && exists dead :: dead != "" && dead !in s.live && forall r :: r in s.replicas ==>
              !r.linkUp && r.masterHost == dead
  {
    if !s.dialed || s.dialFailures > 0 || s.pending > 0 {
      return false;
    }
    if s.masters != 0 || |s.replicas| == 0 || endpoints == 0 {
      return false;
    }
    var lineage := "";
    for i := 0 to |s.replicas|
      invariant OneDeadLineage(s.replicas[..i], s.live)
      invariant if i == 0 then lineage == "" else lineage != ""
      invariant forall k :: 0 <= k < i ==> s.replicas[k].masterHost == lineage
    {
      var r := s.replicas[i];
      assert r in s.replicas;
      if r.linkUp || r.masterHost == "" || r.masterHost in s.live {
        return false;
      }
      if lineage != "" && r.masterHost != lineage {
        assert s.replicas[0].masterHost != s.replicas[i].masterHost;
        return false;
      }
      lineage := r.masterHost;
      assert s.replicas[..i+1] == s.replicas[..i] + [r];
    }
    assert s.replicas[..|s.replicas|] == s.replicas;
    assert s.replicas[0] in s.replicas;
    return true;
  }

  // ----- the candidate

  /** `a` outranks `b`: more applied data, then the lower name. */
  predicate Outranks(a: Replica, b: Replica) {
    a.offset > b.offset || (a.offset == b.offset && Less(a.name, b.name))
  }

  lemma OutranksOrder(a: Replica, b: Replica, c: Replica)
    ensures !(Outranks(a, b) && Outranks(b, a))
    ensures Outranks(a, b) && Outranks(b, c) ==> Outranks(a, c)
    ensures !Outranks(a, b) && !Outranks(b, c) ==> !Outranks(a, c)
    ensures Outranks(a, b) && !Outranks(c, b) ==> Outranks(a, c)
    ensures !Outranks(b, a) && Outranks(b, c) ==> Outranks(a, c)
  {
    LessTotal(a.name, b.name);
    LessTotal(b.name, c.name);
    LessTotal(a.name, c.name);
    LessIsOrder();
  }

  /** Index `b` is the election's choice: the first rankable replica nobody outranks. */
  ghost predicate Chosen(rs: seq<Replica>, b: int) {
    && 0 <= b < |rs| && rs[b].rankable
    && (forall j :: 0 <= j < |rs| && rs[j].rankable ==> !Outranks(rs[j], rs[b]))
    && (forall j :: 0 <= j < b && rs[j].rankable ==> Outranks(rs[b], rs[j]))
  }

  method ChoosePromotionCandidate(rs: seq<Replica>) returns (best: int)
    ensures best == -1 <==> forall r :: r in rs ==> !r.rankable
    ensures best != -1 ==> Chosen(rs, best)
    ensures best != -1 ==> forall r :: r in rs && r.rankable ==>
              r.offset <= rs[best].offset && (r.offset == rs[best].offset ==> !Less(r.name, rs[best].name))
  {
    best := -1;
    for i := 0 to |rs|
      invariant best == -1 <==> forall k :: 0 <= k < i ==> !rs[k].rankable
      invariant best != -1 ==> 0 <= best < i && Chosen(rs[..i], best)
    {
      ghost var seen, next := rs[..i], rs[..i+1];
      assert next == seen + [rs[i]];
      if !rs[i].rankable {
        continue;
      }
      if best == -1 {
        best := i;
        OutranksOrder(rs[i], rs[i], rs[i]);
        continue;
      }
      KeepOrReplace(seen, rs[i], best);
      if rs[i].offset > rs[best].offset || (rs[i].offset == rs[best].offset && Less(rs[i].name, rs[best].name)) {
        best := i;
      }
    }
    assert rs[..|rs|] == rs;
  }

  lemma KeepOrReplace(rs: seq<Replica>, x: Replica, b: int)
    requires Chosen(rs, b) && x.rankable
    ensures Chosen(rs + [x], if Outranks(x, rs[b]) then |rs| else b)
  {
    OutranksOrder(x, x, x);
    forall j | 0 <= j < |rs| && rs[j].rankable && Outranks(x, rs[b])
      ensures Outranks(x, rs[j]) && !Outranks(rs[j], x)
    {
      OutranksOrder(x, rs[b], rs[j]);
      OutranksOrder(x, rs[j], x);
    }
  }

  lemma ChosenUnique(rs: seq<Replica>, b: int, c: int)
    requires Chosen(rs, b) && Chosen(rs, c)
    ensures b == c
  {
  }

  // ----- the victim

  ghost predicate Deletable(rs: seq<Replica>, eligible: seq<bool>, protected: int, v: int) {
    0 <= v < |rs| == |eligible| && eligible[v] && v != protected && rs[v].rankable
  }

  method ChooseEscapeVictim(rs: seq<Replica>, eligible: seq<bool>, protected: int) returns (victim: int)
    requires |eligible| == |rs|
    ensures victim == -1 <==> forall v :: !Deletable(rs, eligible, protected, v)
    ensures victim == -1 <==> forall v :: 0 <= v < |rs| && eligible[v] && rs[v].rankable ==> v == protected
    ensures victim != -1 ==> Deletable(rs, eligible, protected, victim)
    ensures victim != -1 ==> forall v :: Deletable(rs, eligible, protected, v) ==> rs[victim].offset <= rs[v].offset
    ensures victim != -1 ==> forall v :: Deletable(rs, eligible, protected, v) && rs[v].offset == rs[victim].offset ==>
                                           !Less(rs[victim].name, rs[v].name)
  {
    victim := -1;
    LessIsOrder();
    for i := 0 to |rs|
      invariant victim == -1 <==> forall v :: v < i ==> !Deletable(rs, eligible, protected, v)
      invariant victim != -1 ==> victim < i && Deletable(rs, eligible, protected, victim)
      invariant victim != -1 ==> forall v :: v < i && Deletable(rs, eligible, protected, v) ==>
                                   rs[victim].offset <= rs[v].offset
      invariant victim != -1 ==> forall v :: v < i && Deletable(rs, eligible, protected, v) ==>
                                   (rs[v].offset == rs[victim].offset ==> !Less(rs[victim].name, rs[v].name))
    {
      if !eligible[i] || i == protected {
        continue;
      }
      if !rs[i].rankable {
        continue;
      }
      assert Deletable(rs, eligible, protected, i);
      if victim == -1 {
        victim := i;
        continue;
      }
      if rs[i].offset < rs[victim].offset || (rs[i].offset == rs[victim].offset && Less(rs[victim].name, rs[i].name)) {
        victim := i;
      }
    }
    assert forall v :: 0 <= v < |rs| && eligible[v] && rs[v].rankable ==>
             Deletable(rs, eligible, protected, v) || v == protected;
  }

  function Without(rs: seq<Replica>, v: nat): seq<Replica>
    requires v < |rs|
  {
    rs[..v] + rs[v+1..]
  }

  /**
   Deleting any rankable replica other than the candidate deletes no fresher
   data than the candidate holds, and the election over what is left picks the
   same pod.
   */
  lemma EscapeKeepsElection(rs: seq<Replica>, c: nat, v: nat)
    requires Chosen(rs, c) && v < |rs| && v != c && rs[v].rankable
    ensures rs[v].offset <= rs[c].offset
    ensures Chosen(Without(rs, v), if v < c then c - 1 else c)
    ensures Without(rs, v)[if v < c then c - 1 else c] == rs[c]
  {
    var left := Without(rs, v);
    assert forall j :: 0 <= j < |left| ==> left[j] == rs[if j < v then j else j + 1];
    assert !Outranks(rs[v], rs[c]);
  }

  /** One escape on a survey: at least two replicas, and the candidate is spared. */
  ghost predicate Escapes(rs: seq<Replica>, left: seq<Replica>) {
    |rs| >= 2 && exists c, v :: Chosen(rs, c) && Spares(rs, left, c, v)
  }

  ghost predicate Spares(rs: seq<Replica>, left: seq<Replica>, c: int, v: int) {
    0 <= v < |rs| && v != c && rs[v].rankable && left == Without(rs, v)
  }

  /** The pod the election over `rs` promotes. */
  ghost predicate Promotes(rs: seq<Replica>, pod: Replica) {
    exists b :: Chosen(rs, b) && rs[b] == pod
  }

  /**
   Any number of escapes on one survey, whichever replicas were eligible each
   time, leaves at least one replica, keeps the pod the first election would
   have promoted as the choice, and never kept it at the expense of fresher data.
   */
  lemma {:induction false} EscapesKeepElection(surveys: seq<seq<Replica>>, pod: Replica)
    requires surveys != [] && Promotes(surveys[0], pod)
    requires forall k :: 0 < k < |surveys| ==> Escapes(surveys[k-1], surveys[k])
    ensures Promotes(surveys[|surveys|-1], pod) && |surveys[|surveys|-1]| >= 1
    ensures forall r :: r in surveys[0] && r.rankable ==> r.offset <= pod.offset
  {
    if |surveys| == 1 {
      var b :| Chosen(surveys[0], b) && surveys[0][b] == pod;
      assert forall r :: r in surveys[0] && r.rankable ==> !Outranks(r, pod);
    } else {
      var init := surveys[..|surveys|-1];
      forall k | 0 < k < |init|
        ensures Escapes(init[k-1], init[k])
      {
        assert Escapes(surveys[k-1], surveys[k]);
      }
      EscapesKeepElection(init, pod);
      LastEscape(init[|init|-1], surveys[|surveys|-1], pod);
    }
  }

  lemma LastEscape(rs: seq<Replica>, left: seq<Replica>, pod: Replica)
    requires Promotes(rs, pod) && Escapes(rs, left)
    ensures Promotes(left, pod) && |left| >= 1
  {
    var b :| Chosen(rs, b) && rs[b] == pod;
    var c, v :| Chosen(rs, c) && Spares(rs, left, c, v);
    ChosenUnique(rs, b, c);
    EscapeKeepsElection(rs, c, v);
  }

  // ----- the guarded escape

  /** What Phase 8 knows when it considers the escape. */
  datatype Facts = Facts(sentinelMode: bool, failoverInFlight: bool, promotionLastFired: Instant, endpoints: nat)

  /** Every guard of the escape holds and some replica may be deleted. */
  ghost predicate EscapeDue(noPrimarySince: Instant, lastFired: Instant, s: Survey, eligible: seq<bool>, f: Facts,
                            now: Instant) {
    && noPrimarySince != 0 && now - noPrimarySince >= ESCAPE_DWELL
    && (lastFired == 0 || now - lastFired >= ESCAPE_COOLDOWN)
    && (f.promotionLastFired == 0 || now - f.promotionLastFired >= PROMOTION_COOLDOWN)
    && f.sentinelMode && !f.failoverInFlight && Admissible(s, f.endpoints) && |s.replicas| >= 2
    && exists c, v :: Chosen(s.replicas, c) && Deletable(s.replicas, eligible, c, v)
  }

  class EscapeState {
    var noPrimarySince: Instant
    var lastFired: Instant

    constructor ()
      ensures noPrimarySince == 0 && lastFired == 0
    {
      noPrimarySince, lastFired := 0, 0;
    }

    function Value(): Window
      reads this
    {
      Window(noPrimarySince, lastFired)
    }

    /**
     One replica is deleted exactly when the escape is due and the API accepts,
     and the deletion is an escape: the candidate survives and stays the choice.
     */
    method MaybeEscape(s: Survey, eligible: seq<bool>, f: Facts, now: Instant, accepted: bool) returns (victim: int)
      requires |eligible| == |s.replicas|
      modifies this`lastFired
      ensures victim != -1 <==> accepted && old(EscapeDue(noPrimarySince, lastFired, s, eligible, f, now))
      ensures lastFired == if victim == -1 then old(lastFired) else now
      ensures victim != -1 ==>
                0 <= victim < |s.replicas| && eligible[victim] && Escapes(s.replicas, Without(s.replicas, victim))
    {
      if noPrimarySince == 0 || now - noPrimarySince < ESCAPE_DWELL {
        return -1;
      }
      if !f.sentinelMode {
        return -1;
      }
      if !(lastFired == 0 || now - lastFired >= ESCAPE_COOLDOWN) {
        return -1;
      }
      if f.failoverInFlight {
        return -1;
      }
      if f.promotionLastFired != 0 && now - f.promotionLastFired < PROMOTION_COOLDOWN {
        return -1;
      }
      if f.endpoints == 0 {
        return -1;
      }
      var ok := SurveyAdmits(s, f.endpoints);
      if !ok {
        return -1;
      }
      if |s.replicas| < 2 {
        return -1;
      }
      var protected := ChoosePromotionCandidate(s.replicas);
      if protected == -1 {
        return -1;
      }
      assert forall c :: Chosen(s.replicas, c) ==> c == protected;
      victim := ChooseEscapeVictim(s.replicas, eligible, protected);
      if victim < 0 || !accepted {
        return -1;
      }
      assert Spares(s.replicas, Without(s.replicas, victim), protected, victim);
      lastFired := now;
    }

    /**
     Phase 8 around the escape: open or close the no-primary window, then escape
     unless a replica was already deleted this pass. The two stamps move by a
     step of the runs below.
     */
    method Phase8(noPrimary: bool, deleted: bool, s: Survey, eligible: seq<bool>, f: Facts, now: Instant,
                  accepted: bool)
      returns (victim: int)
      requires |eligible| == |s.replicas|
      modifies this
      ensures Value() == Next(old(Value()), Reconcile(now, noPrimary, victim != -1))
      ensures victim != -1 ==> Fires(old(Value()), Reconcile(now, noPrimary, true))
      ensures victim != -1 <==>
              noPrimary && !deleted && accepted && EscapeDue(noPrimarySince, old(lastFired), s, eligible, f, now)
      ensures victim != -1 ==>
                && f.sentinelMode && !f.failoverInFlight && f.endpoints > 0 && |s.replicas| >= 2
                && (f.promotionLastFired == 0 || now - f.promotionLastFired >= 60 * SECOND)
                && s.dialed && s.dialFailures == 0 && s.pending == 0 && s.masters == 0
                && (forall r :: r in s.replicas ==> !r.linkUp && r.masterHost !in s.live)
                && 0 <= victim < |s.replicas| && eligible[victim]
    {
      if noPrimary {
        if noPrimarySince == 0 {
          noPrimarySince := now;
        }
      } else {
        noPrimarySince := 0;
      }
      victim := -1;
      if noPrimary && !deleted {
        victim := MaybeEscape(s, eligible, f, now, accepted);
      }
    }

    /** A prune of the per-CR trackers forgets both stamps. */
    method Prune()
      modifies this
      ensures Value() == Next(old(Value()), Pruned)
    {
      noPrimarySince, lastFired := 0, 0;
    }
  }

  // ----- escapes over runs

  /** Since when no pod has carried role=primary, and when the last escape was; 0 for neither. */
  datatype Window = Window(since: Instant, lastFired: Instant)

  /** One Phase 8, `due` being whether its other guards and the API let it delete; or a prune. */
  datatype Turn = Reconcile(now: Instant, noPrimary: bool, due: bool) | Pruned

  function Since(w: Window, t: Turn): Instant {
    if t.Pruned? || !t.noPrimary then 0 else if w.since == 0 then t.now else w.since
  }

  predicate Fires(w: Window, t: Turn) {
    && t.Reconcile? && t.due
    && Since(w, t) != 0 && t.now - Since(w, t) >= ESCAPE_DWELL
    && (w.lastFired == 0 || t.now - w.lastFired >= ESCAPE_COOLDOWN)
  }

  function Next(w: Window, t: Turn): Window {
    Window(Since(w, t), if t.Pruned? then 0 else if Fires(w, t) then t.now else w.lastFired)
  }

  function After(ts: seq<Turn>): Window {
    if ts == [] then Window(0, 0) else Next(After(ts[..|ts|-1]), ts[|ts|-1])
  }

  /** Turn `i` opened the no-primary window that is still open after `ts`. */
  ghost predicate Opened(ts: seq<Turn>, i: nat) {
    && i < |ts| && (forall k :: i <= k < |ts| ==> ts[k].Reconcile? && ts[k].noPrimary)
    && After(ts).since == ts[i].now
  }

  lemma {:induction false} WindowOpened(ts: seq<Turn>) returns (i: nat)
    requires After(ts).since != 0
    ensures Opened(ts, i)
  {
    var n := |ts| - 1;
    if After(ts[..n]).since != 0 {
      i := WindowOpened(ts[..n]);
      assert forall k :: i <= k < n ==> ts[..n][k] == ts[k];
    } else {
      i := n;
    }
  }

  /** Turn `k` of the run escapes. */
  ghost predicate EscapesAt(ts: seq<Turn>, k: nat) {
    k < |ts| && Fires(After(ts[..k]), ts[k])
  }

  lemma {:induction false} LastEscapeKept(ts: seq<Turn>, m: nat, k: nat)
    requires m < k <= |ts| && EscapesAt(ts, m) && forall j :: m < j < k ==> !ts[j].Pruned?
    ensures 0 < ts[m].now <= After(ts[..k]).lastFired
  {
    assert ts[..k][..k-1] == ts[..k-1];
    if k > m + 1 {
      LastEscapeKept(ts, m, k - 1);
    }
  }

  /** The clock never runs backwards. */
  ghost predicate Forward(ts: seq<Turn>) {
    forall i, j :: 0 <= i < j < |ts| && ts[i].Reconcile? && ts[j].Reconcile? ==> ts[i].now <= ts[j].now
  }

  /**
   In every run of reconciles and prunes: an escape ends an unbroken stretch of
   reconciles without a labelled primary at least ten minutes long. Two escapes
   are at least ten minutes apart: by the cooldown if nothing was pruned between
   them, and otherwise by the dwell, which a prune restarts, unless the clock
   runs backwards.
   */
  lemma EscapesPaced(ts: seq<Turn>, k: nat) returns (i: nat)
    requires EscapesAt(ts, k)
    ensures i <= k && (forall j :: i <= j <= k ==> ts[j].Reconcile? && ts[j].noPrimary)
    ensures ts[k].now - ts[i].now >= ESCAPE_DWELL
    ensures forall m :: 0 <= m < k && EscapesAt(ts, m) && (Forward(ts) || forall j :: m < j < k ==> !ts[j].Pruned?) ==>
              ts[k].now - ts[m].now >= ESCAPE_COOLDOWN
  {
    var upTo := ts[..k+1];
    assert upTo[..k] == ts[..k] && upTo[k] == ts[k];
    i := WindowOpened(upTo);
    assert forall j :: i <= j <= k ==> upTo[j] == ts[j];
    forall m | 0 <= m < k && EscapesAt(ts, m) && (Forward(ts) || forall j :: m < j < k ==> !ts[j].Pruned?)
      ensures ts[k].now - ts[m].now >= ESCAPE_COOLDOWN
    {
      if forall j :: m < j < k ==> !ts[j].Pruned? {
        LastEscapeKept(ts, m, k);
      } else {
        var j :| m < j < k && ts[j].Pruned?;
        assert m < j < i;
      }
    }
  }
}
