/**
 Phase 7: which role label every pod should carry, the settling damp that
 delays moving role=primary, and the two patch passes that promote before they
 demote.
 */
module RoleLabels {
  import opened Base

  datatype Role = Primary | Replica

  type Labels = seq<Option<Role>>

  /** A listed pod; `first` is the bootstrap rule's ordinal 0, an empty `ip` is unscheduled. */
  datatype Pod = Pod(ip: string, first: bool)

  /** The observer's snapshot; `host` is the host part of `addr`, absent if it does not split. */
  datatype Snapshot = Snapshot(present: bool, quorumOk: bool, addr: string, host: Option<string>, epoch: int,
                               polledAt: Instant)

  /** The settling tracker: the address, its streak of fresh polls and their span. */
  datatype Streak = Streak(addr: string, firstPolled: Instant, lastPolled: Instant, polls: nat)

  const STABLE_POLLS: nat := 2

  function Fold(s: Option<Streak>, addr: string, polledAt: Instant): Option<Streak> {
    if addr == "" then None
    else if s.None? || s.value.addr != addr then Some(Streak(addr, polledAt, polledAt, 1))
    else if polledAt > s.value.lastPolled then Some(s.value.(polls := s.value.polls + 1, lastPolled := polledAt))
    else s
  }

  /** What Phase 7 does with the labels: nothing, or the wanted label of each pod. */
  datatype Plan = Suppress | Assign(want: seq<Option<Role>>)

  function Unclassified(n: nat): seq<Option<Role>> {
    seq(n, _ => None)
  }

  function Bootstrap(pods: seq<Pod>): seq<Option<Role>> {
    seq(|pods|, i requires 0 <= i < |pods| => if pods[i].first then Some(Primary) else Some(Replica))
  }

  function BySnapshot(pods: seq<Pod>, host: string): seq<Option<Role>> {
    seq(|pods|, i requires 0 <= i < |pods| =>
      if pods[i].ip != "" && pods[i].ip == host then Some(Primary) else Some(Replica))
  }

  predicate AnyLabelled(labels: Labels) {
    exists l :: l in labels && l.Some?
  }

  predicate Matches(pods: seq<Pod>, host: string) {
    host != "" && exists p :: p in pods && p.ip == host
  }

  /** The last index satisfying a test, as the scan loop leaves it; -1 if none. */
  function LastPrimary(labels: Labels): (i: int)
    ensures -1 <= i < |labels|
  {
    if labels == [] then -1
    else if labels[|labels|-1] == Some(Primary) then |labels| - 1 else LastPrimary(labels[..|labels|-1])
  }

  function LastAt(pods: seq<Pod>, host: string): int {
    if pods == [] then -1
    else if pods[|pods|-1].ip != "" && pods[|pods|-1].ip == host then |pods| - 1 else LastAt(pods[..|pods|-1], host)
  }

  lemma {:induction false} MatchFound(pods: seq<Pod>, host: string)
    ensures Matches(pods, host) ==> LastAt(pods, host) != -1
  {
    if pods != [] {
      MatchFound(pods[..|pods|-1], host);
      assert pods == pods[..|pods|-1] + [pods[|pods|-1]];
    }
  }

  /** The move is damped: another pod is labelled and the new address has not settled. */
  predicate Damped(pods: seq<Pod>, labels: Labels, host: string, polls: nat) {
    && LastPrimary(labels) != -1 && LastAt(pods, host) != -1 && LastPrimary(labels) != LastAt(pods, host)
    && polls < STABLE_POLLS
  }

  /** The sentinel-mode decision: the tracker afterwards and the plan. */
  function Decide(snap: Snapshot, latched: bool, s: Option<Streak>, pods: seq<Pod>, labels: Labels)
    : (Option<Streak>, Plan)
    requires |labels| == |pods|
  {
    if !snap.present then (s, Assign(if AnyLabelled(labels) then Unclassified(|pods|) else Bootstrap(pods)))
    else if !snap.quorumOk || latched then (s, Suppress)
    else if snap.host.None? then (s, Assign(Bootstrap(pods)))
    else if !Matches(pods, snap.host.value) then (s, Suppress)
    else
      var t := Fold(s, snap.addr, snap.polledAt);
      var polls := if t.Some? then t.value.polls else 0;
      (t, if Damped(pods, labels, snap.host.value, polls) then Suppress else Assign(BySnapshot(pods, snap.host.value)))
  }

  class Phase7 {
    const pods: seq<Pod>
    var labels: Labels
    var stability: Option<Streak>
    ghost var folded: seq<(string, Instant)>  // every reading folded into `stability`
    ghost var trace: seq<Labels>              // every labelling the API server has held

    ghost predicate Valid()
      reads this
    {
      && |labels| == |pods| && trace != [] && trace[|trace|-1] == labels
      && stability == Streaks(folded)
    }

    constructor (pods: seq<Pod>, labels: Labels)
      requires |labels| == |pods|
      ensures Valid() && this.pods == pods && this.labels == labels && folded == [] && trace == [labels]
    {
      this.pods, this.labels, stability, folded, trace := pods, labels, None, [], [labels];
    }

    method ObserveStability(addr: string, polledAt: Instant) returns (polls: nat)
      requires Valid()
      modifies this`stability, this`folded
      ensures Valid() && stability == Fold(old(stability), addr, polledAt) && folded == old(folded) + [(addr, polledAt)]
      ensures polls == if stability.Some? then stability.value.polls else 0
    {
      StreaksAfter(folded, addr, polledAt);
      folded := folded + [(addr, polledAt)];
      if addr == "" {
        stability := None;
        return 0;
      }
      if stability.None? || stability.value.addr != addr {
        stability := Some(Streak(addr, polledAt, polledAt, 1));
        return 1;
      }
      if polledAt > stability.value.lastPolled {
        stability := Some(stability.value.(polls := stability.value.polls + 1, lastPolled := polledAt));
      }
      return stability.value.polls;
    }

    /**
     The scan that reads the labelled pod and the snapshot's pod off one list,
     behind the guards. A plan that takes role=primary from its pod has seen two
     polls of the new address, the later strictly newer, with no other in between,
     unless the address does not split into host and port: then no poll counts.
     */
    method DesiredRoles(snap: Snapshot, latched: bool) returns (plan: Plan)
      requires Valid()
      modifies this`stability, this`folded
      ensures Valid() && (stability, plan) == Decide(snap, latched, old(stability), pods, labels)
      ensures folded == old(folded) || folded == old(folded) + [(snap.addr, snap.polledAt)]
      ensures Moves(plan, labels) ==>
                if snap.host.Some? then snap.addr != "" && Settled(folded, snap.addr) else folded == old(folded)
    {
      MovesExactly(folded, snap, latched, pods, labels);
      if !snap.present {
        if AnyLabelled(labels) {
          return Assign(Unclassified(|pods|));
        }
        return Assign(Bootstrap(pods));
      }
      if !snap.quorumOk {
        return Suppress;
      }
      if latched {
        return Suppress;
      }
      if snap.host.None? {
        return Assign(Bootstrap(pods));
      }
      var host := snap.host.value;
      if !Matches(pods, host) {
        return Suppress;
      }
      var polls := ObserveStability(snap.addr, snap.polledAt);
      var current, desired := -1, -1;
      for i := 0 to |pods|
        invariant current == LastPrimary(labels[..i]) && desired == LastAt(pods[..i], host)
      {
        assert labels[..i+1][..i] == labels[..i] && pods[..i+1][..i] == pods[..i];
        if pods[i].ip != "" && pods[i].ip == host {
          desired := i;
        }
        if labels[i] == Some(Primary) {
          current := i;
        }
      }
      assert labels[..|pods|] == labels && pods[..|pods|] == pods;
      if current != -1 && desired != -1 && current != desired && polls < STABLE_POLLS {
        return Suppress;
      }
      return Assign(BySnapshot(pods, host));
    }

    /** Patch one pod unless it already carries the label; `ok` is the API's answer. */
    method PatchOne(i: nat, want: Role, ok: bool) returns (done: bool)
      requires Valid() && i < |pods|
      modifies this`labels, this`trace
      ensures Valid() && (done <==> ok || old(labels)[i] == Some(want))
      ensures labels == if done then old(labels)[i := Some(want)] else old(labels)
      ensures trace == old(trace) || trace == old(trace) + [labels]
    {
      if labels[i] == Some(want) {
        return true;
      }
      if !ok {
        return false;
      }
      labels := labels[i := Some(want)];
      trace := trace + [labels];
      return true;
    }

    /** Remove the role label of a pod; a pod without one needs no patch. */
    method StripLabel(i: nat, ok: bool) returns (done: bool)
      requires Valid() && i < |pods|
      modifies this`labels, this`trace
      ensures Valid() && (done <==> ok || old(labels)[i] == None)
      ensures labels == if done then old(labels)[i := None] else old(labels)
    {
      if labels[i] == None {
        return true;
      }
      if !ok {
        return false;
      }
      labels := labels[i := None];
      trace := trace + [labels];
      return true;
    }

    /**
     Both passes. Whatever patch fails, every labelling the API server held on
     the way is an intermediate one; a completed run leaves every classified pod
     with its wanted label.
     */
    method ApplyPlan(plan: Plan, ok: nat -> bool) returns (done: bool)
      requires Valid() && (plan.Assign? ==> |plan.want| == |pods|)
      modifies this`labels, this`trace
      ensures Valid() && old(trace) <= trace
      ensures plan.Suppress? ==> done && labels == old(labels) && trace == old(trace)
      ensures plan.Assign? ==>
                forall k :: |old(trace)| <= k < |trace| ==> Intermediate(old(labels), plan.want, trace[k])
      ensures plan.Assign? ==> Intermediate(old(labels), plan.want, labels)
      ensures done ==> Completes(plan, old(labels), labels)
    {
      if plan.Suppress? {
        return true;
      }
      var want := plan.want;
      ghost var l0 := labels;
      for i := 0 to |pods|
        invariant Valid() && old(trace) <= trace && Promoted(l0, want, labels, i)
        invariant forall k :: |old(trace)| <= k < |trace| ==> Intermediate(l0, want, trace[k])
      {
        if want[i] != Some(Primary) {
          continue;
        }
        var patched := PatchOne(i, Primary, ok(i));
        PromotedIsIntermediate(l0, want, labels, if patched then i + 1 else i);
        if !patched {
          return false;
        }
      }
      for i := 0 to |pods|
        invariant Valid() && old(trace) <= trace && Demoted(l0, want, labels, i)
        invariant forall k :: |old(trace)| <= k < |trace| ==> Intermediate(l0, want, trace[k])
      {
        if want[i].None? || want[i] == Some(Primary) {
          continue;
        }
        var patched := PatchOne(i, want[i].value, ok(i));
        DemotedIsIntermediate(l0, want, labels, if patched then i + 1 else i);
        if !patched {
          return false;
        }
      }
      DemotedIsIntermediate(l0, want, labels, |pods|);
      return true;
    }
  }

  /** Every patch of the plan has landed. */
  ghost predicate Completes(plan: Plan, l0: Labels, l: Labels) {
    if plan.Suppress? then l == l0
    else
      && |l0| == |plan.want| == |l|
      && forall i :: 0 <= i < |l| ==> l[i] == if plan.want[i].Some? then plan.want[i] else l0[i]
  }

  /** Some but no wrong patches have landed, and no demotion before every promotion. */
  ghost predicate Intermediate(l0: Labels, want: seq<Option<Role>>, l: Labels) {
    && |l0| == |want| == |l|
    && (forall i :: 0 <= i < |l| ==> l[i] == l0[i] || (want[i].Some? && l[i] == want[i]))
    && ((exists i :: 0 <= i < |l| && want[i] == Some(Replica) && l[i] != l0[i]) ==>
          forall i :: 0 <= i < |l| && want[i] == Some(Primary) ==> l[i] == Some(Primary))
  }

  /** Pass 1 has reached pod `n`. */
  ghost predicate Promoted(l0: Labels, want: seq<Option<Role>>, l: Labels, n: nat) {
    && |l0| == |want| == |l|
    && forall i :: 0 <= i < |l| ==> l[i] == if i < n && want[i] == Some(Primary) then Some(Primary) else l0[i]
  }

  /** Pass 2 has reached pod `n`. */
  ghost predicate Demoted(l0: Labels, want: seq<Option<Role>>, l: Labels, n: nat) {
    && |l0| == |want| == |l|
    && forall i :: 0 <= i < |l| ==>
         l[i] == if want[i] == Some(Primary) || (i < n && want[i].Some?) then want[i] else l0[i]
  }

  lemma PromotedIsIntermediate(l0: Labels, want: seq<Option<Role>>, l: Labels, n: nat)
    requires Promoted(l0, want, l, n)
    ensures Intermediate(l0, want, l)
  {
  }

  lemma DemotedIsIntermediate(l0: Labels, want: seq<Option<Role>>, l: Labels, n: nat)
    requires Demoted(l0, want, l, n)
    ensures Intermediate(l0, want, l)
  {
  }

  function Primaries(l: Labels): set<int> {
    set i | 0 <= i < |l| && l[i] == Some(Primary)
  }

  ghost predicate DistinctIPs(pods: seq<Pod>) {
    forall i, j :: 0 <= i < j < |pods| && pods[i].ip == pods[j].ip ==> pods[i].ip == ""
  }

  /**
   Add before remove: with distinct pod IPs and the snapshot's host among them,
   starting from exactly one labelled primary, every labelling the two passes go
   through, completed or cut short, has one or two primaries and never none; the
   completed one has exactly the pod at the snapshot's address.
   */
  lemma NeverZeroPrimaries(pods: seq<Pod>, host: string, l0: Labels, l: Labels, was: int)
    requires |l0| == |pods| && DistinctIPs(pods) && Matches(pods, host)
    requires Primaries(l0) == {was} && Intermediate(l0, BySnapshot(pods, host), l)
    ensures 1 <= |Primaries(l)| <= 2
    ensures exists d :: 0 <= d < |pods| && pods[d].ip == host && Primaries(l) <= {was, d}
                        && (l == BySnapshot(pods, host) ==> Primaries(l) == {d})
  {
    var p :| p in pods && p.ip == host;
    var d :| 0 <= d < |pods| && pods[d] == p;
    var want := BySnapshot(pods, host);
    forall i | 0 <= i < |pods|
      ensures want[i] == if i == d then Some(Primary) else Some(Replica)
    {
      if i < d {
        assert pods[i].ip != host;
      } else if d < i {
        assert pods[i].ip != host;
      }
    }
    assert was in Primaries(l0);
    assert Primaries(l) <= {was, d} by {
      forall i | i in Primaries(l)
        ensures i == was || i == d
      {
        assert l[i] == l0[i] || l[i] == want[i];
        assert l0[i] == Some(Primary) ==> i in Primaries(l0);
      }
    }
    assert was in Primaries(l) || d in Primaries(l);
    Bounded(Primaries(l), was, d);
    if l == want {
      assert Primaries(l) == {d};
    }
  }

  lemma Bounded(s: set<int>, a: int, b: int)
    requires s <= {a, b} && s != {}
    ensures 1 <= |s| <= 2
  {
    assert s == {a, b} || s == {a} || s == {b};
  }

  // ----- the settling damp over runs

  function Streaks(h: seq<(string, Instant)>): Option<Streak> {
    if h == [] then None else Fold(Streaks(h[..|h|-1]), h[|h|-1].0, h[|h|-1].1)
  }

  lemma StreaksAfter(h: seq<(string, Instant)>, addr: string, polledAt: Instant)
    ensures Streaks(h + [(addr, polledAt)]) == Fold(Streaks(h), addr, polledAt)
  {
    var h' := h + [(addr, polledAt)];
    assert h'[..|h'|-1] == h;
  }

  /** The plan takes role=primary away from the pod labelled with it. */
  predicate Moves(plan: Plan, labels: Labels) {
    && plan.Assign? && LastPrimary(labels) != -1
    && LastPrimary(labels) < |plan.want| && plan.want[LastPrimary(labels)] == Some(Replica)
  }

  /** Reading `i` starts the trailing streak of `addr`. */
  ghost predicate Starts(h: seq<(string, Instant)>, addr: string, i: int) {
    && 0 <= i < |h| && (forall k :: i <= k < |h| ==> h[k].0 == addr) && (i > 0 ==> h[i-1].0 != addr)
  }

  /** The trailing streak of `addr` holds a poll strictly newer than the one that opened it. */
  ghost predicate Settled(h: seq<(string, Instant)>, addr: string) {
    exists i, j :: Starts(h, addr, i) && i < j < |h| && h[j].1 > h[i].1
  }

  /** What the streak record says about the readings from `i` on. */
  ghost predicate StreakFrom(h: seq<(string, Instant)>, addr: string, s: Streak, i: int) {
    && Starts(h, addr, i) && s.addr == addr && s.firstPolled == h[i].1 && s.polls >= 1
    && (s.polls >= 2 <==> s.lastPolled > s.firstPolled)
    && (forall k :: i <= k < |h| ==> h[k].1 <= s.lastPolled)
    && exists k :: i <= k < |h| && h[k].1 == s.lastPolled
  }

  ghost predicate StreakMeans(h: seq<(string, Instant)>, addr: string, s: Streak) {
    exists i :: StreakFrom(h, addr, s, i)
  }

  lemma {:induction false} StreaksMean(h: seq<(string, Instant)>)
    requires h != [] && h[|h|-1].0 != ""
    ensures Streaks(h).Some? && StreakMeans(h, h[|h|-1].0, Streaks(h).value)
  {
    var init, o := h[..|h|-1], h[|h|-1];
    assert h == init + [o];
    if init != [] && init[|init|-1].0 == o.0 {
      StreaksMean(init);
      StreakExtends(init, o, Streaks(init).value);
    } else {
      assert Streaks(init).Some? ==> Streaks(init).value.addr != o.0 by {
        if init != [] && init[|init|-1].0 != "" {
          StreaksMean(init);
        }
      }
      assert h[|init|].1 == o.1;
      assert StreakFrom(h, o.0, Streaks(h).value, |init|);
    }
  }

  lemma StreakExtends(h: seq<(string, Instant)>, o: (string, Instant), s: Streak)
    requires h != [] && o.0 != "" && StreakMeans(h, o.0, s)
    ensures Fold(Some(s), o.0, o.1).Some? && StreakMeans(h + [o], o.0, Fold(Some(s), o.0, o.1).value)
  {
    var h' := h + [o];
    var i :| StreakFrom(h, o.0, s, i);
    assert Starts(h', o.0, i);
    var t := Fold(Some(s), o.0, o.1).value;
    assert forall k :: i <= k < |h'| ==> h'[k].1 <= t.lastPolled;
    var k :| i <= k < |h| && h[k].1 == s.lastPolled;
    assert h'[k].1 == s.lastPolled && h'[|h|].1 == o.1;
    assert StreakFrom(h', o.0, t, i);
  }

  lemma SettledFrom(h: seq<(string, Instant)>, addr: string, s: Streak, i: int)
    requires StreakFrom(h, addr, s, i)
    ensures s.polls >= 2 <==> Settled(h, addr)
  {
    forall m | Starts(h, addr, m)
      ensures m == i
    {
      StartsUnique(h, addr, i, m);
    }
    if s.polls >= 2 {
      var k :| i <= k < |h| && h[k].1 == s.lastPolled;
      assert h[k].1 > h[i].1 && k != i;
    }
  }

  /**
   The tracker counts two or more fresh polls of an address exactly when, since
   the last reading of any other address, some poll of it was strictly newer
   than the first; replays of one poll, however many, never settle it.
   */
  lemma SettledExactly(h: seq<(string, Instant)>, addr: string)
    ensures h != [] && h[|h|-1].0 == addr != "" ==>
              Streaks(h).Some? && (Streaks(h).value.polls >= STABLE_POLLS <==> Settled(h, addr))
  {
    if h != [] && h[|h|-1].0 == addr != "" {
      StreaksMean(h);
      var i :| StreakFrom(h, addr, Streaks(h).value, i);
      SettledFrom(h, addr, Streaks(h).value, i);
    }
  }

  lemma {:induction false} LastAtIs(pods: seq<Pod>, host: string)
    ensures var d := LastAt(pods, host);
            && -1 <= d < |pods| && (d != -1 ==> pods[d].ip != "" && pods[d].ip == host)
            && forall o :: d < o < |pods| ==> pods[o].ip == "" || pods[o].ip != host
  {
    if pods != [] {
      LastAtIs(pods[..|pods|-1], host);
    }
  }

  /**
   The damp, exactly: a pass takes role=primary from its pod if and only if a
   quorate snapshot is read past the latch and either its address points at a
   different listed pod and has settled, or it does not split and the pod is not
   the bootstrap rule's first.
   */
  lemma MovesExactly(h: seq<(string, Instant)>, snap: Snapshot, latched: bool, pods: seq<Pod>, labels: Labels)
    requires |labels| == |pods|
    ensures var c := LastPrimary(labels);
            Moves(Decide(snap, latched, Streaks(h), pods, labels).1, labels) <==>
            && snap.present && snap.quorumOk && !latched && c != -1
            && if snap.host.None? then !pods[c].first
               else
                 && Matches(pods, snap.host.value) && pods[c].ip != snap.host.value
                 && snap.addr != "" && Settled(h + [(snap.addr, snap.polledAt)], snap.addr)
  {
    StreaksAfter(h, snap.addr, snap.polledAt);
    SettledExactly(h + [(snap.addr, snap.polledAt)], snap.addr);
    if snap.host.Some? {
      MatchFound(pods, snap.host.value);
      LastAtIs(pods, snap.host.value);
    }
    assert LastPrimary(labels) != -1 ==> AnyLabelled(labels) by {
      PrimaryLabelled(labels);
    }
  }

  lemma {:induction false} NoPrimary(labels: Labels)
    ensures LastPrimary(labels) == -1 <==> Primaries(labels) == {}
  {
    if labels != [] {
      var n := |labels| - 1;
      NoPrimary(labels[..n]);
      assert Primaries(labels) == Primaries(labels[..n]) + if labels[n] == Some(Primary) then {n} else {};
    }
  }

  /**
   An initial stamp is not damped: with no pod labelled primary, whatever the
   streak, a completed pass over a quorate snapshot past the latch leaves exactly
   the pod at its host primary and every other pod a replica.
   */
  lemma InitialStamp(snap: Snapshot, s: Option<Streak>, pods: seq<Pod>, labels: Labels, l: Labels, d: nat)
    requires |labels| == |pods| && DistinctIPs(pods) && Primaries(labels) == {}
    requires snap.present && snap.quorumOk && d < |pods| && pods[d].ip != "" && snap.host == Some(pods[d].ip)
    requires Completes(Decide(snap, false, s, pods, labels).1, labels, l)
    ensures Primaries(l) == {d as int} && forall o :: 0 <= o < |pods| && o != d ==> l[o] == Some(Replica)
  {
    NoPrimary(labels);
    assert pods[d] in pods && Matches(pods, pods[d].ip);
    assert forall o :: 0 <= o < |pods| && o != d ==> pods[o].ip != pods[d].ip;
    assert l[d] == Some(Primary);
  }

  /**
   What a completed pass leaves, case by case, for every history of polls: the
   labels as they were without a quorate snapshot past the latch, unless there is
   neither snapshot nor label; the bootstrap rule's roles then, and when the
   address does not split; the labels as they were when the host is no pod's or
   the labelled pod is elsewhere and the address has not settled; else the roles
   of the snapshot.
   */
  lemma CompletedPass(h: seq<(string, Instant)>, snap: Snapshot, latched: bool, pods: seq<Pod>, labels: Labels,
                      l: Labels)
    requires |labels| == |pods| && Completes(Decide(snap, latched, Streaks(h), pods, labels).1, labels, l)
    ensures |l| == |pods|
    ensures
      var c := LastPrimary(labels);
      if !snap.present && (exists o :: 0 <= o < |labels| && labels[o].Some?) then l == labels
      else if snap.present && (!snap.quorumOk || latched) then l == labels
      else if !snap.present || snap.host.None? then
        forall o :: 0 <= o < |pods| ==> l[o] == Some(if pods[o].first then Primary else Replica)
      else if snap.host.value == "" || (forall o :: 0 <= o < |pods| ==> pods[o].ip != snap.host.value) then l == labels
      else if
        && c != -1
        && (pods[c].ip != snap.host.value || exists o :: c < o < |pods| && pods[o].ip == snap.host.value)
        && (snap.addr == "" || !Settled(h + [(snap.addr, snap.polledAt)], snap.addr)) then l == labels
      else
        forall o :: 0 <= o < |pods| ==> l[o] == Some(if pods[o].ip == snap.host.value then Primary else Replica)
  {
    StreaksAfter(h, snap.addr, snap.polledAt);
    SettledExactly(h + [(snap.addr, snap.polledAt)], snap.addr);
    if snap.host.Some? {
      MatchFound(pods, snap.host.value);
      LastAtIs(pods, snap.host.value);
    }
    assert AnyLabelled(labels) <==> exists o :: 0 <= o < |labels| && labels[o].Some?;
    if snap.host.Some? {
      assert Matches(pods, snap.host.value) <==>
             snap.host.value != "" && exists o :: 0 <= o < |pods| && pods[o].ip == snap.host.value;
    }
  }

  lemma {:induction false} PrimaryLabelled(labels: Labels)
    ensures var c := LastPrimary(labels); c != -1 ==> labels[c] == Some(Primary)
  {
    if labels != [] {
      PrimaryLabelled(labels[..|labels|-1]);
    }
  }

  lemma StartsUnique(h: seq<(string, Instant)>, addr: string, i: int, m: int)
    requires Starts(h, addr, i) && Starts(h, addr, m)
    ensures i == m
  {
  }
}
