/**
 The split-brain episode tracker and the failover observation that reads it.
 Reported durations and detection events are stated over whole runs.
 */
module SplitBrain {
  import opened Base

  const STALENESS: nat := 60 * SECOND

  /** One published snapshot as the gate reads it, at wall-clock `now`. */
  datatype Obs = Obs(present: bool, q: Quorum, polledAt: Instant, now: Instant)

  datatype Episode = Episode(since: Option<Instant>, pollAt: Instant, confirmedAt: Instant, expiredPollAt: Instant)

  const CLEAN := Episode(None, 0, 0, 0)

  /** The state after one reading, the reported nanoseconds and the detection edge. */
  datatype Report = Report(e: Episode, elapsed: int, started: bool)

  predicate Resets(o: Obs) {
    !o.present || o.q == QuorumOk
  }

  function Step(e: Episode, o: Obs): Report {
    if Resets(o) then Report(CLEAN, 0, false)
    else if e.since.Some? then Continue(e, o)
    else if o.q == QuorumUnknown || (e.expiredPollAt != 0 && o.polledAt <= e.expiredPollAt) then Report(e, 0, false)
    else Report(e.(since := Some(o.now), pollAt := o.polledAt, confirmedAt := o.now), 0, true)
  }

  function Continue(e: Episode, o: Obs): Report
    requires e.since.Some?
  {
    var e := if o.polledAt > e.pollAt then e.(pollAt := o.polledAt, confirmedAt := o.now) else e;
    if o.now - e.confirmedAt > STALENESS then Report(Episode(None, 0, 0, e.pollAt), 0, false)
    else Report(e, e.confirmedAt - e.since.value, false)
  }

  function Run(h: seq<Obs>): Report {
    if h == [] then Report(CLEAN, 0, false) else Step(Run(h[..|h|-1]).e, h[|h|-1])
  }

  class Tracker {
    var since: Option<Instant>
    var pollAt: Instant
    var confirmedAt: Instant
    var expiredPollAt: Instant
    var lastOkAddr: string

    constructor ()
      ensures View() == CLEAN && lastOkAddr == ""
    {
      since, pollAt, confirmedAt, expiredPollAt, lastOkAddr := None, 0, 0, 0, "";
    }

    function View(): Episode
      reads this
    {
      Episode(since, pollAt, confirmedAt, expiredPollAt)
    }

    method Advance(polledAt: Instant, now: Instant)
      modifies this`pollAt, this`confirmedAt
      ensures polledAt > old(pollAt) ==> pollAt == polledAt && confirmedAt == now
      ensures polledAt <= old(pollAt) ==> pollAt == old(pollAt) && confirmedAt == old(confirmedAt)
    {
      if polledAt > pollAt {
        pollAt, confirmedAt := polledAt, now;
      }
    }

    method Expired(now: Instant) returns (expired: bool)
      modifies this`since, this`pollAt, this`confirmedAt, this`expiredPollAt
      ensures expired <==> now - old(confirmedAt) > STALENESS
      ensures expired ==> View() == Episode(None, 0, 0, old(pollAt))
      ensures !expired ==> View() == old(View())
    {
      if now - confirmedAt <= STALENESS {
        return false;
      }
      expiredPollAt := pollAt;
      since, pollAt, confirmedAt := None, 0, 0;
      return true;
    }

    method UpdateSustained(o: Obs) returns (elapsed: int, started: bool)
      modifies this`since, this`pollAt, this`confirmedAt, this`expiredPollAt
      ensures Report(View(), elapsed, started) == Step(old(View()), o)
    {
      if o.present && o.q == QuorumUnknown {
        if since.None? {
          return 0, false;
        }
        Advance(o.polledAt, o.now);
        var gone := Expired(o.now);
        if gone {
          return 0, false;
        }
        return confirmedAt - since.value, false;
      }
      if !o.present || o.q != QuorumLost {
        since, pollAt, confirmedAt, expiredPollAt := None, 0, 0, 0;
        return 0, false;
      }
      if since.None? {
        if expiredPollAt != 0 && o.polledAt <= expiredPollAt {
          return 0, false;
        }
        since, pollAt, confirmedAt := Some(o.now), o.polledAt, o.now;
        return 0, true;
      }
      Advance(o.polledAt, o.now);
      var gone := Expired(o.now);
      if gone {
        return 0, false;
      }
      return confirmedAt - since.value, false;
    }

    /** The failover histogram's detector: `Some(duration)` when it fires. */
    method ObserveFailover(present: bool, quorumOk: bool, addr: string, now: Instant) returns (fired: Option<int>)
      modifies this`lastOkAddr
      ensures lastOkAddr == if present && quorumOk then addr else old(lastOkAddr)
      ensures fired == FailoverSignal(since, old(lastOkAddr), present, quorumOk, addr, now)
    {
      if !present || !quorumOk {
        return None;
      }
      if since.None? || lastOkAddr == "" {
        lastOkAddr := addr;
        return None;
      }
      if lastOkAddr == addr {
        return None;
      }
      var d := now - since.value;
      lastOkAddr := addr;
      return Some(d);
    }

    /** The two calls in the order the gate makes them. */
    method ObserveSnapshot(o: Obs, quorumOk: bool, addr: string)
      returns (elapsed: int, started: bool, fired: Option<int>)
      modifies this
      ensures Report(View(), elapsed, started) == Step(old(View()), o)
      ensures fired == FailoverSignal(Step(old(View()), o).e.since, old(lastOkAddr), o.present, quorumOk, addr, o.now)
      ensures quorumOk == (o.q == QuorumOk) ==> fired == None
    {
      elapsed, started := UpdateSustained(o);
      fired := ObserveFailover(o.present, quorumOk, addr, o.now);
    }
  }

  function FailoverSignal(since: Option<Instant>, lastOk: string, present: bool, quorumOk: bool, addr: string,
                          now: Instant): Option<int> {
    if present && quorumOk && since.Some? && lastOk != "" && lastOk != addr then Some(now - since.value) else None
  }

  // ----- what a reported duration means

  /** After `h`, an episode opened at reading `s` is live and reading `c` confirmed it last. */
  ghost predicate LiveEpisode(h: seq<Obs>, s: nat, c: nat) {
    && s <= c < |h|
    && Run(h[..s+1]).started
    && (forall k :: s < k < |h| ==> !Resets(h[k]))
    && (forall k :: s <= k < c ==> h[k].polledAt < h[c].polledAt)
    && (forall k :: c <= k < |h| ==> h[k].polledAt <= h[c].polledAt)
    && h[|h|-1].now - h[c].now <= STALENESS
    && Run(h).e.since == Some(h[s].now)
    && Run(h).e.pollAt == h[c].polledAt
    && Run(h).e.confirmedAt == h[c].now
  }

  lemma RunAfter(h: seq<Obs>, o: Obs)
    ensures Run(h + [o]) == Step(Run(h).e, o)
  {
    assert (h + [o])[..|h|] == h;
  }

  lemma {:induction false} LiveStep(h: seq<Obs>, o: Obs, s: nat, c: nat)
    requires LiveEpisode(h, s, c) && Run(h + [o]).e.since.Some?
    ensures LiveEpisode(h + [o], s, if o.polledAt > h[c].polledAt then |h| else c)
  {
    RunAfter(h, o);
    assert (h + [o])[..s+1] == h[..s+1];
  }

  lemma {:induction false} LiveOpens(h: seq<Obs>, o: Obs)
    requires Run(h).e.since.None? && Run(h + [o]).e.since.Some?
    ensures LiveEpisode(h + [o], |h|, |h|)
  {
    RunAfter(h, o);
    assert (h + [o])[..|h|+1] == h + [o];
  }

  /** Every live episode has an opening and a last confirming reading in the run. */
  lemma {:induction false} LiveWitness(h: seq<Obs>) returns (s: nat, c: nat)
    requires Run(h).e.since.Some?
    ensures LiveEpisode(h, s, c)
  {
    var p, o := h[..|h|-1], h[|h|-1];
    assert h == p + [o];
    if Run(p).e.since.Some? {
      s, c := LiveWitness(p);
      LiveStep(p, o, s, c);
      c := if o.polledAt > p[c].polledAt then |p| else c;
    } else {
      LiveOpens(p, o);
      s, c := |p|, |p|;
    }
  }

  /**
   What every reading reports: nothing while no episode is live, and otherwise
   the time from the reading that opened it to the newest poll that confirmed it,
   also on a replayed poll.
   */
  lemma DurationExactly(h: seq<Obs>) returns (s: nat, c: nat)
    requires |h| > 0
    ensures Run(h).e.since.None? ==> Run(h).elapsed == 0
    ensures Run(h).e.since.Some? ==> LiveEpisode(h, s, c) && Run(h).elapsed == h[c].now - h[s].now
    ensures Run(h).started <==> Run(h).e.since.Some? && s == |h| - 1
  {
    var p, o := h[..|h|-1], h[|h|-1];
    assert h == p + [o];
    if Run(h).started {
      LiveOpens(p, o);
      s, c := |p|, |p|;
    } else if Run(h).e.since.Some? {
      s, c := LiveWitness(h);
      assert s == |p| ==> h[..s+1] == h;
    } else {
      s, c := 0, 0;
    }
  }

  /**
   A non-zero reading is exactly the time from the reading that opened the
   episode to the newest poll that re-confirmed it, that poll is at most the
   staleness window old, and nothing reset the tracker in between. Hence, on a
   clock that never runs backwards, it is positive and at most now minus start.
   */
  lemma ReportedDuration(h: seq<Obs>) returns (s: nat, c: nat)
    requires |h| > 0 && Run(h).elapsed != 0
    ensures LiveEpisode(h, s, c) && s < c && Run(h).elapsed == h[c].now - h[s].now
    ensures (forall i, j :: 0 <= i < j < |h| ==> h[i].now <= h[j].now) ==>
              0 < Run(h).elapsed <= h[|h|-1].now - h[s].now
  {
    s, c := LiveWitness(h);
  }

  // ----- detection events

  /** Every poll `p` folded into the current or the last expired episode. */
  ghost predicate Covers(e: Episode, p: Instant) {
    if e.since.Some? then p <= e.pollAt else 0 < e.expiredPollAt && p <= e.expiredPollAt
  }

  lemma {:induction false} CoversRun(h: seq<Obs>, k: nat, p: Instant)
    requires k <= |h| && 0 < p && Covers(Run(h[..k]).e, p)
    requires forall i :: k <= i < |h| ==> !Resets(h[i])
    ensures Covers(Run(h).e, p)
  {
    if k == |h| {
      assert h[..k] == h;
    } else {
      var init := h[..|h|-1];
      assert init[..k] == h[..k];
      CoversRun(init, k, p);
      assert h == init + [h[|h|-1]];
    }
  }

  /**
   Between two clean resets, a detection fires only on a poll strictly newer
   than every poll that had been folded into an earlier episode since the reset
   (`k` ranges over those), provided the stamps are non-zero.
   */
  lemma DetectionsNeedNewerPolls(h: seq<Obs>, k: nat, j: nat)
    requires k < j < |h| && Run(h[..k+1]).e.since.Some? && h[k].polledAt > 0
    requires forall i :: k < i < j ==> !Resets(h[i])
    requires Run(h[..j+1]).started
    ensures h[k].polledAt < h[j].polledAt
  {
    assert h[..k+1] == h[..k] + [h[k]] && h[..j+1] == h[..j] + [h[j]];
    RunAfter(h[..k], h[k]);
    RunAfter(h[..j], h[j]);
    assert h[..j][..k+1] == h[..k+1];
    CoversRun(h[..j], k + 1, h[k].polledAt);
  }

  function Detections(h: seq<Obs>): nat {
    if h == [] then 0 else Detections(h[..|h|-1]) + if Run(h).started then 1 else 0
  }

  /** No reset, and the observer keeps replaying stamp `p`. */
  predicate Frozen(h: seq<Obs>, p: Instant) {
    forall o :: o in h ==> !Resets(o) && o.polledAt == p
  }

  lemma {:induction false} FrozenAtMostOnce(h: seq<Obs>, p: Instant)
    requires p > 0 && Frozen(h, p)
    ensures Detections(h) <= 1
    ensures Detections(h) == 1 ==> Covers(Run(h).e, p)
    ensures Detections(h) == 0 ==> Run(h).e == CLEAN
  {
    if h != [] {
      FrozenAtMostOnce(h[..|h|-1], p);
      assert h[|h|-1] in h;
    }
  }

  lemma ZeroStampFiresTwice() returns (h: seq<Obs>)
    ensures Frozen(h, 0) && Detections(h) == 2
  {
    var a, b := Obs(true, QuorumLost, 0, 1), Obs(true, QuorumLost, 0, STALENESS + 2);
    h := [a, b, b];
    assert h[..2] == [a, b] && h[..2][..1] == [a] && [a][..0] == [];
    assert Run([a]).started && Detections([a]) == 1;
    assert Run([a, b]) == Report(CLEAN, 0, false);
    assert Run(h).started;
  }

  /**
   A frozen observer fires the detection at most once between resets, for every
   run, exactly when its stamp is non-zero: with the zero stamp the expiry guard
   is inert and the event repeats.
   */
  lemma FrozenObserverFiresOnce(p: Instant)
    ensures (forall h :: Frozen(h, p) ==> Detections(h) <= 1) <==> p > 0
  {
    if p > 0 {
      forall h | Frozen(h, p)
        ensures Detections(h) <= 1
      {
        FrozenAtMostOnce(h, p);
      }
    } else {
      var h := ZeroStampFiresTwice();
      assert Frozen(h, p) && Detections(h) == 2;
    }
  }

  // ----- the failover signal

  /** After reading `o` an episode is live: an open one that is still confirmed, or one that `o` opens. */
  predicate StaysLive(e: Episode, o: Obs) {
    if e.since.Some? then o.polledAt > e.pollAt || o.now - e.confirmedAt <= STALENESS
    else o.q == QuorumLost && (e.expiredPollAt == 0 || o.polledAt > e.expiredPollAt)
  }

  /**
   The episode is cleared on OK before the failover detector reads it, so in the
   composed step the signal fires exactly when the snapshot claims `quorumOk`
   while its tri-state field says otherwise, the OK address changed, and the
   episode before the step lives on or the reading opens one. The observer
   derives the flag from the field, so no snapshot it publishes ever produces
   the signal.
   */
  lemma FailoverSignalExactly(e: Episode, o: Obs, lastOk: string, quorumOk: bool, addr: string)
    ensures FailoverSignal(Step(e, o).e.since, lastOk, o.present, quorumOk, addr, o.now).Some? <==>
            && o.present && quorumOk && o.q != QuorumOk && lastOk != "" && lastOk != addr
            && StaysLive(e, o)
    ensures var d := FailoverSignal(Step(e, o).e.since, lastOk, o.present, quorumOk, addr, o.now);
            d.Some? ==> d.value == if e.since.Some? then o.now - e.since.value else 0
    ensures quorumOk == (o.q == QuorumOk) ==>
              FailoverSignal(Step(e, o).e.since, lastOk, o.present, quorumOk, addr, o.now) == None
  {
  }
}
