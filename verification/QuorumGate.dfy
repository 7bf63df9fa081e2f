/**
 The quorum-suppression gate: a timed state machine that closes after a
 sustained, re-confirmed quorum loss and opens after enough distinct OK polls.
 The gate is compared with a closed form over the whole observation history.
 */
module QuorumGate {
  import opened Base

  /** One reconcile's reading: the signal, its poll stamp and the wall clock. */
  datatype Obs = Obs(q: Quorum, polledAt: Instant, now: Instant)

  const LOSS_THRESHOLD: nat := 60 * SECOND
  const RECOVERY_POLLS: nat := 2

  /** Overrides of the safety floors; a non-positive field means the default. */
  datatype Tunables = Tunables(lossThreshold: int, recoveryPolls: int) {
    function Loss(): (d: int)
      ensures d > 0 && (d == lossThreshold || (lossThreshold <= 0 && d == 60 * SECOND))
    {
      if lossThreshold > 0 then lossThreshold else LOSS_THRESHOLD
    }

    function Polls(): (n: int)
      ensures n > 0 && (n == recoveryPolls || (recoveryPolls <= 0 && n == 2))
    {
      if recoveryPolls > 0 then recoveryPolls else RECOVERY_POLLS
    }
  }

  datatype Gate = Gate(lostSince: Option<Instant>, lostSincePoll: Instant,
                       okPolls: nat, okLastPoll: Instant, active: bool)

  const FRESH := Gate(None, 0, 0, 0, false)

  function Step(g: Gate, o: Obs, t: Tunables): Gate {
    match o.q
    case QuorumUnknown => g
    case QuorumOk =>
      var g := g.(lostSince := None, lostSincePoll := 0);
      if !g.active || o.polledAt <= g.okLastPoll then g
      else if g.okPolls + 1 >= t.Polls() then g.(active := false, okPolls := 0, okLastPoll := 0)
      else g.(okPolls := g.okPolls + 1, okLastPoll := o.polledAt)
    case QuorumLost =>
      var g := g.(okPolls := 0, okLastPoll := 0);
      if g.active then g
      else if g.lostSince.None? then g.(lostSince := Some(o.now), lostSincePoll := o.polledAt)
      else g.(active := o.now - g.lostSince.value >= t.Loss() && o.polledAt > g.lostSincePoll)
  }

  function Run(h: seq<Obs>, t: Tunables): Gate {
    if h == [] then FRESH else Step(Run(h[..|h|-1], t), h[|h|-1], t)
  }

  /** The per-CR tracker as the controller keeps it, updated in place. */
  class SuppressionTracker {
    var lastQuorum: Quorum
    var lostSince: Option<Instant>
    var lostSincePoll: Instant
    var okPolls: nat
    var okLastPoll: Instant
    var active: bool

    constructor ()
      ensures View() == FRESH
    {
      lastQuorum := QuorumUnknown;
      lostSince, lostSincePoll, okPolls, okLastPoll, active := None, 0, 0, 0, false;
    }

    function View(): Gate
      reads this
    {
      Gate(lostSince, lostSincePoll, okPolls, okLastPoll, active)
    }

    /** Fold one reading; the two results are the one-shot event edges. */
    method Update(o: Obs, t: Tunables) returns (entered: bool, exited: bool)
      modifies this
      ensures View() == Step(old(View()), o, t) && lastQuorum == o.q
      ensures entered <==> !old(active) && active
      ensures exited <==> old(active) && !active
    {
      lastQuorum := o.q;
      match o.q {
        case QuorumUnknown =>
          return false, false;
        case QuorumOk =>
          lostSince, lostSincePoll := None, 0;
          if !active {
            return false, false;
          }
          if o.polledAt <= okLastPoll {
            return false, false;
          }
          okLastPoll := o.polledAt;
          okPolls := okPolls + 1;
          if okPolls >= t.Polls() {
            active, okPolls, okLastPoll := false, 0, 0;
            return false, true;
          }
          return false, false;
        case QuorumLost =>
          okPolls, okLastPoll := 0, 0;
          if active {
            return false, false;
          }
          if lostSince.None? {
            lostSince, lostSincePoll := Some(o.now), o.polledAt;
            return false, false;
          }
          if o.now - lostSince.value >= t.Loss() && o.polledAt > lostSincePoll {
            active := true;
            return true, false;
          }
          return false, false;
      }
    }
  }

  // ----- the closed form over histories

  /** The readings after the last OK of `h`. */
  function SinceOk(h: seq<Obs>): seq<Obs> {
    if h == [] || h[|h|-1].q == QuorumOk then [] else SinceOk(h[..|h|-1]) + [h[|h|-1]]
  }

  /** The readings after the last Lost of `h`. */
  function SinceLost(h: seq<Obs>): seq<Obs> {
    if h == [] || h[|h|-1].q == QuorumLost then [] else SinceLost(h[..|h|-1]) + [h[|h|-1]]
  }

  function FirstLost(w: seq<Obs>): Option<Obs> {
    if w == [] then None
    else
      var f := FirstLost(w[..|w|-1]);
      if f.Some? then f else if w[|w|-1].q == QuorumLost then Some(w[|w|-1]) else None
  }

  /** The newest stamp among the OK readings of `w`. */
  function NewestOk(w: seq<Obs>): Instant {
    if w == [] then 0
    else
      var m := NewestOk(w[..|w|-1]);
      if w[|w|-1].q == QuorumOk && w[|w|-1].polledAt > m then w[|w|-1].polledAt else m
  }

  /** How many OK readings of `w` carry a stamp newer than every OK before them. */
  function FreshPolls(w: seq<Obs>): nat {
    if w == [] then 0
    else
      FreshPolls(w[..|w|-1]) +
      if w[|w|-1].q == QuorumOk && w[|w|-1].polledAt > NewestOk(w[..|w|-1]) then 1 else 0
  }

  /** Reading `i` is a Lost that re-confirms, late enough, the loss it belongs to. */
  predicate Crosses(h: seq<Obs>, i: nat, t: Tunables)
    requires i < |h|
  {
    && h[i].q == QuorumLost
    && var opening := FirstLost(SinceOk(h[..i]));
       opening.Some? && h[i].now - opening.value.now >= t.Loss() && h[i].polledAt > opening.value.polledAt
  }

  /** Reading `j` is an OK, and enough fresh OK polls have come since the last Lost. */
  predicate Clears(h: seq<Obs>, j: nat, t: Tunables)
    requires j < |h|
  {
    h[j].q == QuorumOk && FreshPolls(SinceLost(h[..j+1])) >= t.Polls()
  }

  /** The gate is closed: some reading crossed and none has cleared since. */
  ghost predicate Suppressed(h: seq<Obs>, t: Tunables) {
    exists i :: 0 <= i < |h| && Crosses(h, i, t) && forall j :: i < j < |h| ==> !Clears(h, j, t)
  }

  /** The part of a history the gate depends on. */
  datatype Digest = Digest(suppressed: bool, opening: Option<Obs>, counted: nat, newest: Instant)

  ghost function DigestOf(h: seq<Obs>, t: Tunables): Digest {
    Digest(Suppressed(h, t), FirstLost(SinceOk(h)), FreshPolls(SinceLost(h)), NewestOk(SinceLost(h)))
  }

  /** What the tracker's fields mean in terms of the history. */
  ghost predicate Means(g: Gate, d: Digest, t: Tunables) {
    && g.active == d.suppressed
    && (!g.active ==>
          && g.lostSince.Some? == d.opening.Some?
          && (g.lostSince.Some? ==>
                g.lostSince.value == d.opening.value.now && g.lostSincePoll == d.opening.value.polledAt))
    && (g.active ==> g.okPolls == d.counted < t.Polls() && g.okLastPoll == d.newest)
  }

  lemma {:induction false} SuppressedExtends(h: seq<Obs>, o: Obs, t: Tunables)
    ensures Suppressed(h + [o], t) <==>
            Crosses(h + [o], |h|, t) || (Suppressed(h, t) && !Clears(h + [o], |h|, t))
  {
    var h' := h + [o];
    forall i | 0 <= i < |h|
      ensures Crosses(h', i, t) == Crosses(h, i, t)
      ensures Clears(h', i, t) == Clears(h, i, t)
    {
      assert h'[..i] == h[..i] && h'[..i+1] == h[..i+1];
    }
    if Crosses(h', |h|, t) {
      assert Suppressed(h', t);
    }
    if Suppressed(h, t) && !Clears(h', |h|, t) {
      var i :| 0 <= i < |h| && Crosses(h, i, t) && forall j :: i < j < |h| ==> !Clears(h, j, t);
      assert Crosses(h', i, t);
    }
  }

  /** An OK reading starts a window with no Lost in it. */
  lemma WindowAfter(h: seq<Obs>, o: Obs)
    ensures SinceOk(h + [o]) == if o.q == QuorumOk then [] else SinceOk(h) + [o]
    ensures SinceLost(h + [o]) == if o.q == QuorumLost then [] else SinceLost(h) + [o]
  {
    assert (h + [o])[..|h|] == h;
  }

  lemma FoldsAfter(w: seq<Obs>, o: Obs)
    ensures FirstLost(w + [o]) == if FirstLost(w).Some? then FirstLost(w)
                                  else if o.q == QuorumLost then Some(o) else None
    ensures NewestOk(w + [o]) == if o.q == QuorumOk && o.polledAt > NewestOk(w) then o.polledAt else NewestOk(w)
    ensures FreshPolls(w + [o]) ==
            FreshPolls(w) + if o.q == QuorumOk && o.polledAt > NewestOk(w) then 1 else 0
  {
    assert (w + [o])[..|w|] == w;
  }

  /** The two conditions on the newest reading, in terms of the windows before it. */
  lemma NewestReading(h: seq<Obs>, o: Obs, t: Tunables)
    ensures Crosses(h + [o], |h|, t) <==>
            && o.q == QuorumLost
            && var opening := FirstLost(SinceOk(h));
               opening.Some? && o.now - opening.value.now >= t.Loss() && o.polledAt > opening.value.polledAt
    ensures Clears(h + [o], |h|, t) <==>
            && o.q == QuorumOk
            && FreshPolls(SinceLost(h)) + (if o.polledAt > NewestOk(SinceLost(h)) then 1 else 0) >= t.Polls()
  {
    assert (h + [o])[..|h|] == h && (h + [o])[..|h|+1] == h + [o];
    WindowAfter(h, o);
    FoldsAfter(SinceLost(h), o);
  }

  function Extend(d: Digest, o: Obs, t: Tunables): Digest {
    match o.q
    case QuorumUnknown => d
    case QuorumOk =>
      var n := d.counted + if o.polledAt > d.newest then 1 else 0;
      Digest(d.suppressed && n < t.Polls(), None, n, if o.polledAt > d.newest then o.polledAt else d.newest)
    case QuorumLost =>
      Digest(d.suppressed || (d.opening.Some? && o.now - d.opening.value.now >= t.Loss()
                              && o.polledAt > d.opening.value.polledAt),
             if d.opening.Some? then d.opening else Some(o), 0, 0)
  }

  lemma {:induction false} DigestExtends(h: seq<Obs>, o: Obs, t: Tunables)
    ensures DigestOf(h + [o], t) == Extend(DigestOf(h, t), o, t)
  {
    SuppressedExtends(h, o, t);
    NewestReading(h, o, t);
    WindowAfter(h, o);
    FoldsAfter(SinceOk(h), o);
    FoldsAfter(SinceLost(h), o);
  }

  lemma MeansStep(g: Gate, d: Digest, o: Obs, t: Tunables)
    requires Means(g, d, t)
    ensures Means(Step(g, o, t), Extend(d, o, t), t)
  {
  }

  /**
   The incremental gate is the closed form, for every history and every
   tunables: it is closed exactly when some Lost reading came at least the loss
   threshold after the first Lost of its loss, with a strictly newer poll and no
   OK in between, and no later OK completed the required number of fresh polls
   since the last Lost. Unknown readings appear in neither condition.
   */
  lemma {:induction false} GateIsHistory(h: seq<Obs>, t: Tunables)
    ensures Means(Run(h, t), DigestOf(h, t), t)
    ensures Run(h, t).active <==> Suppressed(h, t)
  {
    if h == [] {
    } else {
      var p := h[..|h|-1];
      GateIsHistory(p, t);
      DigestExtends(p, h[|h|-1], t);
      assert p + [h[|h|-1]] == h;
      MeansStep(Run(p, t), DigestOf(p, t), h[|h|-1], t);
    }
  }

  // ----- a wedged observer can neither close nor open the gate

  /**
   From an open gate, any run of OK-free readings whose Lost stamps never pass
   the stamp of the loss's first Lost leaves the gate open, however long it is
   and whatever the clock does.
   */
  lemma {:induction false} WedgedObserverNeverCloses(h: seq<Obs>, e: seq<Obs>, p: Instant, t: Tunables)
    requires !Run(h, t).active
    requires FirstLost(SinceOk(h)).Some? ==> p <= FirstLost(SinceOk(h)).value.polledAt
    requires forall o :: o in e ==> o.q == QuorumUnknown || (o.q == QuorumLost && o.polledAt == p)
    ensures !Run(h + e, t).active
    ensures FirstLost(SinceOk(h + e)).Some? ==> p <= FirstLost(SinceOk(h + e)).value.polledAt
  {
    if e == [] {
      assert h + e == h;
    } else {
      var init, o := e[..|e|-1], e[|e|-1];
      WedgedObserverNeverCloses(h, init, p, t);
      assert h + e == (h + init) + [o];
      GateIsHistory(h + init, t);
      GateIsHistory(h + e, t);
      DigestExtends(h + init, o, t);
    }
  }

  function ExtendAll(d: Digest, b: seq<Obs>, t: Tunables): Digest {
    if b == [] then d else Extend(ExtendAll(d, b[..|b|-1], t), b[|b|-1], t)
  }

  lemma {:induction false} DigestOfAppend(a: seq<Obs>, b: seq<Obs>, t: Tunables)
    ensures DigestOf(a + b, t) == ExtendAll(DigestOf(a, t), b, t)
  {
    if b == [] {
      assert a + b == a;
    } else {
      var init, o := b[..|b|-1], b[|b|-1];
      calc {
        DigestOf(a + b, t);
        { assert a + b == a + init + [o]; }
        DigestOf(a + init + [o], t);
        { DigestExtends(a + init, o, t); }
        Extend(DigestOf(a + init, t), o, t);
        { DigestOfAppend(a, init, t); }
        Extend(ExtendAll(DigestOf(a, t), init, t), o, t);
      }
    }
  }

  /** `r` repeats an OK stamp already read since the last Lost of `a`. */
  ghost predicate Repeats(r: Obs, a: seq<Obs>) {
    r.q == QuorumOk && exists o :: o in SinceLost(a) && o.q == QuorumOk && r.polledAt <= o.polledAt
  }

  lemma {:induction false} OkSinceLost(a: seq<Obs>, o: Obs)
    requires o in SinceLost(a) && o.q == QuorumOk
    ensures FirstLost(SinceOk(a)).None? && o.polledAt <= NewestOk(SinceLost(a))
  {
    var p, l := a[..|a|-1], a[|a|-1];
    assert a == p + [l];
    WindowAfter(p, l);
    FoldsAfter(SinceLost(p), l);
    FoldsAfter(SinceOk(p), l);
    if o in SinceLost(p) {
      OkSinceLost(p, o);
    } else {
      assert o == l;
    }
  }

  lemma {:induction false} RepeatsKeepDigest(a: seq<Obs>, reps: seq<Obs>, t: Tunables)
    requires forall r :: r in reps ==> Repeats(r, a)
    ensures ExtendAll(DigestOf(a, t), reps, t) == DigestOf(a, t)
  {
    if reps != [] {
      var r := reps[|reps|-1];
      RepeatsKeepDigest(a, reps[..|reps|-1], t);
      assert Repeats(r, a);
      var o :| o in SinceLost(a) && o.q == QuorumOk && r.polledAt <= o.polledAt;
      OkSinceLost(a, o);
      GateIsHistory(a, t);
    }
  }

  /**
   Any number of repeats of OK polls already read since the last Lost, inserted
   anywhere, changes the gate at no later point of the run: the exit comes at
   the same reading.
   */
  lemma RepeatsNeverOpen(a: seq<Obs>, reps: seq<Obs>, b: seq<Obs>, t: Tunables)
    requires forall r :: r in reps ==> Repeats(r, a)
    ensures Run(a + reps + b, t).active == Run(a + b, t).active
  {
    GateIsHistory(a + reps + b, t);
    GateIsHistory(a + b, t);
    DigestOfAppend(a + reps, b, t);
    DigestOfAppend(a, b, t);
    DigestOfAppend(a, reps, t);
    RepeatsKeepDigest(a, reps, t);
  }

  /** The non-zero stamps of the OK readings of `w`. */
  function OkStamps(w: seq<Obs>): set<Instant> {
    set o | o in w && o.q == QuorumOk && o.polledAt > 0 :: o.polledAt
  }

  lemma OkStampsAfter(w: seq<Obs>, o: Obs)
    ensures OkStamps(w + [o]) == OkStamps(w) + if o.q == QuorumOk && o.polledAt > 0 then {o.polledAt} else {}
  {
  }

  lemma {:induction false} NewestOkAtMost(w: seq<Obs>, x: Instant)
    requires forall i :: 0 <= i < |w| && w[i].q == QuorumOk ==> w[i].polledAt <= x
    ensures NewestOk(w) <= x
  {
    if w != [] {
      NewestOkAtMost(w[..|w|-1], x);
    }
  }

  /** When OK stamps never run backwards, the hysteresis counts distinct polls. */
  lemma {:induction false} FreshPollsAreDistinct(w: seq<Obs>)
    requires forall i, j :: 0 <= i < j < |w| && w[i].q == w[j].q == QuorumOk ==> w[i].polledAt <= w[j].polledAt
    ensures FreshPolls(w) == |OkStamps(w)|
    ensures forall x :: x in OkStamps(w) ==> x <= NewestOk(w)
    ensures NewestOk(w) > 0 ==> NewestOk(w) in OkStamps(w)
  {
    if w == [] {
    } else {
      var init, o := w[..|w|-1], w[|w|-1];
      FreshPollsAreDistinct(init);
      if o.q == QuorumOk {
        NewestOkAtMost(init, o.polledAt);
      }
      DistinctStep(init, o, OkStamps(init));
      assert w == init + [o];
    }
  }

  lemma DistinctStep(w: seq<Obs>, o: Obs, stamps: set<Instant>)
    requires stamps == OkStamps(w) && FreshPolls(w) == |stamps|
    requires forall x :: x in stamps ==> x <= NewestOk(w)
    requires NewestOk(w) > 0 ==> NewestOk(w) in stamps
    requires o.q == QuorumOk ==> NewestOk(w) <= o.polledAt
    ensures FreshPolls(w + [o]) == |OkStamps(w + [o])|
    ensures forall x :: x in OkStamps(w + [o]) ==> x <= NewestOk(w + [o])
    ensures NewestOk(w + [o]) > 0 ==> NewestOk(w + [o]) in OkStamps(w + [o])
  {
    FoldsAfter(w, o);
    OkStampsAfter(w, o);
  }
}
