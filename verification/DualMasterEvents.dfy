/**
 The DualMasterObserved event edge: an accumulated, sorted, comma-joined union
 of de-facto-master pod names, and the observation whose age-out ends an episode.
 */
module DualMasterEvents {
  import opened Base
  import opened Names
  import opened Ordering

  const FRESHNESS: nat := 60 * SECOND

  datatype Observation = Observation(observedAt: Instant, pods: seq<string>)

  /** What the tracker amounts to: the pods seen this episode, and the last stamp's time and size. */
  datatype State = State(seen: set<string>, stamp: Option<(Instant, nat)>)

  const NO_EPISODE := State({}, None)

  /** A prune and a completed scan with at most one master are both a `Reset`. */
  datatype Event =
    | Scanned(pods: seq<string>, now: Instant) | Stamped(pods: seq<string>, now: Instant)
    | Reset | Status(now: Instant)

  predicate Live(s: State, now: Instant) {
    s.stamp.Some? && s.stamp.value.1 >= 2 && now - s.stamp.value.0 <= FRESHNESS
  }

  /** The event ends the episode. */
  predicate Ends(s: State, e: Event) {
    e.Reset? || (e.Status? && !Live(s, e.now))
  }

  predicate Fires(s: State, e: Event) {
    e.Scanned? && !(Elements(e.pods) <= s.seen)
  }

  function Step(s: State, e: Event): State {
    if Ends(s, e) then NO_EPISODE
    else
      match e
      case Scanned(pods, now) => State(s.seen + Elements(pods), Some((now, |pods|)))
      case Stamped(pods, now) => s.(stamp := Some((now, |pods|)))
      case _ => s
  }

  class Tracker {
    var observed: Option<Observation>
    var edge: string
    var union: seq<string>

    ghost predicate Valid()
      reads this
    {
      && StrictlySorted(union, Less)
      && (forall n :: n in union ==> Key(n))
      && edge == Join(union)
      && (observed.None? ==> union == [])
    }

    function Value(): State
      reads this
    {
      State(Elements(union), if observed.Some? then Some((observed.value.observedAt, |observed.value.pods|)) else None)
    }

    constructor ()
      ensures Valid() && Value() == NO_EPISODE
    {
      observed, edge, union := None, "", [];
    }

    /** A condition-only producer: the stamp never feeds the event key. */
    method Stamp(pods: seq<string>, now: Instant)
      requires Valid()
      modifies this`observed
      ensures Valid() && Value() == Step(old(Value()), Stamped(pods, now))
      ensures Sorted(observed.value.pods, Less) && multiset(observed.value.pods) == multiset(pods)
    {
      var sorted := SortNames(pods);
      observed := Some(Observation(now, sorted));
    }

    method FoldUnion(pods: seq<string>) returns (key: string)
      requires StrictlySorted(union, Less)
      modifies this`union
      ensures StrictlySorted(union, Less) && Elements(union) == old(Elements(union)) + Elements(pods)
      ensures key == Join(union)
    {
      var sorted := SortNames(pods);
      union := MergeNames(union, sorted);
      key := Join(union);
    }

    method FireEdge(key: string) returns (fire: bool)
      modifies this`edge
      ensures fire <==> old(edge) != key
      ensures edge == key
    {
      if edge == key {
        return false;
      }
      edge := key;
      return true;
    }

    /** An event-firing producer saw at least two masters: stamp, fold, fire. */
    method Scan(pods: seq<string>, now: Instant) returns (fire: bool)
      requires Valid() && forall n :: n in pods ==> Key(n)
      modifies this
      ensures Valid() && Value() == Step(old(Value()), Scanned(pods, now))
      ensures fire <==> Fires(old(Value()), Scanned(pods, now))
    {
      Stamp(pods, now);
      ghost var before := union;
      var key := FoldUnion(pods);
      assert forall n :: n in union <==> n in Elements(union);
      fire := FireEdge(key);
      KeysAgree(before, union);
    }

    method Clear()
      modifies this
      ensures Valid() && Value() == NO_EPISODE
    {
      observed, edge, union := None, "", [];
    }

    /** The status read: an aged-out stamp ends the episode as a side effect. */
    method ActiveOrExpire(now: Instant) returns (active: bool)
      requires Valid()
      modifies this
      ensures Valid() && Value() == Step(old(Value()), Status(now))
      ensures active == Live(old(Value()), now)
    {
      if observed.Some? && |observed.value.pods| >= 2 && now - observed.value.observedAt <= FRESHNESS {
        return true;
      }
      if observed.Some? {
        observed, edge, union := None, "", [];
      }
      return false;
    }
  }

  // ----- runs

  function Run(s: State, es: seq<Event>): State {
    if es == [] then s else Step(Run(s, es[..|es|-1]), es[|es|-1])
  }

  function Firings(s: State, es: seq<Event>): nat {
    if es == [] then 0
    else Firings(s, es[..|es|-1]) + if Fires(Run(s, es[..|es|-1]), es[|es|-1]) then 1 else 0
  }

  /** No event of `es` ends the episode, and every firing scan saw two pods. */
  ghost predicate OneEpisode(s: State, es: seq<Event>) {
    forall k :: 0 <= k < |es| ==>
      !Ends(Run(s, es[..k]), es[k]) && (es[k].Scanned? ==> |Elements(es[k].pods)| >= 2)
  }

  lemma SubsetSmaller(a: set<string>, b: set<string>)
    requires a <= b
    ensures |a| <= |b|
    ensures a != b ==> |a| < |b|
  {
    assert b == a + (b - a);
  }

  /**
   Within one episode, whatever the scans, their order and what other producers
   stamp in between: the event fires at most once per pod beyond the first.
   */
  lemma {:induction false} FiringsBounded(s: State, es: seq<Event>)
    requires s.seen == {} && OneEpisode(s, es)
    ensures Firings(s, es) <= |Run(s, es).seen|
    ensures Run(s, es).seen != {} ==> Firings(s, es) <= |Run(s, es).seen| - 1
  {
    if es != [] {
      var init, e := es[..|es|-1], es[|es|-1];
      assert forall k :: 0 <= k < |init| ==> es[..k] == init[..k] && es[k] == init[k];
      FiringsBounded(s, init);
      assert es[..|es|-1] == init && !Ends(Run(s, init), e);
      SubsetSmaller(Run(s, init).seen, Run(s, es).seen);
      if e.Scanned? {
        SubsetSmaller(Elements(e.pods), Run(s, es).seen);
      }
    }
  }

  lemma {:induction false} SeenGrows(s: State, es: seq<Event>, i: nat, j: nat)
    requires i <= j <= |es|
    requires forall k :: i <= k < j ==> !Ends(Run(s, es[..k]), es[k])
    ensures Run(s, es[..i]).seen <= Run(s, es[..j]).seen
  {
    if i < j {
      SeenGrows(s, es, i, j - 1);
      assert es[..j] == es[..j-1] + [es[j-1]];
      assert es[..j][..j-1] == es[..j-1];
    }
  }

  /**
   A scan of pods that were all seen before fires again only across the end of
   an episode: a reset, or a status read more than the freshness window after
   the last stamp.
   */
  lemma RefireNeedsEnd(s: State, es: seq<Event>, i: nat, j: nat)
    requires i < j < |es| && es[i].Scanned? && es[j].Scanned? && Elements(es[j].pods) <= Elements(es[i].pods)
    requires Fires(Run(s, es[..j]), es[j])
    ensures exists k :: i < k < j && Ends(Run(s, es[..k]), es[k])
  {
    assert es[..i+1] == es[..i] + [es[i]] && es[..i+1][..i] == es[..i];
    if !exists k :: i < k < j && Ends(Run(s, es[..k]), es[k]) {
      SeenGrows(s, es, i + 1, j);
    }
  }

  // ----- exactly when the event fires

  /** Pod `n` was scanned at `i`, and nothing has ended the episode since. */
  ghost predicate ScannedSince(s: State, es: seq<Event>, n: string, i: nat) {
    && i < |es| && es[i].Scanned? && n in es[i].pods
    && forall k :: i < k < |es| ==> !Ends(Run(s, es[..k]), es[k])
  }

  lemma ScannedSinceExtends(s: State, es: seq<Event>, e: Event, n: string, i: nat)
    ensures ScannedSince(s, es + [e], n, i) <==>
            || (i == |es| && e.Scanned? && n in e.pods)
            || (ScannedSince(s, es, n, i) && !Ends(Run(s, es), e))
  {
    var all := es + [e];
    assert forall k :: 0 <= k <= |es| ==> all[..k] == es[..k];
    assert forall k :: 0 <= k < |es| ==> all[k] == es[k];
    assert es[..|es|] == es;
  }

  /** The accumulated set is the pods scanned since the last end of an episode. */
  lemma {:induction false} SeenIsScanned(es: seq<Event>, n: string)
    ensures n in Run(NO_EPISODE, es).seen <==> exists i :: ScannedSince(NO_EPISODE, es, n, i)
  {
    if es != [] {
      var init, e := es[..|es|-1], es[|es|-1];
      SeenIsScanned(init, n);
      assert es == init + [e];
      forall i: nat
        ensures ScannedSince(NO_EPISODE, es, n, i) <==>
                || (i == |init| && e.Scanned? && n in e.pods)
                || (ScannedSince(NO_EPISODE, init, n, i) && !Ends(Run(NO_EPISODE, init), e))
      {
        ScannedSinceExtends(NO_EPISODE, init, e, n, i);
      }
      if e.Scanned? && n in e.pods {
        assert ScannedSince(NO_EPISODE, es, n, |init|);
      }
    }
  }

  /** A scan fires exactly when it names a pod that was not scanned since the last end of an episode. */
  lemma FiresExactly(es: seq<Event>, j: nat)
    requires j < |es|
    ensures Fires(Run(NO_EPISODE, es[..j]), es[j]) <==>
            es[j].Scanned? && exists n :: n in es[j].pods && !exists i :: ScannedSince(NO_EPISODE, es[..j], n, i)
  {
    if es[j].Scanned? {
      forall n | n in es[j].pods
        ensures n in Run(NO_EPISODE, es[..j]).seen <==> exists i :: ScannedSince(NO_EPISODE, es[..j], n, i)
      {
        SeenIsScanned(es[..j], n);
      }
    }
  }

  predicate Stamps(e: Event) {
    e.Scanned? || e.Stamped?
  }

  /** The newest of the events that stamp or reset. */
  function LastMark(es: seq<Event>): (m: int)
    ensures -1 <= m < |es|
  {
    if es == [] then -1 else if Stamps(es[|es|-1]) || es[|es|-1].Reset? then |es| - 1 else LastMark(es[..|es|-1])
  }

  ghost predicate Forward(es: seq<Event>) {
    forall i, j :: 0 <= i < j < |es| && !es[i].Reset? && !es[j].Reset? ==> es[i].now <= es[j].now
  }

  /**
   The stamp is that of the last marking event, or it is gone, by a reset or by a
   read that found it aged or too small.
   */
  lemma {:induction false} StampIsLast(es: seq<Event>)
    requires Forward(es)
    ensures var m := LastMark(es); var stamp := Run(NO_EPISODE, es).stamp;
            && (m >= 0 ==> Stamps(es[m]) || es[m].Reset?)
            && (stamp.Some? ==> m >= 0 && Stamps(es[m]) && stamp.value == (es[m].now, |es[m].pods|))
            && (stamp.None? && m >= 0 && Stamps(es[m]) && |es[m].pods| >= 2 ==>
                  exists k :: m < k < |es| && es[k].Status? && es[k].now - es[m].now > FRESHNESS)
  {
    if es != [] {
      var n := |es| - 1;
      var init := es[..n];
      assert forall i :: 0 <= i < n ==> init[i] == es[i];
      StampIsLast(init);
    }
  }

  /**
   On a clock that does not run backwards, a status read ends the episode
   exactly unless the last stamp or reset before it is a stamp of two or more
   pods within the freshness window.
   */
  lemma StatusEndsExactly(es: seq<Event>, j: nat)
    requires j < |es| && es[j].Status? && Forward(es)
    ensures var m := LastMark(es[..j]);
            Ends(Run(NO_EPISODE, es[..j]), es[j]) <==>
            !(m >= 0 && Stamps(es[m]) && |es[m].pods| >= 2 && es[j].now - es[m].now <= FRESHNESS)
  {
    var init := es[..j];
    assert Forward(init);
    StampIsLast(init);
    var m := LastMark(init);
    if m >= 0 {
      assert init[m] == es[m];
    }
    if Run(NO_EPISODE, init).stamp.None? && m >= 0 && Stamps(es[m]) && |es[m].pods| >= 2 {
      var k :| m < k < |init| && init[k].Status? && init[k].now - init[m].now > FRESHNESS;
      assert es[k] == init[k] && es[k].now <= es[j].now;
    }
  }

  /** One status read past the window, between two scans of the same two masters, and the event repeats. */
  lemma LateStatusRepeats(a: string, b: string, t: Instant)
    requires a != b
    ensures var es := [Scanned([a, b], t), Status(t + FRESHNESS + 1), Scanned([a, b], t + FRESHNESS + 2)];
            Firings(NO_EPISODE, es) == 2
  {
    var es := [Scanned([a, b], t), Status(t + FRESHNESS + 1), Scanned([a, b], t + FRESHNESS + 2)];
    assert es[..2][..1] == es[..1] && es[..1][..0] == [];
    assert Run(NO_EPISODE, es[..1]) == State({a, b}, Some((t, 2)));
    assert Run(NO_EPISODE, es[..2]) == NO_EPISODE;
    assert a in es[0].pods && a in es[2].pods;
    assert Firings(NO_EPISODE, es[..1]) == 1;
    assert Firings(NO_EPISODE, es[..2]) == 1;
  }
}
