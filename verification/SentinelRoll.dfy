/**
 The one-at-a-time sentinel roll: the partition the operator computes each pass,
 run against a StatefulSet that may roll any ordinal at or above it.
 */
module SentinelRoll {
  import opened Base

  const MAX_INT32: nat := 0x7fff_ffff

  // ----- pod names

  function Digit(d: nat): char
    requires d < 10
  {
    ('0' as int + d) as char
  }

  function Itoa(n: nat): string {
    if n < 10 then [Digit(n)] else Itoa(n / 10) + [Digit(n % 10)]
  }

  predicate IsDigit(c: char) {
    '0' <= c <= '9'
  }

  function Digits(s: string): Option<nat> {
    if s == "" then None
    else if !IsDigit(s[|s|-1]) then None
    else
      var d := s[|s|-1] as int - '0' as int;
      if |s| == 1 then Some(d)
      else match Digits(s[..|s|-1])
           case None => None
           case Some(v) => Some(10 * v + d)
  }

  /** Decimal parsing with an optional sign; a negative zero is zero. */
  function Atoi(s: string): Option<int> {
    if s == "" then None
    else if s[0] == '+' then (match Digits(s[1..]) case None => None case Some(v) => Some(v))
    else if s[0] == '-' then (match Digits(s[1..]) case None => None case Some(v) => Some(0 - v as int))
    else match Digits(s) case None => None case Some(v) => Some(v)
  }

  function PodName(sts: string, ordinal: nat): string {
    sts + "-" + Itoa(ordinal)
  }

  /** The ordinal off a pod name `<sts>-<ordinal>`. */
  function PodOrdinal(name: string, sts: string): Option<nat> {
    if !(sts + "-" <= name) then None
    else
      match Atoi(name[|sts|+1..])
      case None => None
      case Some(n) => if n < 0 || n > MAX_INT32 then None else Some(n)
  }

  lemma {:induction false} DigitsOfItoa(n: nat)
    ensures Digits(Itoa(n)) == Some(n) && Itoa(n) != "" && IsDigit(Itoa(n)[0])
  {
    if n >= 10 {
      DigitsOfItoa(n / 10);
      var s := Itoa(n);
      assert s[..|s|-1] == Itoa(n / 10) && s[|s|-1] == Digit(n % 10);
    }
  }

  /** Parsing inverts naming, for every StatefulSet name and every 31-bit ordinal. */
  lemma OrdinalRoundTrip(sts: string, n: nat)
    requires n <= MAX_INT32
    ensures PodOrdinal(PodName(sts, n), sts) == Some(n)
  {
    DigitsOfItoa(n);
    assert PodName(sts, n)[|sts|+1..] == Itoa(n);
    assert sts + "-" <= PodName(sts, n);
  }

  /** And only names of the set, with an ordinal in range, have one. */
  lemma OrdinalNeedsName(name: string, sts: string)
    requires PodOrdinal(name, sts).Some?
    ensures PodOrdinal(name, sts).value <= MAX_INT32 && |name| > |sts| + 1 && name[..|sts|+1] == sts + "-"
    ensures var s := name[|sts|+1..];
            Digits(if s[0] == '+' || s[0] == '-' then s[1..] else s) == PodOrdinal(name, sts)
  {
  }

  lemma NamesDistinct(sts: string, m: nat, n: nat)
    requires PodName(sts, m) == PodName(sts, n)
    ensures m == n
  {
    DigitsOfItoa(m);
    DigitsOfItoa(n);
    assert PodName(sts, m)[|sts|+1..] == Itoa(m) && PodName(sts, n)[|sts|+1..] == Itoa(n);
  }

  // ----- the partition

  /** A listed pod: whether it is at the pending revision, and the peer count it reports. */
  datatype Listed = Listed(name: string, updated: bool, peers: Option<int>)

  datatype StsRead = Missing | ReadFailed | Found(updateRev: string, currentRev: string)

  function RolledCount(pods: seq<Listed>): nat {
    if pods == [] then 0 else RolledCount(pods[..|pods|-1]) + if pods[|pods|-1].updated then 1 else 0
  }

  /** The lowest parseable ordinal among the updated pods, or `replicas`. */
  function LowestRolled(pods: seq<Listed>, sts: string, replicas: nat): nat {
    if pods == [] then replicas
    else
      var low, p := LowestRolled(pods[..|pods|-1], sts, replicas), pods[|pods|-1];
      var ord := PodOrdinal(p.name, sts);
      if p.updated && ord.Some? && ord.value < low then ord.value else low
  }

  function FirstNamed(pods: seq<Listed>, name: string): Option<Listed>
    decreases |pods|
  {
    if pods == [] then None else if pods[0].name == name then Some(pods[0]) else FirstNamed(pods[1..], name)
  }

  predicate Rejoined(pods: seq<Listed>, sts: string, ordinal: nat, threshold: int) {
    var p := FirstNamed(pods, PodName(sts, ordinal));
    p.Some? && p.value.peers.Some? && p.value.peers.value >= threshold
  }

  /** The partition for a pending roll whose pods could be listed. */
  function Partition(pods: seq<Listed>, sts: string, replicas: nat, threshold: int): int {
    var low := LowestRolled(pods, sts, replicas);
    if RolledCount(pods) >= replicas then 0
    else if RolledCount(pods) == 0 then replicas - 1
    else if threshold <= 0 || Rejoined(pods, sts, low, threshold) then (if low - 1 <= 0 then 0 else low - 1)
    else low
  }

  method PodRejoined(pods: seq<Listed>, sts: string, ordinal: nat, threshold: int) returns (rejoined: bool)
    ensures rejoined == Rejoined(pods, sts, ordinal, threshold)
  {
    var target := PodName(sts, ordinal);
    for i := 0 to |pods|
      invariant FirstNamed(pods, target) == FirstNamed(pods[i..], target)
    {
      if pods[i].name == target {
        return pods[i].peers.Some? && pods[i].peers.value >= threshold;
      }
      assert pods[i..][1..] == pods[i+1..];
    }
    return false;
  }

  /**
   The computed partition and whether an error is reported. A missing set, a
   settled one and a failed read of the set all give partition 0; a failed pod
   listing holds the roll at the top.
   */
  method ComputePartition(sts: StsRead, listing: Option<seq<Listed>>, name: string, replicas: nat, threshold: int)
    returns (partition: int, failed: bool)
    ensures !sts.Found? || sts.updateRev == "" || sts.updateRev == sts.currentRev ==>
              partition == 0 && failed == sts.ReadFailed?
    ensures sts.Found? && sts.updateRev != "" && sts.updateRev != sts.currentRev ==>
              if listing.None? then partition == replicas && failed
              else partition == Partition(listing.value, name, replicas, threshold) && !failed
  {
    if sts.Missing? {
      return 0, false;
    }
    if sts.ReadFailed? {
      return 0, true;
    }
    if sts.updateRev == "" || sts.updateRev == sts.currentRev {
      return 0, false;
    }
    if listing.None? {
      return replicas, true;
    }
    var pods := listing.value;
    var rolled: nat, low: int := 0, replicas;
    for i := 0 to |pods|
      invariant rolled == RolledCount(pods[..i]) && low == LowestRolled(pods[..i], name, replicas)
    {
      assert pods[..i+1][..i] == pods[..i];
      if !pods[i].updated {
        continue;
      }
      rolled := rolled + 1;
      var ord := PodOrdinal(pods[i].name, name);
      if ord.Some? && ord.value < low {
        low := ord.value;
      }
    }
    assert pods[..|pods|] == pods;
    if rolled >= replicas {
      return 0, false;
    }
    if rolled == 0 {
      return replicas - 1, false;
    }
    var advance := threshold <= 0;
    if !advance {
      advance := PodRejoined(pods, name, low, threshold);
    }
    if advance {
      return if low - 1 <= 0 then 0 else low - 1, false;
    }
    return low, false;
  }

  // ----- the roll against a StatefulSet

  /** One ordinal: at the old revision, being recreated, or at the new one with the peers it reports. */
  datatype Pod = Old | Gone | New(peers: Option<int>)

  /** `proven` collects the ordinals some pass saw re-joined at the new revision. */
  datatype World = World(pods: seq<Pod>, partition: int, proven: set<int>)

  /** `Unread` is a pass that could not read the set, `Unlisted` one that could not list the pods. */
  datatype Event = Pass | Unread | Unlisted | Delete(o: nat) | Recreate(o: nat) | Peers(o: nat, count: Option<int>)

  /** What listing the pods shows, ordinal by ordinal; a pod being recreated is missing. */
  function Listing(pods: seq<Pod>, sts: string): seq<Listed> {
    if pods == [] then []
    else
      var init, p := Listing(pods[..|pods|-1], sts), pods[|pods|-1];
      match p
      case Gone => init
      case Old => init + [Listed(PodName(sts, |pods| - 1), false, None)]
      case New(peers) => init + [Listed(PodName(sts, |pods| - 1), true, peers)]
  }

  /** All ordinals from `f` up are new and the one below is not. */
  ghost predicate Frontier(pods: seq<Pod>, f: nat) {
    && f <= |pods| && (forall o :: f <= o < |pods| ==> pods[o].New?) && (f > 0 ==> !pods[f-1].New?)
  }

  predicate ReachedQuorum(pods: seq<Pod>, o: nat, threshold: int) {
    o < |pods| && pods[o].New? && pods[o].peers.Some? && pods[o].peers.value >= threshold
  }

  /** The StatefulSet rolls only at or above the partition, and recreates below it at the old revision. */
  predicate Enabled(w: World, e: Event) {
    match e
    case Pass | Unread | Unlisted => true
    case Delete(o) => o < |w.pods| && w.pods[o].Old? && o >= w.partition
    case Recreate(o) => o < |w.pods| && w.pods[o].Gone?
    case Peers(o, _) => o < |w.pods| && w.pods[o].New?
  }

  function Step(w: World, e: Event, sts: string, threshold: int): World {
    match e
    case Pass =>
      var low := LowestRolled(Listing(w.pods, sts), sts, |w.pods|);
      World(w.pods, Partition(Listing(w.pods, sts), sts, |w.pods|, threshold),
            if ReachedQuorum(w.pods, low, threshold) then w.proven + {low} else w.proven)
    case Unread => w.(partition := 0)
    case Unlisted => w.(partition := |w.pods|)
    case Delete(o) => if o < |w.pods| then w.(pods := w.pods[o := Gone]) else w
    case Recreate(o) => if o < |w.pods| then w.(pods := w.pods[o := if o >= w.partition then New(None) else Old]) else w
    case Peers(o, count) => if o < |w.pods| then w.(pods := w.pods[o := New(count)]) else w
  }

  lemma ListingStep(pods: seq<Pod>, sts: string, replicas: nat)
    requires pods != [] && |pods| <= MAX_INT32
    ensures var init, l := Listing(pods[..|pods|-1], sts), Listing(pods, sts);
            && RolledCount(l) == RolledCount(init) + (if pods[|pods|-1].New? then 1 else 0)
            && LowestRolled(l, sts, replicas) ==
               var low := LowestRolled(init, sts, replicas);
               if pods[|pods|-1].New? && |pods| - 1 < low then |pods| - 1 else low
  {
    OrdinalRoundTrip(sts, |pods| - 1);
    var l := Listing(pods, sts);
    if !pods[|pods|-1].Gone? {
      assert l[..|l|-1] == Listing(pods[..|pods|-1], sts);
    }
  }

  function NewCount(pods: seq<Pod>): nat {
    if pods == [] then 0 else NewCount(pods[..|pods|-1]) + if pods[|pods|-1].New? then 1 else 0
  }

  function LowestNew(pods: seq<Pod>, replicas: nat): nat {
    if pods == [] then replicas
    else
      var low := LowestNew(pods[..|pods|-1], replicas);
      if pods[|pods|-1].New? && |pods| - 1 < low then |pods| - 1 else low
  }

  /** What the operator reads off the listing is what the ordinals are. */
  lemma {:induction false} ListingReads(pods: seq<Pod>, sts: string, replicas: nat)
    requires |pods| <= MAX_INT32
    ensures RolledCount(Listing(pods, sts)) == NewCount(pods)
    ensures LowestRolled(Listing(pods, sts), sts, replicas) == LowestNew(pods, replicas)
  {
    if pods != [] {
      ListingReads(pods[..|pods|-1], sts, replicas);
      ListingStep(pods, sts, replicas);
    }
  }

  lemma {:induction false} NewFacts(pods: seq<Pod>, replicas: nat)
    requires |pods| <= replicas
    ensures NewCount(pods) <= |pods|
    ensures (NewCount(pods) == |pods|) <==> (forall o :: 0 <= o < |pods| ==> pods[o].New?)
    ensures (NewCount(pods) == 0) <==> (forall o :: 0 <= o < |pods| ==> !pods[o].New?)
    ensures forall o :: 0 <= o < |pods| && pods[o].New? ==> LowestNew(pods, replicas) <= o
    ensures LowestNew(pods, replicas) < replicas ==>
              LowestNew(pods, replicas) < |pods| && pods[LowestNew(pods, replicas)].New?
  {
    if pods != [] {
      var init := pods[..|pods|-1];
      NewFacts(init, replicas);
      assert forall o :: 0 <= o < |init| ==> pods[o] == init[o];
    }
  }

  lemma {:induction false} LowestNewAtMost(pods: seq<Pod>, replicas: nat)
    ensures LowestNew(pods, replicas) <= replicas
  {
    if pods != [] {
      LowestNewAtMost(pods[..|pods|-1], replicas);
    }
  }

  lemma {:induction false} FirstNamedInListing(pods: seq<Pod>, sts: string, o: nat)
    requires o < |pods| && pods[o].New?
    ensures FirstNamed(Listing(pods, sts), PodName(sts, o)) == Some(Listed(PodName(sts, o), true, pods[o].peers))
  {
    var init, l := pods[..|pods|-1], Listing(pods, sts);
    if o < |init| {
      FirstNamedInListing(init, sts, o);
      if !pods[|pods|-1].Gone? {
        FirstNamedAppend(Listing(init, sts), l[|l|-1], PodName(sts, o));
      }
    } else {
      NoneNamed(init, sts, o);
      FirstNamedAppend(Listing(init, sts), l[|l|-1], PodName(sts, o));
    }
  }

  lemma {:induction false} FirstNamedAppend(l: seq<Listed>, x: Listed, name: string)
    ensures FirstNamed(l + [x], name) ==
            if FirstNamed(l, name).Some? then FirstNamed(l, name) else if x.name == name then Some(x) else None
    decreases |l|
  {
    if l != [] {
      FirstNamedAppend(l[1..], x, name);
      assert (l + [x])[1..] == l[1..] + [x];
    }
  }

  lemma {:induction false} NoneNamed(pods: seq<Pod>, sts: string, o: nat)
    requires |pods| <= o
    ensures FirstNamed(Listing(pods, sts), PodName(sts, o)) == None
  {
    if pods != [] {
      var init, l := pods[..|pods|-1], Listing(pods, sts);
      NoneNamed(init, sts, o);
      if PodName(sts, |pods| - 1) == PodName(sts, o) {
        NamesDistinct(sts, |pods| - 1, o);
      }
      if !pods[|pods|-1].Gone? {
        FirstNamedAppend(Listing(init, sts), l[|l|-1], PodName(sts, o));
      }
    }
  }

  // ----- what every run keeps

  /**
   The rolled ordinals are a top suffix starting at `f`, everything below the
   pod being rolled is old, the partition never lets more than the next ordinal
   go, and it lets that one go only once the pod at `f` was seen re-joined.
   */
  ghost predicate Inv(w: World, f: nat) {
    && |w.pods| <= MAX_INT32 && Frontier(w.pods, f)
    && (forall o :: 0 <= o < f - 1 ==> w.pods[o].Old?)
    && w.partition >= f - 1 && w.partition >= 0
    && (f < |w.pods| && (w.partition < f || (f > 0 && w.pods[f-1].Gone?)) ==> f in w.proven)
    && (forall o :: o in w.proven ==> f <= o)
  }

  lemma PassPartition(pods: seq<Pod>, f: nat, sts: string, threshold: int)
    requires |pods| <= MAX_INT32 && Frontier(pods, f) && (forall o :: 0 <= o < f - 1 ==> pods[o].Old?) && threshold > 0
    ensures LowestRolled(Listing(pods, sts), sts, |pods|) == f
    ensures Partition(Listing(pods, sts), sts, |pods|, threshold) ==
            if f == 0 then 0 else if f == |pods| || ReachedQuorum(pods, f, threshold) then f - 1 else f
  {
    ListingReads(pods, sts, |pods|);
    NewFacts(pods, |pods|);
    var low := LowestNew(pods, |pods|);
    LowestNewAtMost(pods, |pods|);
    if f < |pods| {
      FirstNamedInListing(pods, sts, f);
      assert pods[f].New? && low <= f;
    }
    assert low < |pods| ==> !pods[low].Old?;
    assert f > 0 ==> low != f - 1;
  }

  lemma InvStep(w: World, e: Event, f: nat, sts: string, threshold: int) returns (f': nat)
    requires Inv(w, f) && Enabled(w, e) && !e.Unread? && threshold > 0
    ensures Inv(Step(w, e, sts, threshold), f')
    ensures f' == f || (f > 0 && f' == f - 1 && e == Recreate(f - 1))
    ensures e.Delete? ==> e.o == f - 1 && (f < |w.pods| ==> f in w.proven)
  {
    f' := if e.Recreate? && e.o >= w.partition then f - 1 else f;
    if e.Pass? {
      PassPartition(w.pods, f, sts, threshold);
    }
  }

  ghost predicate Legal(ws: seq<World>, es: seq<Event>, sts: string, threshold: int) {
    && |ws| == |es| + 1
    && (forall k :: 0 <= k < |es| ==> Enabled(ws[k], es[k]))
    && (forall k :: 0 <= k < |es| ==> ws[k+1] == Step(ws[k], es[k], sts, threshold))
  }

  /** A pending roll with nothing rolled yet. */
  function Untouched(replicas: nat, partition: int): World {
    World(seq(replicas, _ => Old), partition, {})
  }

  /** No pass of the run failed to read the set. */
  predicate SetRead(es: seq<Event>) {
    forall k :: 0 <= k < |es| ==> !es[k].Unread?
  }

  lemma {:induction false} InvAlways(ws: seq<World>, es: seq<Event>, n: nat, p: nat, sts: string, threshold: int,
                                     k: nat)
    returns (f: nat)
    requires Legal(ws, es, sts, threshold) && k <= |es| && SetRead(es[..k]) && threshold > 0
    requires n <= MAX_INT32 && p >= n - 1 && ws[0] == Untouched(n, p)
    ensures Inv(ws[k], f)
  {
    if k == 0 {
      f := |ws[0].pods|;
    } else {
      assert es[..k][..k-1] == es[..k-1] && es[..k][k-1] == es[k-1];
      f := InvAlways(ws, es, n, p, sts, threshold, k - 1);
      assert ws[k-1+1] == Step(ws[k-1], es[k-1], sts, threshold) && Enabled(ws[k-1], es[k-1]);
      f := InvStep(ws[k-1], es[k-1], f, sts, threshold);
    }
  }

  /** Pass `i` saw ordinal `o` at the new revision with enough peers. */
  ghost predicate SeenRejoined(ws: seq<World>, es: seq<Event>, i: nat, o: int, threshold: int) {
    i < |es| < |ws| && es[i].Pass? && o >= 0 && ReachedQuorum(ws[i].pods, o, threshold)
  }

  lemma {:induction false} ProvenBySomePass(ws: seq<World>, es: seq<Event>, sts: string, threshold: int, k: nat, o: int)
    returns (i: nat)
    requires Legal(ws, es, sts, threshold) && k <= |es| && ws[0].proven == {} && o in ws[k].proven
    ensures i < k && SeenRejoined(ws, es, i, o, threshold)
  {
    assert ws[k-1+1] == Step(ws[k-1], es[k-1], sts, threshold);
    if o in ws[k-1].proven {
      i := ProvenBySomePass(ws, es, sts, threshold, k - 1, o);
    } else {
      i := k - 1;
    }
  }

  /**
   Once the hold is in force, over every interleaving of passes, failed listings,
   roll steps and peers joining or leaving, for every quorum above one and as
   long as the set itself can be read: the pods at the new
   revision are a top suffix, only the ordinal just below them is ever rolled,
   and its roll starts only after some pass saw the pod above it at the new
   revision with at least quorum-1 peers.
   */
  lemma OneAtATime(ws: seq<World>, es: seq<Event>, n: nat, p: nat, sts: string, threshold: int, k: nat)
    returns (f: nat, i: nat)
    requires Legal(ws, es, sts, threshold) && k < |es| && SetRead(es[..k+1]) && threshold > 0
    requires n <= MAX_INT32 && p >= n - 1 && ws[0] == Untouched(n, p)
    ensures Frontier(ws[k].pods, f)
    ensures forall o :: 0 <= o < f - 1 ==> ws[k].pods[o].Old?
    ensures es[k].Delete? ==> es[k].o == f - 1
    ensures es[k].Delete? && f < |ws[k].pods| ==> i < k && SeenRejoined(ws, es, i, f, threshold)
  {
    assert es[..k+1][..k] == es[..k] && es[..k+1][k] == es[k];
    f := InvAlways(ws, es, n, p, sts, threshold, k);
    i := 0;
    assert Enabled(ws[k], es[k]);
    var _ := InvStep(ws[k], es[k], f, sts, threshold);
    if es[k].Delete? && f < |ws[k].pods| {
      i := ProvenBySomePass(ws, es, sts, threshold, k, f);
    }
  }

  ghost predicate SeenBefore(ws: seq<World>, es: seq<Event>, k: nat, o: int, threshold: int) {
    exists i :: 0 <= i < k && SeenRejoined(ws, es, i, o, threshold)
  }

  /** Every roll step of the run waited for the pod above. */
  ghost predicate Gated(ws: seq<World>, es: seq<Event>, threshold: int)
    requires |ws| == |es| + 1
  {
    forall k :: 0 <= k < |es| && es[k].Delete? && es[k].o + 1 < |ws[k].pods| ==>
      SeenBefore(ws, es, k, es[k].o + 1, threshold)
  }

  /**
   The hold cannot be dropped: from an untouched set of two or more, every run
   that can read the set is gated exactly when the partition starts at or above the top ordinal. A
   settled set carries partition 0, so the set rolls ungated until the first
   pass after the new revision appears.
   */
  lemma HoldIsNeeded(replicas: nat, p: nat, sts: string, threshold: int)
    requires 2 <= replicas <= MAX_INT32 && threshold > 0
    ensures p >= replicas - 1 <==>
            forall ws, es :: Legal(ws, es, sts, threshold) && SetRead(es) && ws[0] == Untouched(replicas, p) ==>
              Gated(ws, es, threshold)
  {
    if p >= replicas - 1 {
      forall ws: seq<World>, es: seq<Event>
        | Legal(ws, es, sts, threshold) && SetRead(es) && ws[0] == Untouched(replicas, p)
        ensures Gated(ws, es, threshold)
      {
        forall k | 0 <= k < |es| && es[k].Delete? && es[k].o + 1 < |ws[k].pods|
          ensures SeenBefore(ws, es, k, es[k].o + 1, threshold)
        {
          var f, i := OneAtATime(ws, es, replicas, p, sts, threshold, k);
        }
      }
    } else {
      var es := [Delete(replicas - 1), Recreate(replicas - 1), Delete(replicas - 2)];
      var w0 := Untouched(replicas, p);
      var w1 := Step(w0, es[0], sts, threshold);
      var w2 := Step(w1, es[1], sts, threshold);
      var ws := [w0, w1, w2, Step(w2, es[2], sts, threshold)];
      assert Legal(ws, es, sts, threshold);
      assert es[2].Delete? && es[2].o + 1 < |ws[2].pods|;
      assert !Gated(ws, es, threshold);
    }
  }

  // ----- a set that cannot be read

  /** Every roll step of the run started after a pass had seen the pod above. */
  ghost predicate Waited(ws: seq<World>, es: seq<Event>)
    requires |ws| == |es| + 1
  {
    forall k :: 0 <= k < |es| && es[k].Delete? && es[k].o + 1 < |ws[k].pods| ==> es[k].o + 1 in ws[k].proven
  }

  /** More than one ordinal is still to be rolled, or one whose turn has not come. */
  predicate MidRoll(w: World, f: nat) {
    f >= 2 || (f == 1 && |w.pods| > 1 && w.pods[0].Old? && 1 !in w.proven)
  }

  /** Only ordinal 0 can still be rolled, and if it can its turn has come. */
  ghost predicate NearlyDone(w: World) {
    && (forall o :: 1 <= o < |w.pods| ==> w.pods[o].New?)
    && (|w.pods| > 1 && !w.pods[0].New? ==> 1 in w.proven)
  }

  lemma {:induction false} NearlyDoneAlways(ws: seq<World>, es: seq<Event>, sts: string, threshold: int, k: nat)
    requires Legal(ws, es, sts, threshold) && NearlyDone(ws[0]) && k <= |es|
    ensures NearlyDone(ws[k])
  {
    if k > 0 {
      NearlyDoneAlways(ws, es, sts, threshold, k - 1);
      assert ws[k-1+1] == Step(ws[k-1], es[k-1], sts, threshold) && Enabled(ws[k-1], es[k-1]);
    }
  }

  /** Roll the next ordinal, if it is not already going, and then the one below it, with no pass in between. */
  lemma UngatedRun(w: World, f: nat, sts: string, threshold: int) returns (ws: seq<World>, es: seq<Event>)
    requires Inv(w, f) && MidRoll(w, f)
    ensures Legal(ws, es, sts, threshold) && ws[0] == w && es != [] && es[0] == Unread && !Waited(ws, es)
  {
    var a := Step(w, Unread, sts, threshold);
    if w.pods[f-1].Old? && f < |w.pods| && f !in w.proven {
      es := [Unread, Delete(f - 1)];
      ws := [w, a, Step(a, es[1], sts, threshold)];
      assert es[1].Delete? && es[1].o + 1 < |ws[1].pods|;
    } else if w.pods[f-1].Old? {
      es := [Unread, Delete(f - 1), Recreate(f - 1), Delete(f - 2)];
      var b := Step(a, es[1], sts, threshold);
      var c := Step(b, es[2], sts, threshold);
      ws := [w, a, b, c, Step(c, es[3], sts, threshold)];
      assert es[3].Delete? && es[3].o + 1 < |ws[3].pods|;
    } else {
      es := [Unread, Recreate(f - 1), Delete(f - 2)];
      var b := Step(a, es[1], sts, threshold);
      ws := [w, a, b, Step(b, es[2], sts, threshold)];
      assert es[2].Delete? && es[2].o + 1 < |ws[2].pods|;
    }
  }

  /**
   A failed read of the set is applied as partition 0. From any point of a held
   roll, every continuation behind such a pass still waits for each pod exactly
   when the read did not fail mid-roll.
   */
  lemma UnreadUngates(w: World, f: nat, sts: string, threshold: int)
    requires Inv(w, f)
    ensures (forall ws, es ::
               Legal(ws, es, sts, threshold) && ws[0] == w && es != [] && es[0] == Unread ==> Waited(ws, es)) <==>
            !MidRoll(w, f)
  {
    if MidRoll(w, f) {
      var ws, es := UngatedRun(w, f, sts, threshold);
    } else {
      forall ws: seq<World>, es: seq<Event> | Legal(ws, es, sts, threshold) && ws[0] == w && es != [] && es[0] == Unread
        ensures Waited(ws, es)
      {
        forall k | 0 <= k < |es| && es[k].Delete? && es[k].o + 1 < |ws[k].pods|
          ensures es[k].o + 1 in ws[k].proven
        {
          NearlyDoneAlways(ws, es, sts, threshold, k);
          assert Enabled(ws[k], es[k]);
        }
      }
    }
  }

  // ----- the roll ends

  /** Every ordinal seen re-joined still reports enough peers. */
  ghost predicate Joined(w: World, threshold: int) {
    forall o :: o in w.proven ==> o >= 0 && ReachedQuorum(w.pods, o, threshold)
  }

  /** No pod that was seen re-joined falls below the threshold. */
  predicate StaysJoined(w: World, e: Event, threshold: int) {
    e.Peers? && e.o in w.proven ==> e.count.Some? && e.count.value >= threshold
  }

  lemma PartitionNeverRises(w: World, e: Event, f: nat, sts: string, threshold: int)
    requires Inv(w, f) && Joined(w, threshold) && Enabled(w, e) && StaysJoined(w, e, threshold) && threshold > 0
    requires !e.Unread?
    ensures Joined(Step(w, e, sts, threshold), threshold)
    ensures !e.Unlisted? ==> Step(w, e, sts, threshold).partition <= w.partition
  {
    if e.Pass? {
      PassPartition(w.pods, f, sts, threshold);
    }
  }

  function Advances(ws: seq<World>): nat {
    if |ws| <= 1 then 0
    else Advances(ws[..|ws|-1]) + if ws[|ws|-1].partition < ws[|ws|-2].partition then 1 else 0
  }

  /** The deletions and recreations of a run. */
  function RollSteps(es: seq<Event>): nat {
    if es == [] then 0
    else RollSteps(es[..|es|-1]) + if es[|es|-1].Delete? || es[|es|-1].Recreate? then 1 else 0
  }

  function FailedListings(es: seq<Event>): nat {
    if es == [] then 0 else FailedListings(es[..|es|-1]) + if es[|es|-1].Unlisted? then 1 else 0
  }

  /**
   The roll steps still needed with the frontier at `f`; a pod that will come
   back at the old revision, because the partition rose above it, needs two more.
   */
  function Remaining(w: World, f: nat): int
    requires f <= |w.pods|
  {
    if f == 0 then 0
    else if w.pods[f-1].Old? then 2 * f
    else 2 * f - 1 + if w.partition >= f then 2 else 0
  }

  lemma RollStep(w: World, e: Event, f: nat, sts: string, threshold: int) returns (f': nat)
    requires Inv(w, f) && Joined(w, threshold) && Enabled(w, e) && StaysJoined(w, e, threshold) && threshold > 0
    requires !e.Unread?
    ensures Inv(Step(w, e, sts, threshold), f')
    ensures Remaining(Step(w, e, sts, threshold), f') + (if e.Delete? || e.Recreate? then 1 else 0) <=
            Remaining(w, f) + if e.Unlisted? then 2 else 0
  {
    PartitionNeverRises(w, e, f, sts, threshold);
    f' := InvStep(w, e, f, sts, threshold);
  }

  /** A held roll whose rejoined pods stay joined, with the set readable throughout. */
  ghost predicate Steady(ws: seq<World>, es: seq<Event>, replicas: nat, p: nat, sts: string, threshold: int) {
    && Legal(ws, es, sts, threshold) && SetRead(es) && threshold > 0
    && replicas <= MAX_INT32 && p >= replicas - 1 && ws[0] == Untouched(replicas, p)
    && forall k :: 0 <= k < |es| ==> StaysJoined(ws[k], es[k], threshold)
  }

  lemma SteadyPrefix(ws: seq<World>, es: seq<Event>, replicas: nat, p: nat, sts: string, threshold: int)
    requires Steady(ws, es, replicas, p, sts, threshold) && es != []
    ensures var n := |es| - 1;
            && Steady(ws[..n+1], es[..n], replicas, p, sts, threshold)
            && ws[n+1] == Step(ws[n], es[n], sts, threshold) && Enabled(ws[n], es[n])
            && !es[n].Unread? && StaysJoined(ws[n], es[n], threshold)
  {
  }

  /** Two roll steps per pod, and at most two more per failed listing. */
  lemma {:induction false} RollStepsBounded(ws: seq<World>, es: seq<Event>, replicas: nat, p: nat, sts: string,
                                            threshold: int)
    returns (f: nat)
    requires Steady(ws, es, replicas, p, sts, threshold)
    ensures Inv(ws[|es|], f) && Joined(ws[|es|], threshold) && |ws[|es|].pods| == replicas
    ensures RollSteps(es) <= RollSteps(es) + Remaining(ws[|es|], f) <= 2 * replicas + 2 * FailedListings(es)
  {
    if es == [] {
      f := replicas;
    } else {
      var n := |es| - 1;
      SteadyPrefix(ws, es, replicas, p, sts, threshold);
      var g := RollStepsBounded(ws[..n+1], es[..n], replicas, p, sts, threshold);
      PartitionNeverRises(ws[n], es[n], g, sts, threshold);
      f := RollStep(ws[n], es[n], g, sts, threshold);
    }
  }

  /** `replicas` for every failed listing. */
  function Allowance(es: seq<Event>, replicas: nat): nat {
    if es == [] then 0 else Allowance(es[..|es|-1], replicas) + if es[|es|-1].Unlisted? then replicas else 0
  }

  lemma {:induction false} AllowanceIs(es: seq<Event>, replicas: nat)
    ensures Allowance(es, replicas) == replicas * FailedListings(es)
  {
    if es != [] {
      AllowanceIs(es[..|es|-1], replicas);
      Distribute(replicas, FailedListings(es[..|es|-1]));
    }
  }

  lemma {:induction false} AdvancesAllowed(ws: seq<World>, es: seq<Event>, replicas: nat, p: nat, sts: string,
                                           threshold: int)
    requires Steady(ws, es, replicas, p, sts, threshold)
    ensures Advances(ws) <= p - ws[|es|].partition + Allowance(es, replicas)
    ensures 0 <= ws[|es|].partition
  {
    if es != [] {
      var n := |es| - 1;
      SteadyPrefix(ws, es, replicas, p, sts, threshold);
      var was := ws[..n+1];
      AdvancesAllowed(was, es[..n], replicas, p, sts, threshold);
      var g := RollStepsBounded(was, es[..n], replicas, p, sts, threshold);
      assert was[n] == ws[n] && ws[..|ws|-1] == was;
      AdvanceStep(ws[n], es[n], g, sts, threshold);
    }
  }

  /** At most as many advances as the first hold is high, and at most `replicas` more per failed listing. */
  lemma AdvancesBounded(ws: seq<World>, es: seq<Event>, replicas: nat, p: nat, sts: string, threshold: int)
    requires Steady(ws, es, replicas, p, sts, threshold)
    ensures Advances(ws) <= p - ws[|es|].partition + replicas * FailedListings(es)
    ensures 0 <= ws[|es|].partition
  {
    AdvancesAllowed(ws, es, replicas, p, sts, threshold);
    AllowanceIs(es, replicas);
  }

  lemma AdvanceStep(w: World, e: Event, f: nat, sts: string, threshold: int)
    requires Inv(w, f) && Joined(w, threshold) && Enabled(w, e) && StaysJoined(w, e, threshold) && threshold > 0
    requires !e.Unread?
    ensures var p := Step(w, e, sts, threshold).partition;
            0 <= p && (if p < w.partition then 1 else 0) <= w.partition - p + if e.Unlisted? then |w.pods| else 0
  {
    PartitionNeverRises(w, e, f, sts, threshold);
    var f' := InvStep(w, e, f, sts, threshold);
  }

  lemma Distribute(a: int, b: int)
    ensures a * (b + 1) == a * b + a && a * (b + 0) == a * b
  {
  }

  /** Nothing moves the roll on: a pass would leave the partition, and no pod can be deleted or recreated. */
  ghost predicate Stalled(w: World, sts: string, threshold: int) {
    && Step(w, Pass, sts, threshold).partition == w.partition
    && forall o: nat :: !Enabled(w, Delete(o)) && !Enabled(w, Recreate(o))
  }

  /**
   Every run, not only a chosen one: wherever the roll has stalled and every
   rolled pod has rejoined, all pods are at the new revision.
   */
  lemma StalledIsDone(ws: seq<World>, es: seq<Event>, n: nat, p: nat, sts: string, threshold: int, k: nat)
    requires Legal(ws, es, sts, threshold) && k <= |es| && SetRead(es[..k]) && threshold > 0
    requires n <= MAX_INT32 && p >= n - 1 && ws[0] == Untouched(n, p)
    requires Stalled(ws[k], sts, threshold)
    requires forall o: nat :: o < |ws[k].pods| && ws[k].pods[o].New? ==> ReachedQuorum(ws[k].pods, o, threshold)
    ensures AllNew(ws[k].pods, |ws[k].pods|)
  {
    var f := InvAlways(ws, es, n, p, sts, threshold, k);
    if f > 0 {
      Progress(ws[k], f, sts, threshold);
    }
  }

  lemma Progress(w: World, f: nat, sts: string, threshold: int)
    requires Inv(w, f) && f > 0 && threshold > 0 && (f < |w.pods| ==> ReachedQuorum(w.pods, f, threshold))
    requires Step(w, Pass, sts, threshold).partition == w.partition
    ensures Enabled(w, Delete(f - 1)) || Enabled(w, Recreate(f - 1))
  {
    PassPartition(w.pods, f, sts, threshold);
  }

  predicate Enables(w: World, es: seq<Event>, sts: string, threshold: int)
    decreases |es|
  {
    es == [] || (Enabled(w, es[0]) && Enables(Step(w, es[0], sts, threshold), es[1..], sts, threshold))
  }

  predicate AllNew(pods: seq<Pod>, replicas: nat) {
    |pods| == replicas && forall o :: 0 <= o < replicas ==> pods[o].New?
  }

  function After(w: World, es: seq<Event>, sts: string, threshold: int): World
    decreases |es|
  {
    if es == [] then w else After(Step(w, es[0], sts, threshold), es[1..], sts, threshold)
  }

  /** The pod at the frontier rejoins, a pass sees it, and the next ordinal rolls; then on to the one below. */
  function Rounds(f: nat, replicas: nat, threshold: int): seq<Event> {
    if f == 0 then []
    else
      [if f < replicas then Peers(f, Some(threshold)) else Pass, Pass, Delete(f - 1), Recreate(f - 1)] +
      Rounds(f - 1, replicas, threshold)
  }

  /** The pod at the frontier rejoins and two passes lower the partition to the ordinal below it. */
  lemma RoundOpens(w: World, f: nat, sts: string, threshold: int) returns (b: World)
    requires Inv(w, f) && f > 0 && w.pods[f-1].Old? && threshold > 0
    ensures var e := Rounds(f, |w.pods|, threshold)[0];
            && Enabled(w, e) && b == Step(Step(w, e, sts, threshold), Pass, sts, threshold)
            && Inv(b, f) && |b.pods| == |w.pods| && b.pods[..f] == w.pods[..f] && b.partition == f - 1
  {
    var e := Rounds(f, |w.pods|, threshold)[0];
    var a := Step(w, e, sts, threshold);
    var fa := InvStep(w, e, f, sts, threshold);
    PassPartition(a.pods, f, sts, threshold);
    var fb := InvStep(a, Pass, f, sts, threshold);
    b := Step(a, Pass, sts, threshold);
  }

  /** Then the ordinal rolls. */
  lemma RoundRolls(b: World, f: nat, sts: string, threshold: int) returns (d: World)
    requires Inv(b, f) && f > 0 && b.pods[f-1].Old? && b.partition == f - 1 && threshold > 0
    ensures var c := Step(b, Delete(f - 1), sts, threshold);
            && Enabled(b, Delete(f - 1)) && Enabled(c, Recreate(f - 1)) && d == Step(c, Recreate(f - 1), sts, threshold)
            && Inv(d, f - 1) && |d.pods| == |b.pods| && (f > 1 ==> d.pods[f-2].Old?)
  {
    var c := Step(b, Delete(f - 1), sts, threshold);
    var fc := InvStep(b, Delete(f - 1), f, sts, threshold);
    var fd := InvStep(c, Recreate(f - 1), f, sts, threshold);
    d := Step(c, Recreate(f - 1), sts, threshold);
  }

  lemma FirstStep(w: World, e: Event, rest: seq<Event>, sts: string, threshold: int)
    ensures After(w, [e] + rest, sts, threshold) == After(Step(w, e, sts, threshold), rest, sts, threshold)
    ensures Enables(w, [e] + rest, sts, threshold) <==>
              Enabled(w, e) && Enables(Step(w, e, sts, threshold), rest, sts, threshold)
  {
    assert ([e] + rest)[1..] == rest;
  }

  /**
   Such runs exist: after one round per remaining ordinal all pods are at the
   new revision.
   */
  lemma {:induction false} RollCompletes(w: World, f: nat, sts: string, threshold: int)
    requires Inv(w, f) && (f > 0 ==> w.pods[f-1].Old?) && threshold > 0
    ensures var es := Rounds(f, |w.pods|, threshold);
            && |es| == 4 * f && Enables(w, es, sts, threshold)
            && AllNew(After(w, es, sts, threshold).pods, |w.pods|)
    decreases f
  {
    if f > 0 {
      var b := RoundOpens(w, f, sts, threshold);
      var d := RoundRolls(b, f, sts, threshold);
      RollCompletes(d, f - 1, sts, threshold);
      RoundThen(w, b, d, f, sts, threshold);
    }
  }

  lemma RoundThen(w: World, b: World, d: World, f: nat, sts: string, threshold: int)
    requires f > 0 && |d.pods| == |w.pods|
    requires var e := Rounds(f, |w.pods|, threshold)[0];
             Enabled(w, e) && b == Step(Step(w, e, sts, threshold), Pass, sts, threshold)
    requires var c := Step(b, Delete(f - 1), sts, threshold);
             Enabled(b, Delete(f - 1)) && Enabled(c, Recreate(f - 1)) && d == Step(c, Recreate(f - 1), sts, threshold)
    ensures var es, rest := Rounds(f, |w.pods|, threshold), Rounds(f - 1, |w.pods|, threshold);
            && After(w, es, sts, threshold) == After(d, rest, sts, threshold)
            && (Enables(w, es, sts, threshold) <==> Enables(d, rest, sts, threshold))
            && |es| == 4 + |rest|
  {
    var e, rest := Rounds(f, |w.pods|, threshold)[0], Rounds(f - 1, |w.pods|, threshold);
    var r2 := [Recreate(f - 1)] + rest;
    var r1 := [Delete(f - 1)] + r2;
    FirstStep(Step(b, Delete(f - 1), sts, threshold), Recreate(f - 1), rest, sts, threshold);
    FirstStep(b, Delete(f - 1), r2, sts, threshold);
    FirstStep(Step(w, e, sts, threshold), Pass, r1, sts, threshold);
    FirstStep(w, e, [Pass] + r1, sts, threshold);
    assert Rounds(f, |w.pods|, threshold) == [e] + ([Pass] + r1);
  }
}
