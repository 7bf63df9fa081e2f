/**
 The strip-then-failover dispatch as a transition system: a durable marker is
 written before an in-memory latch, the latch before the label strip, the strip
 before SENTINEL FAILOVER. The operator may crash between any two steps.
 */
module FailoverDispatch {
  import opened Base
  import opened RoleLabels

  const LATCH_TTL: nat := 210 * SECOND
  const COOLDOWN_TTL: nat := 15 * SECOND

  /** The pre-strip address, the epoch it was read under and the deadline: latch and marker alike. */
  datatype Fence = Fence(addr: string, epoch: int, deadline: Instant)

  /** An observed address and epoch; ("", 0) when there is no snapshot. */
  datatype View = View(addr: string, epoch: int)

  function ViewOf(s: Snapshot): View {
    if s.present then View(s.addr, s.epoch) else View("", 0)
  }

  /** The observer moved off the pre-strip address under an epoch the fence honours. */
  predicate Released(f: Fence, v: View) {
    v.addr != "" && v.addr != f.addr && !(f.epoch > 0 && v.epoch < f.epoch)
  }

  predicate Holds(f: Fence, now: Instant, v: View) {
    now <= f.deadline && !Released(f, v)
  }

  /** A draining read of the latch: a latch that no longer holds is dropped. */
  function Drain(latch: Option<Fence>, now: Instant, v: View): Option<Fence> {
    if latch.Some? && Holds(latch.value, now, v) then latch else None
  }

  /** Where the reconcile stands; `pod` is the index of the pod being handed off. */
  datatype Control =
    | Between | AfterPhase7
    | Persisted(f: Fence, pod: nat) | Latched(f: Fence, pod: nat) | Stripped(f: Fence, pod: nat)

  datatype Core = Core(now: Instant, latch: Option<Fence>, marker: Option<Fence>, pc: Control)

  /** The three clock reads and the two snapshot reads of one Phase 7 pass. */
  datatype Reads = Reads(rehydrateAt: Instant, maintainAt: Instant, relabelAt: Instant,
                         maintainSnap: Snapshot, relabelSnap: Snapshot)

  datatype Event =
    | Tick(t: Instant)
    | Crash
    | DrainRead(v: View)
    | Pass(r: Reads, clearOk: bool, labels: Labels, completed: bool)
    | Persist(pod: nat, v: View, ok: bool)
    | SetLatch
    | Strip(ok: bool, clearOk: bool)
    | Failover(ok: bool, restoreOk: bool, clearOk: bool)
    | Recreated(pod: nat)
    | Finish

  // ----- the protocol, labels aside

  /** Rehydrate from the marker, then clear the marker once the latch no longer holds. */
  function Maintain(latch: Option<Fence>, marker: Option<Fence>, r: Reads, clearOk: bool)
    : (Option<Fence>, Option<Fence>)
  {
    if marker.None? then (latch, marker)
    else
      var l := if latch.None? && r.rehydrateAt < marker.value.deadline then marker else latch;
      var l := Drain(l, r.maintainAt, ViewOf(r.maintainSnap));
      (l, if l.None? && clearOk then None else marker)
  }

  /** The latch as the relabel decision reads it; only a quorate snapshot consults it. */
  function RelabelLatch(latch: Option<Fence>, r: Reads): Option<Fence> {
    if r.relabelSnap.present && r.relabelSnap.quorumOk then Drain(latch, r.relabelAt, ViewOf(r.relabelSnap)) else latch
  }

  predicate SuppressesFrom(latch: Option<Fence>, marker: Option<Fence>, r: Reads, clearOk: bool) {
    && r.relabelSnap.present && r.relabelSnap.quorumOk
    && Drain(Maintain(latch, marker, r, clearOk).0, r.relabelAt, ViewOf(r.relabelSnap)).Some?
  }

  /** The pass's relabel is suppressed by the latch. */
  predicate Suppresses(c: Core, e: Event)
    requires e.Pass?
  {
    SuppressesFrom(c.latch, c.marker, e.r, e.clearOk)
  }

  function CoreStep(c: Core, e: Event): Core {
    match e
    case Tick(t) => c.(now := t)
    case Crash => c.(latch := None, pc := Between)
    case DrainRead(v) => c.(latch := Drain(c.latch, c.now, v))
    case Pass(r, clearOk, _, completed) =>
      var (l, m) := Maintain(c.latch, c.marker, r, clearOk);
      Core(r.relabelAt, RelabelLatch(l, r), m, if completed then AfterPhase7 else Between)
    case Persist(pod, v, ok) =>
      var c := c.(latch := Drain(c.latch, c.now, v), pc := Between);
      var f := Fence(v.addr, v.epoch, c.now + LATCH_TTL);
      if c.latch.None? && ok then c.(marker := Some(f), pc := Persisted(f, pod)) else c
    case SetLatch => if c.pc.Persisted? then c.(latch := Some(c.pc.f), pc := Latched(c.pc.f, c.pc.pod)) else c
    case Strip(ok, clearOk) =>
      if !c.pc.Latched? then c
      else if ok then c.(pc := Stripped(c.pc.f, c.pc.pod))
      else c.(latch := None, marker := if clearOk then None else c.marker, pc := Between)
    case Failover(ok, _, clearOk) =>
      if !c.pc.Stripped? then c
      else if ok then c.(pc := Between)
      else
        Core(c.now, Some(Fence(c.pc.f.addr, 0, c.now + COOLDOWN_TTL)), if clearOk then None else c.marker, Between)
    case Recreated(_) => c
    case Finish => if c.pc.AfterPhase7? then c.(pc := Between) else c
  }

  // ----- the operator's code, step by step

  /** The API server's and the sentinels' answers to one dispatch. */
  datatype Answers = Answers(persist: bool, strip: bool, failover: bool, restore: bool, clear: bool)

  /** A whole dispatch as protocol events; the later ones are no-ops once it stopped. */
  function DispatchEvents(pod: nat, v: View, a: Answers): seq<Event> {
    [Persist(pod, v, a.persist), SetLatch, Strip(a.strip, a.clear), Failover(a.failover, a.restore, a.clear)]
  }

  class Operator {
    const phase7: Phase7
    var latch: Option<Fence>   // in memory
    var marker: Option<Fence>  // in the CR's status

    constructor (phase7: Phase7, marker: Option<Fence>)
      ensures this.phase7 == phase7 && this.marker == marker && latch == None
    {
      this.phase7, this.latch, this.marker := phase7, None, marker;
    }

    method LatchActive(now: Instant, v: View) returns (held: bool)
      modifies this`latch
      ensures latch == Drain(old(latch), now, v) && held == latch.Some?
      ensures held <==>
              && old(latch).Some? && now <= old(latch).value.deadline
              && (|| v.addr in {"", old(latch).value.addr}
                  || (old(latch).value.epoch > 0 && v.epoch < old(latch).value.epoch))
    {
      if latch.None? {
        return false;
      }
      if Holds(latch.value, now, v) {
        return true;
      }
      latch := None;
      return false;
    }

    method ClearMarker(ok: bool)
      modifies this`marker
      ensures marker == if ok then None else old(marker)
    {
      if marker.None? {
        return;
      }
      if ok {
        marker := None;
      }
    }

    method MaintainMarker(r: Reads, clearOk: bool)
      modifies this`latch, this`marker
      ensures (latch, marker) == Maintain(old(latch), old(marker), r, clearOk)
    {
      if marker.None? {
        return;
      }
      if latch.None? && r.rehydrateAt < marker.value.deadline {
        latch := marker;
      }
      var held := LatchActive(r.maintainAt, ViewOf(r.maintainSnap));
      if !held {
        ClearMarker(clearOk);
      }
    }

    /** The first half of Phase 7: maintain the marker, read the latch, decide. */
    method DecideRoles(r: Reads, clearOk: bool) returns (plan: Plan)
      requires phase7.Valid()
      modifies this, phase7`stability, phase7`folded
      ensures phase7.Valid()
      ensures (latch, marker) ==
              var (l, m) := Maintain(old(latch), old(marker), r, clearOk); (RelabelLatch(l, r), m)
      ensures (phase7.stability, plan) ==
              Decide(r.relabelSnap, SuppressesFrom(old(latch), old(marker), r, clearOk), old(phase7.stability),
                     phase7.pods, phase7.labels)
    {
      MaintainMarker(r, clearOk);
      var held := false;
      if r.relabelSnap.present && r.relabelSnap.quorumOk {
        held := LatchActive(r.relabelAt, ViewOf(r.relabelSnap));
      }
      plan := phase7.DesiredRoles(r.relabelSnap, held);
    }

    /** Phase 7: maintain the marker, decide, and patch until done or a patch fails. */
    method ReconcileRoleLabels(r: Reads, clearOk: bool, ok: nat -> bool) returns (completed: bool, ghost plan: Plan)
      requires phase7.Valid()
      modifies this, phase7
      ensures phase7.Valid()
      ensures var before := Core(r.rehydrateAt, old(latch), old(marker), Between);
              var e := Pass(r, clearOk, phase7.labels, completed);
              && CoreStep(before, e) == Core(r.relabelAt, latch, marker, if completed then AfterPhase7 else Between)
              && (phase7.stability, plan) ==
                 Decide(r.relabelSnap, Suppresses(before, e), old(phase7.stability), phase7.pods, old(phase7.labels))
      ensures if plan.Suppress? then phase7.labels == old(phase7.labels)
              else Intermediate(old(phase7.labels), plan.want, phase7.labels)
      ensures completed ==> Completes(plan, old(phase7.labels), phase7.labels)
    {
      var p := DecideRoles(r, clearOk);
      plan := p;
      completed := phase7.ApplyPlan(p, ok);
    }

    /** Phase 11's dispatch of the pod carrying role=primary, with its rollbacks. */
    method Dispatch(pod: nat, v: View, now: Instant, a: Answers) returns (dispatched: bool)
      requires phase7.Valid() && pod < |phase7.labels| && phase7.labels[pod] == Some(Primary)
      modifies this, phase7
      ensures phase7.Valid()
      ensures CoreRun(Core(now, old(latch), old(marker), AfterPhase7), DispatchEvents(pod, v, a)) ==
              Core(now, latch, marker, Between)
      ensures dispatched <==> old(Drain(latch, now, v)).None? && a.persist && a.strip && a.failover
      ensures phase7.labels == if dispatched || (old(Drain(latch, now, v)).None? && a.persist && a.strip && !a.restore)
                               then old(phase7.labels)[pod := None] else old(phase7.labels)
      ensures var f := Fence(v.addr, v.epoch, now + LATCH_TTL);
              var cleared := if a.clear then None else Some(f);
              if old(Drain(latch, now, v)).Some? then latch == old(latch) && marker == old(marker)
              else if !a.persist then latch == None && marker == old(marker)
              else if !a.strip then latch == None && marker == cleared
              else if a.failover then latch == Some(f) && marker == Some(f)
              else latch == Some(Fence(v.addr, 0, now + COOLDOWN_TTL)) && marker == cleared
    {
      CoreRunFour(Core(now, latch, marker, AfterPhase7), pod, v, a);
      var held := LatchActive(now, v);
      if held {
        return false;
      }
      var f := Fence(v.addr, v.epoch, now + LATCH_TTL);
      if !a.persist {
        return false;
      }
      marker := Some(f);
      latch := Some(f);
      var stripped := phase7.StripLabel(pod, a.strip);
      if !stripped {
        latch := None;
        ClearMarker(a.clear);
        return false;
      }
      if !a.failover {
        var restored := phase7.PatchOne(pod, Primary, a.restore);
        ClearMarker(a.clear);
        latch := Some(Fence(f.addr, 0, now + COOLDOWN_TTL));
        return false;
      }
      return true;
    }
  }

  function CoreRun(c: Core, es: seq<Event>): Core
    decreases |es|
  {
    if es == [] then c else CoreRun(CoreStep(c, es[0]), es[1..])
  }

  lemma CoreRunFour(c: Core, pod: nat, v: View, a: Answers)
    ensures CoreRun(c, DispatchEvents(pod, v, a)) ==
            CoreStep(CoreStep(CoreStep(CoreStep(c, Persist(pod, v, a.persist)), SetLatch), Strip(a.strip, a.clear)),
                     Failover(a.failover, a.restore, a.clear))
  {
    var es := DispatchEvents(pod, v, a);
    var c1 := CoreStep(c, es[0]);
    var c2 := CoreStep(c1, es[1]);
    var c3 := CoreStep(c2, es[2]);
    assert es[1..][1..] == es[2..] && es[2..][1..] == es[3..] && es[3..][1..] == [];
    assert CoreRun(c3, es[3..]) == CoreStep(c3, es[3]);
    assert CoreRun(c2, es[2..]) == CoreRun(c3, es[3..]);
    assert CoreRun(c1, es[1..]) == CoreRun(c2, es[2..]);
  }

  // ----- the whole system

  datatype Sys = Sys(core: Core, labels: Labels, streak: Option<Streak>)

  /** The relabel decision of a pass. */
  function PassPlan(pods: seq<Pod>, s: Sys, e: Event): (Option<Streak>, Plan)
    requires e.Pass? && |s.labels| == |pods|
  {
    Decide(e.r.relabelSnap, Suppresses(s.core, e), s.streak, pods, s.labels)
  }

  /** The event can happen here; a pass ends in any labelling its patches can reach. */
  ghost predicate Enabled(pods: seq<Pod>, s: Sys, e: Event) {
    && |s.labels| == |pods|
    && match e
       case Tick(t) => s.core.now <= t
       case Crash => true
       case DrainRead(_) => s.core.pc.Between? || s.core.pc.AfterPhase7?
       case Pass(r, _, labels, completed) =>
         && s.core.pc.Between?
         && s.core.now <= r.rehydrateAt <= r.maintainAt <= r.relabelAt
         && var plan := PassPlan(pods, s, e).1;
            && (if plan.Suppress? then labels == s.labels else Intermediate(s.labels, plan.want, labels))
            && (completed ==> Completes(plan, s.labels, labels))
       case Persist(pod, _, _) => s.core.pc.AfterPhase7? && pod < |pods| && s.labels[pod] == Some(Primary)
       case SetLatch => s.core.pc.Persisted?
       case Strip(_, _) => s.core.pc.Latched? && s.core.pc.pod < |pods|
       case Failover(_, _, _) => s.core.pc.Stripped? && s.core.pc.pod < |pods|
       case Recreated(pod) => pod < |pods|
       case Finish => s.core.pc.AfterPhase7?
  }

  function Step(pods: seq<Pod>, s: Sys, e: Event): Sys
    requires |s.labels| == |pods|
  {
    Sys(CoreStep(s.core, e),
        match e
        case Pass(_, _, labels, _) => labels
        case Strip(ok, _) =>
          if ok && s.core.pc.Latched? && s.core.pc.pod < |pods| then s.labels[s.core.pc.pod := None] else s.labels
        case Failover(ok, restoreOk, _) =>
          if !ok && restoreOk && s.core.pc.Stripped? && s.core.pc.pod < |pods|
          then s.labels[s.core.pc.pod := Some(Primary)] else s.labels
        case Recreated(pod) => if pod < |pods| then s.labels[pod := None] else s.labels
        case _ => s.labels,
        match e
        case Pass(_, _, _, _) => PassPlan(pods, s, e).0
        case Crash => None
        case _ => s.streak)
  }

  /** `ss` is a run of the system over the events `es`. */
  ghost predicate Legal(pods: seq<Pod>, ss: seq<Sys>, es: seq<Event>) {
    && |ss| == |es| + 1
    && (forall k :: 0 <= k < |es| ==> Enabled(pods, ss[k], es[k]))
    && (forall k :: 0 <= k < |es| ==> ss[k+1] == Step(pods, ss[k], es[k]))
  }

  /** A dispatch under way has its marker written, and its latch once set. */
  ghost predicate Recorded(c: Core) {
    && (c.pc.Persisted? ==> c.marker == Some(c.pc.f) && c.latch == None)
    && (c.pc.Latched? || c.pc.Stripped? ==> c.marker == Some(c.pc.f) && c.latch == Some(c.pc.f))
  }

  lemma RecordedStep(pods: seq<Pod>, s: Sys, e: Event)
    requires Recorded(s.core) && Enabled(pods, s, e)
    ensures Recorded(Step(pods, s, e).core)
  {
  }

  lemma {:induction false} RecordedAlways(pods: seq<Pod>, ss: seq<Sys>, es: seq<Event>, k: nat)
    requires Legal(pods, ss, es) && Recorded(ss[0].core) && k <= |es|
    ensures Recorded(ss[k].core)
  {
    if k > 0 {
      RecordedAlways(pods, ss, es, k - 1);
      RecordedStep(pods, ss[k-1], es[k-1]);
      assert ss[k-1+1] == Step(pods, ss[k-1], es[k-1]);
    }
  }

  // ----- no re-stamp while the dispatch is in flight

  /**
   What may end the suppression before the deadline: the failover failed and was
   rolled back; a newer dispatch replaced the marker; a pass read a different
   address at an epoch the fence honours; or a pass ran with no snapshot while
   no pod carried any role label.
   */
  predicate Closes(s: Sys, e: Event, f: Fence) {
    match e
    case Failover(ok, _, _) => !ok
    case Persist(_, _, ok) => ok
    case Pass(r, _, _, _) =>
      || Released(f, ViewOf(r.maintainSnap)) || Released(f, ViewOf(r.relabelSnap))
      || (!r.relabelSnap.present && !AnyLabelled(s.labels))
    case _ => false
  }

  ghost predicate Guarded(c: Core, f: Fence) {
    && c.marker == Some(f) && (c.latch == None || c.latch == Some(f))
    && !c.pc.Persisted? && !c.pc.Latched? && (c.pc.Stripped? ==> c.pc.f == f)
  }

  /** Before the deadline, a pass that closes nothing patches nothing. */
  lemma GuardedPass(pods: seq<Pod>, s: Sys, e: Event, f: Fence)
    requires Guarded(s.core, f) && e.Pass? && Enabled(pods, s, e) && !Closes(s, e, f)
    requires e.r.relabelAt < f.deadline
    ensures Guarded(Step(pods, s, e).core, f) && Step(pods, s, e).labels == s.labels
  {
    var l := Maintain(s.core.latch, s.core.marker, e.r, e.clearOk);
    assert l == (Some(f), Some(f));
    var plan := PassPlan(pods, s, e).1;
    if !plan.Suppress? {
      assert plan.want == Unclassified(|pods|);
    }
  }

  lemma GuardedStep(pods: seq<Pod>, s: Sys, e: Event, f: Fence)
    requires Guarded(s.core, f) && Enabled(pods, s, e) && !Closes(s, e, f)
    requires Step(pods, s, e).core.now < f.deadline
    ensures Guarded(Step(pods, s, e).core, f)
    ensures forall i :: i in Primaries(Step(pods, s, e).labels) ==> i in Primaries(s.labels)
  {
    if e.Pass? {
      GuardedPass(pods, s, e, f);
    }
  }

  /**
   In every run, with any number of crashes, clock steps, snapshot changes,
   draining reads and failed marker clears: from a strip at step `i` on, as long
   as nothing closes the dispatch and its deadline has not been reached, no pod
   gains role=primary, the stripped pod least of all.
   */
  lemma {:induction false} NoRestamp(pods: seq<Pod>, ss: seq<Sys>, es: seq<Event>, i: nat, j: nat)
    requires Legal(pods, ss, es) && Recorded(ss[0].core) && i < j <= |es|
    requires es[i].Strip? && es[i].ok
    requires var f := ss[i].core.pc.f;
             ss[j].core.now < f.deadline && forall k :: i < k < j ==> !Closes(ss[k], es[k], f)
    ensures Guarded(ss[j].core, ss[i].core.pc.f)
    ensures Primaries(ss[j].labels) <= Primaries(ss[i].labels) - {ss[i].core.pc.pod}
  {
    var f := ss[i].core.pc.f;
    assert Enabled(pods, ss[i], es[i]);
    if j == i + 1 {
      RecordedAlways(pods, ss, es, i);
      assert ss[i+1] == Step(pods, ss[i], es[i]);
      StripGuards(pods, ss[i], es[i]);
    } else {
      assert ss[j-1+1] == Step(pods, ss[j-1], es[j-1]) && Enabled(pods, ss[j-1], es[j-1]);
      ClockForward(pods, ss[j-1], es[j-1]);
      NoRestamp(pods, ss, es, i, j - 1);
      GuardedStep(pods, ss[j-1], es[j-1], f);
    }
  }

  lemma StripGuards(pods: seq<Pod>, s: Sys, e: Event)
    requires Recorded(s.core) && Enabled(pods, s, e) && e.Strip? && e.ok
    ensures Guarded(Step(pods, s, e).core, s.core.pc.f)
    ensures Primaries(Step(pods, s, e).labels) <= Primaries(s.labels) - {s.core.pc.pod}
  {
  }

  lemma ClockForward(pods: seq<Pod>, s: Sys, e: Event)
    requires Enabled(pods, s, e)
    ensures s.core.now <= Step(pods, s, e).core.now
  {
  }

  /** The snapshot is silent, still on the stripped address, or too old for a positive fence epoch. */
  predicate Behind(addr: string, epoch: int, snap: Snapshot) {
    snap.present && snap.addr != "" && snap.addr != addr ==> epoch > 0 && snap.epoch < epoch
  }

  /**
   The same in terms of what the passes read. From a strip of the address `addr`
   read under `epoch`, with the failover not failing, no newer dispatch recorded
   and no pass running without a snapshot over unlabelled pods: as long as every
   snapshot is silent, on that address, or of a lower epoch than a positive
   `epoch`, no pod gains role=primary before the deadline.
   */
  lemma StaleViewsNeverRestamp(pods: seq<Pod>, ss: seq<Sys>, es: seq<Event>, i: nat, j: nat)
    requires Legal(pods, ss, es) && Recorded(ss[0].core) && i < j <= |es| && es[i].Strip? && es[i].ok
    requires ss[j].core.now < ss[i].core.pc.f.deadline
    requires forall k :: i < k < j && es[k].Failover? ==> es[k].ok
    requires forall k :: i < k < j && es[k].Persist? ==> !es[k].ok
    requires forall k :: i < k < j && es[k].Pass? ==>
               var f, r := ss[i].core.pc.f, es[k].r;
               && Behind(f.addr, f.epoch, r.maintainSnap) && Behind(f.addr, f.epoch, r.relabelSnap)
               && (r.relabelSnap.present || AnyLabelled(ss[k].labels))
    ensures Primaries(ss[j].labels) <= Primaries(ss[i].labels) - {ss[i].core.pc.pod}
  {
    NoRestamp(pods, ss, es, i, j);
  }

  /** The snapshot shows another address, at an epoch no lower than a positive fence epoch. */
  predicate Ahead(addr: string, epoch: int, snap: Snapshot) {
    snap.present && snap.addr != "" && snap.addr != addr && (epoch <= 0 || snap.epoch >= epoch)
  }

  /**
   The converse: a quorate pass that reads such a snapshot when it relabels is
   not suppressed by the dispatch, at any time; if the maintaining read shows
   one too, the latch is gone and, if the write lands, so is the marker.
   */
  lemma NewerViewReleases(c: Core, e: Event, f: Fence)
    requires e.Pass? && Guarded(c, f) && e.r.relabelSnap.quorumOk && Ahead(f.addr, f.epoch, e.r.relabelSnap)
    ensures !Suppresses(c, e) && CoreStep(c, e).latch == None
    ensures Ahead(f.addr, f.epoch, e.r.maintainSnap) && e.clearOk ==> CoreStep(c, e).marker == None
  {
  }

  /**
   After a dispatch that stripped the only primary, the next completed pass that
   reads a released address with a host among the pods labels the pod there, at
   its first poll, and every other pod a replica.
   */
  lemma FailoverLabels(pods: seq<Pod>, ss: seq<Sys>, es: seq<Event>, i: nat, j: nat, d: nat)
    requires Legal(pods, ss, es) && Recorded(ss[0].core) && i < j < |es| && es[i].Strip? && es[i].ok
    requires Primaries(ss[i].labels) <= {ss[i].core.pc.pod} && ss[j].core.now < ss[i].core.pc.f.deadline
    requires forall k :: i < k < j ==> !Closes(ss[k], es[k], ss[i].core.pc.f)
    requires es[j].Pass? && es[j].completed
    requires var f, snap := ss[i].core.pc.f, es[j].r.relabelSnap;
             && snap.quorumOk && Ahead(f.addr, f.epoch, snap)
             && d < |pods| && DistinctIPs(pods) && pods[d].ip != "" && snap.host == Some(pods[d].ip)
    ensures var l := ss[j+1].labels;
            Primaries(l) == {d as int} && |l| == |pods| && forall o :: 0 <= o < |l| && o != d ==> l[o] == Some(Replica)
  {
    NoRestamp(pods, ss, es, i, j);
    assert Primaries(ss[j].labels) == {};
    assert Enabled(pods, ss[j], es[j]) && ss[j+1] == Step(pods, ss[j], es[j]);
    NewerViewReleases(ss[j].core, es[j], ss[i].core.pc.f);
    InitialStamp(es[j].r.relabelSnap, ss[j].streak, pods, ss[j].labels, es[j].labels, d);
  }

  /** If the stripped pod was the only labelled primary, no newer dispatch can start meanwhile. */
  lemma NoSupersedingDispatch(pods: seq<Pod>, ss: seq<Sys>, es: seq<Event>, i: nat, j: nat)
    requires Legal(pods, ss, es) && Recorded(ss[0].core) && i < j < |es|
    requires es[i].Strip? && es[i].ok && Primaries(ss[i].labels) <= {ss[i].core.pc.pod}
    requires var f := ss[i].core.pc.f;
             ss[j].core.now < f.deadline && forall k :: i < k < j ==> !Closes(ss[k], es[k], f)
    ensures !es[j].Persist?
  {
    assert Enabled(pods, ss[j], es[j]);
    assert es[j].Persist? ==> es[j].pod in Primaries(ss[j].labels);
    NoRestamp(pods, ss, es, i, j);
  }

  /**
   Before the deadline and with neither snapshot releasing the fence, some pass
   changes a label exactly when it runs without a snapshot while no pod carries
   any role label: then the bootstrap rule ignores the dispatch.
   */
  lemma BootstrapRestamps(pods: seq<Pod>, s: Sys, f: Fence, r: Reads, clearOk: bool)
    requires pods != [] && |s.labels| == |pods| && Guarded(s.core, f) && s.core.pc.Between?
    requires s.core.now <= r.rehydrateAt <= r.maintainAt <= r.relabelAt < f.deadline
    requires !Released(f, ViewOf(r.maintainSnap)) && !Released(f, ViewOf(r.relabelSnap))
    ensures (exists labels, completed ::
               Enabled(pods, s, Pass(r, clearOk, labels, completed)) && labels != s.labels) <==>
            !r.relabelSnap.present && !AnyLabelled(s.labels)
  {
    if !r.relabelSnap.present && !AnyLabelled(s.labels) {
      var e := Pass(r, clearOk, Bootstrap(pods), true);
      assert PassPlan(pods, s, e).1 == Assign(Bootstrap(pods));
      assert e.labels[0].Some? && s.labels[0] in s.labels;
      assert Enabled(pods, s, e);
    } else {
      forall labels, completed | Enabled(pods, s, Pass(r, clearOk, labels, completed))
        ensures labels == s.labels
      {
        GuardedPass(pods, s, Pass(r, clearOk, labels, completed), f);
      }
    }
  }

  /** A dispatch that strips pod 0, the other pod recreated without its label, then a pass without a snapshot. */
  function RestampRun(v: View, r: Reads): seq<Event> {
    [Persist(0, v, true), SetLatch, Strip(true, true), Failover(true, true, true), Recreated(1),
     Pass(r, true, [Some(Primary), Some(Replica)], true)]
  }

  /** The run happens: the stripped pod is primary again, before the deadline and with nothing released. */
  lemma StrippedPodRestamped(now: Instant, v: View, r: Reads) returns (pods: seq<Pod>, ss: seq<Sys>)
    requires now <= r.rehydrateAt <= r.maintainAt <= r.relabelAt < now + LATCH_TTL
    requires !r.maintainSnap.present && !r.relabelSnap.present
    ensures |pods| == 2 && Legal(pods, ss, RestampRun(v, r))
    ensures ss[0] == Sys(Core(now, None, None, AfterPhase7), [Some(Primary), Some(Replica)], None)
    ensures ss[5].core.marker == Some(Fence(v.addr, v.epoch, now + LATCH_TTL)) && ss[5].labels == [None, None]
    ensures ss[6].labels[0] == Some(Primary) && ss[6].core.now < now + LATCH_TTL
  {
    pods := [Pod("10.0.0.1", true), Pod("10.0.0.2", false)];
    var es := RestampRun(v, r);
    var s0 := Sys(Core(now, None, None, AfterPhase7), [Some(Primary), Some(Replica)], None);
    var s1 := Step(pods, s0, es[0]);
    var s2 := Step(pods, s1, es[1]);
    var s3 := Step(pods, s2, es[2]);
    var s4 := Step(pods, s3, es[3]);
    var s5 := Step(pods, s4, es[4]);
    assert s5.labels == [None, None];
    assert Bootstrap(pods) == [Some(Primary), Some(Replica)];
    assert Enabled(pods, s5, es[5]);
    ss := [s0, s1, s2, s3, s4, s5, Step(pods, s5, es[5])];
  }

  // ----- what a restart shows

  /** The same core after the operator restarted between two passes. */
  function Lost(c: Core): Core {
    c.(latch := None)
  }

  /** The fence holds through the two latch reads of a pass. */
  predicate Survives(g: Fence, r: Reads) {
    r.relabelAt <= g.deadline && !Released(g, ViewOf(r.maintainSnap)) && !Released(g, ViewOf(r.relabelSnap))
  }

  /**
   A restart just before this pass changes its relabel decision. Without a
   marker: the latch, a cool-down after a failed failover, still holds. With the
   marker of the same dispatch: every clock read falls on the deadline. With the
   marker of a dispatch whose clear was lost: cool-down and marker disagree.
   */
  predicate RestartShows(c: Core, r: Reads) {
    && r.relabelSnap.present && r.relabelSnap.quorumOk && c.latch.Some?
    && if c.marker.None? then Holds(c.latch.value, r.relabelAt, ViewOf(r.relabelSnap))
       else
         var f := c.marker.value;
         if c.latch == c.marker then
           && r.rehydrateAt == r.relabelAt == f.deadline
           && !Released(f, ViewOf(r.maintainSnap)) && !Released(f, ViewOf(r.relabelSnap))
         else Survives(c.latch.value, r) != (r.rehydrateAt < f.deadline && Survives(f, r))
  }

  /** For every latch and marker: a lost latch changes the decision of a pass exactly then. */
  lemma PassDecisionAgrees(c: Core, e: Event)
    requires e.Pass? && e.r.rehydrateAt <= e.r.maintainAt <= e.r.relabelAt
    ensures Suppresses(c, e) != Suppresses(Lost(c), e) <==> RestartShows(c, e.r)
  {
  }

  /**
   A latch that is not the marker's is the cool-down of a rolled-back dispatch,
   and an old marker is of the same address.
   */
  ghost predicate LatchShape(c: Core) {
    c.latch.Some? && c.latch != c.marker ==>
      c.latch.value.epoch == 0 && (c.marker.Some? ==> c.marker.value.addr == c.latch.value.addr)
  }

  /** In every run only these latches occur. */
  lemma {:induction false} LatchShapes(pods: seq<Pod>, ss: seq<Sys>, es: seq<Event>, k: nat)
    requires Legal(pods, ss, es) && k <= |es| && Recorded(ss[0].core) && LatchShape(ss[0].core)
    ensures LatchShape(ss[k].core)
  {
    if k > 0 {
      LatchShapes(pods, ss, es, k - 1);
      RecordedAlways(pods, ss, es, k - 1);
      ShapeStep(ss[k-1].core, es[k-1]);
      assert ss[k-1+1] == Step(pods, ss[k-1], es[k-1]);
    }
  }

  lemma ShapeStep(c: Core, e: Event)
    requires Recorded(c) && LatchShape(c)
    ensures LatchShape(CoreStep(c, e))
  {
  }

  /** The view is off the address, whatever its epoch. */
  predicate Moved(addr: string, v: View) {
    v.addr != "" && v.addr != addr
  }

  /**
   The last case spelled out for the latches that occur. A restart shows when
   the cool-down suppresses and the marker is too old to be rebuilt, or when the
   cool-down is over or released by a changed address while the marker is
   rebuilt and, the view's epoch being too low for it if the address changed,
   holds.
   */
  lemma LostClearRestart(c: Core, r: Reads)
    requires LatchShape(c) && c.latch.Some? && c.marker.Some? && c.latch != c.marker
    requires r.rehydrateAt <= r.maintainAt <= r.relabelAt && r.relabelSnap.present && r.relabelSnap.quorumOk
    ensures var g, f := c.latch.value, c.marker.value;
            var moved := Moved(g.addr, ViewOf(r.maintainSnap)) || Moved(g.addr, ViewOf(r.relabelSnap));
            RestartShows(c, r) <==>
            || (!moved && r.relabelAt <= g.deadline && (r.rehydrateAt >= f.deadline || r.relabelAt > f.deadline))
            || ((moved || r.relabelAt > g.deadline) && r.rehydrateAt < f.deadline && Survives(f, r))
  {
  }

  // ----- restarts over whole runs

  /** Equal but for a latch that either side may have lost and Phase 7 will rebuild. */
  ghost predicate Twins(c: Core, d: Core) {
    && c.now == d.now && c.marker == d.marker && c.pc == d.pc
    && (c.latch == d.latch ||
        (&& c.pc.Between? && c.marker.Some?
         && (c.latch == None || c.latch == c.marker) && (d.latch == None || d.latch == c.marker)))
  }

  /** No pass of `e` looks at the clock exactly on the deadline of the marker it finds. */
  predicate OffDeadline(c: Core, e: Event) {
    e.Pass? && c.marker.Some? ==> e.r.rehydrateAt != c.marker.value.deadline
  }

  lemma TwinStep(c: Core, d: Core, e: Event)
    requires Twins(c, d) && OffDeadline(c, e) && InOrder(c, e)
    ensures Twins(CoreStep(c, e), CoreStep(d, e))
    ensures e.Pass? ==> Suppresses(c, e) == Suppresses(d, e) && CoreStep(c, e) == CoreStep(d, e)
  {
    if e.Pass? && c.marker.Some? && c.latch != d.latch {
      var f := c.marker.value;
      if e.r.rehydrateAt > f.deadline {
        assert Maintain(c.latch, c.marker, e.r, e.clearOk) == Maintain(d.latch, d.marker, e.r, e.clearOk);
      }
    }
  }

  /** The event respects the clock and the order of a reconcile. */
  predicate InOrder(c: Core, e: Event) {
    match e
    case Tick(t) => c.now <= t
    case Pass(r, _, _, _) => c.pc.Between? && c.now <= r.rehydrateAt <= r.maintainAt <= r.relabelAt
    case Persist(_, _, _) => c.pc.AfterPhase7?
    case _ => true
  }

  predicate Orderly(c: Core, es: seq<Event>)
    decreases |es|
  {
    es == [] || (InOrder(c, es[0]) && Orderly(CoreStep(c, es[0]), es[1..]))
  }

  predicate AllOffDeadline(c: Core, es: seq<Event>)
    decreases |es|
  {
    es == [] || (OffDeadline(c, es[0]) && AllOffDeadline(CoreStep(c, es[0]), es[1..]))
  }

  /** All along `es` the two operators decide every pass alike, dispatch alike and hold one marker. */
  predicate Alike(c: Core, d: Core, es: seq<Event>)
    decreases |es|
  {
    && c.marker == d.marker && c.pc == d.pc
    && (es == [] ||
        (&& (es[0].Pass? ==> Suppresses(c, es[0]) == Suppresses(d, es[0]))
         && Alike(CoreStep(c, es[0]), CoreStep(d, es[0]), es[1..])))
  }

  lemma {:induction false} TwinRuns(c: Core, d: Core, es: seq<Event>)
    requires Twins(c, d) && Orderly(c, es) && AllOffDeadline(c, es)
    ensures Alike(c, d, es)
    decreases |es|
  {
    if es != [] {
      TwinStep(c, d, es[0]);
      TwinRuns(CoreStep(c, es[0]), CoreStep(d, es[0]), es[1..]);
    }
  }

  /**
   A restart between two passes that loses the latch of a recorded dispatch is
   unobservable: over every continuation, further crashes, drains, dispatches
   and snapshot moves included, the restarted operator makes the same
   suppress-or-release decision at every pass, dispatches alike and keeps the
   same marker as the one that never crashed, provided no pass reads the clock
   exactly on a live marker's deadline.
   */
  lemma CrashUnobservable(c: Core, es: seq<Event>)
    requires c.pc.Between? && (c.latch == None || c.latch == c.marker) && Orderly(c, es) && AllOffDeadline(c, es)
    ensures Alike(c, Lost(c), es)
  {
    TwinRuns(c, Lost(c), es);
  }

  /** Nothing decides on the cool-down latch `g` while it holds; once drained, or after a crash, it is gone. */
  predicate NeverDecides(c: Core, g: Fence, es: seq<Event>)
    decreases |es|
  {
    es == [] ||
    (var next := NeverDecides(CoreStep(c, es[0]), g, es[1..]);
     match es[0]
     case Crash => true
     case DrainRead(v) => !Holds(g, c.now, v) || next
     case Persist(_, v, ok) => !Holds(g, c.now, v) || (!ok && next)
     case Pass(r, _, _, _) =>
       if r.relabelSnap.present && r.relabelSnap.quorumOk then !Holds(g, r.relabelAt, ViewOf(r.relabelSnap)) else next
     case _ => next)
  }

  lemma {:induction false} SameForever(c: Core, es: seq<Event>)
    ensures Alike(c, c, es)
    decreases |es|
  {
    if es != [] {
      SameForever(CoreStep(c, es[0]), es[1..]);
    }
  }

  /**
   A restart that loses the cool-down after a rolled-back failover, whose marker
   is cleared, is unobservable over a continuation exactly when no quorate pass
   and no dispatch comes to read the cool-down while it holds.
   */
  lemma {:induction false} CoolDownRestart(c: Core, es: seq<Event>)
    requires c.marker.None? && c.latch.Some? && (c.pc.Between? || c.pc.AfterPhase7?) && Orderly(c, es)
    ensures Alike(c, Lost(c), es) <==> NeverDecides(c, c.latch.value, es)
    decreases |es|
  {
    if es != [] {
      var e, c', d' := es[0], CoreStep(c, es[0]), CoreStep(Lost(c), es[0]);
      if c' == d' {
        SameForever(c', es[1..]);
      } else if c'.marker == d'.marker && c'.pc == d'.pc {
        assert d' == Lost(c');
        if c'.pc.Between? || c'.pc.AfterPhase7? {
          CoolDownRestart(c', es[1..]);
        }
      }
    }
  }

  predicate Held(latch: Option<Fence>, now: Instant, v: View) {
    latch.Some? && Holds(latch.value, now, v)
  }

  /** The latch a pass consults: the marker's if there was none and the marker is live. */
  function Consulted(latch: Option<Fence>, marker: Option<Fence>, r: Reads): Option<Fence> {
    if latch.None? && marker.Some? && r.rehydrateAt < marker.value.deadline then marker else latch
  }

  /**
   The event tells apart two operators that differ in their latch: a dispatch
   that the one's latch blocks and the other's does not; a pass whose maintenance
   keeps the one's marker and clears the other's; or a quorate pass that the
   latch suppresses for the one only.
   */
  predicate Tells(c: Core, d: Core, e: Event) {
    match e
    case Persist(_, v, ok) => ok && Held(c.latch, c.now, v) != Held(d.latch, c.now, v)
    case Pass(r, clearOk, _, _) =>
      var a, b := Consulted(c.latch, c.marker, r), Consulted(d.latch, c.marker, r);
      var v, w := ViewOf(r.maintainSnap), ViewOf(r.relabelSnap);
      var keptA, keptB := c.marker.None? || Held(a, r.maintainAt, v), c.marker.None? || Held(b, r.maintainAt, v);
      || (clearOk && keptA != keptB)
      || (r.relabelSnap.present && r.relabelSnap.quorumOk &&
          (keptA && Held(a, r.relabelAt, w)) != (keptB && Held(b, r.relabelAt, w)))
    case _ => false
  }

  predicate NeverTells(c: Core, d: Core, es: seq<Event>)
    decreases |es|
  {
    es == [] || (!Tells(c, d, es[0]) && NeverTells(CoreStep(c, es[0]), CoreStep(d, es[0]), es[1..]))
  }

  /** Equal but for the latch, outside a dispatch. */
  ghost predicate Kin(c: Core, d: Core) {
    && c.now == d.now && c.marker == d.marker && c.pc == d.pc
    && (c.latch == d.latch || c.pc.Between? || c.pc.AfterPhase7?)
  }

  lemma KinStep(c: Core, d: Core, e: Event)
    requires Kin(c, d)
    ensures !Tells(c, d, e) ==>
              Kin(CoreStep(c, e), CoreStep(d, e)) && (e.Pass? ==> Suppresses(c, e) == Suppresses(d, e))
    ensures Tells(c, d, e) ==>
              || CoreStep(c, e).marker != CoreStep(d, e).marker || CoreStep(c, e).pc != CoreStep(d, e).pc
              || (e.Pass? && Suppresses(c, e) != Suppresses(d, e))
  {
  }

  lemma {:induction false} KinRuns(c: Core, d: Core, es: seq<Event>)
    requires Kin(c, d)
    ensures Alike(c, d, es) <==> NeverTells(c, d, es)
    decreases |es|
  {
    if es != [] {
      KinStep(c, d, es[0]);
      if !Tells(c, d, es[0]) {
        KinRuns(CoreStep(c, es[0]), CoreStep(d, es[0]), es[1..]);
      }
    }
  }

  /**
   For every latch and marker, a lost clear's included: a restart is
   unobservable over a continuation if and only if no event of it tells the
   restarted operator from the other.
   */
  lemma RestartVisibleExactly(c: Core, es: seq<Event>)
    requires c.pc.Between? || c.pc.AfterPhase7?
    ensures Alike(c, Lost(c), es) <==> NeverTells(c, Lost(c), es)
  {
    KinRuns(c, Lost(c), es);
  }

  // ----- latch and marker of one dispatch agree

  /** When both are set they carry one dispatch's address, epoch and deadline. */
  ghost predicate Coherent(c: Core) {
    c.latch.Some? && c.marker.Some? ==> c.latch == c.marker
  }

  lemma {:induction false} LatchMatchesMarker(pods: seq<Pod>, ss: seq<Sys>, es: seq<Event>, k: nat)
    requires Legal(pods, ss, es) && k <= |es| && Recorded(ss[0].core) && Coherent(ss[0].core)
    requires forall m :: 0 <= m < |es| && es[m].Failover? && !es[m].ok ==> es[m].clearOk
    ensures Coherent(ss[k].core)
  {
    if k > 0 {
      LatchMatchesMarker(pods, ss, es, k - 1);
      RecordedAlways(pods, ss, es, k - 1);
      CoherentStep(ss[k-1].core, es[k-1]);
      assert ss[k-1+1] == Step(pods, ss[k-1], es[k-1]);
    }
  }

  lemma CoherentStep(c: Core, e: Event)
    requires Recorded(c) && Coherent(c) && (e.Failover? && !e.ok ==> e.clearOk)
    ensures Coherent(CoreStep(c, e))
  {
  }

  /**
   When the rollback's marker clear is lost, the cool-down latch and the marker
   disagree, and a draining read after the cool-down lets the next pass rebuild
   the in-flight latch of a dispatch that was rolled back: relabelling stays
   suppressed until the original deadline although nothing is in flight.
   */
  lemma LostClearRehydrates(c: Core, restoreOk: bool, v: View, t: Instant, e: Event)
    requires c.pc.Stripped? && Recorded(c) && c.now + COOLDOWN_TTL < t && !Released(c.pc.f, v)
    requires e.Pass? && t <= e.r.rehydrateAt <= e.r.maintainAt <= e.r.relabelAt < c.pc.f.deadline
    requires e.r.relabelSnap.present && e.r.relabelSnap.quorumOk
    requires !Released(c.pc.f, ViewOf(e.r.maintainSnap)) && !Released(c.pc.f, ViewOf(e.r.relabelSnap))
    ensures !Coherent(CoreRun(c, [Failover(false, restoreOk, false)]))
    ensures Suppresses(CoreRun(c, [Failover(false, restoreOk, false), Tick(t), DrainRead(v)]), e)
  {
    var a := CoreStep(c, Failover(false, restoreOk, false));
    var b := CoreStep(CoreStep(a, Tick(t)), DrainRead(v));
    assert a.latch.value.deadline == c.now + COOLDOWN_TTL;
    assert b.latch == None && b.marker == Some(c.pc.f);
    var three := [Failover(false, restoreOk, false), Tick(t), DrainRead(v)];
    assert three[1..] == [Tick(t), DrainRead(v)] && three[1..][1..] == [DrainRead(v)];
    assert CoreRun(CoreStep(a, Tick(t)), [DrainRead(v)]) == b;
  }
}
