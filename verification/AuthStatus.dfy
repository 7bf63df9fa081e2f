/** The rotation driver over reconciles: persisted status, cached password, and the data plane. */
module AuthStatus {
  import opened Base
  import opened Ordering
  import opened RotateWire
  import A = AuthRotation

  datatype Phase = Idle | InProgress | Succeeded | Failed | Partial
  datatype Status = Status(phase: Phase, hash: string, message: string)
  datatype Entry = Entry(password: string, hash: string)

  /** What becomes of a status patch; an `Ambiguous` one lands although the caller sees an error. */
  datatype Patch = Landed | Conflict | Refused | Ambiguous

  /** `secret` is the Secret's password, empty for none; `creds` are the passwords the pods run with. */
  datatype World = World(secret: string, persisted: Option<Status>, cache: Option<Entry>, creds: map<string, Creds>)

  /**
   Everything one reconcile reads from outside. `view` is the status as the
   cached client returns it, which may be any earlier one; `pods` is absent when
   listing fails.
   */
  datatype Inputs = Inputs(view: Option<Status>, failover: bool, pods: Option<seq<A.Pod>>,
                           rot: string -> Schedule, rev: string -> Schedule,
                           first: Patch, second: Patch, startMsg: string, endMsg: string)

  datatype Act = Quiet | Adopted | Drove(oldPwd: string, newPwd: string)
  datatype Effect = Effect(world: World, act: Act)
  datatype Written = Written(persisted: Option<Status>, view: Option<Status>, ok: bool, err: bool)

  const INITIAL := "initial observation"
  const MISSED := "rotation window missed; current Secret content adopted as observed credential"

  /** A merge patch carries only the fields that differ from the reconciler's copy. */
  function Merge(persisted: Option<Status>, view: Option<Status>, next: Status): Status {
    if view.None? then next
    else
      var p, v := if persisted.Some? then persisted.value else Status(Idle, "", ""), view.value;
      Status(if next.phase != v.phase then next.phase else p.phase,
             if next.hash != v.hash then next.hash else p.hash,
             if next.message != v.message then next.message else p.message)
  }

  predicate Lands(patch: Patch) {
    patch.Landed? || patch.Ambiguous?
  }

  function Write(persisted: Option<Status>, view: Option<Status>, next: Status, patch: Patch): Written {
    if view == Some(next) then Written(persisted, view, true, false)
    else
      match patch
      case Landed => Written(Some(Merge(persisted, view, next)), Some(next), true, false)
      case Conflict => Written(persisted, view, false, false)
      case Refused => Written(persisted, view, false, true)
      case Ambiguous => Written(Some(Merge(persisted, view, next)), view, false, true)
  }

  function Hash(h: string -> string, password: string): string {
    if password == "" then "" else h(password)
  }

  function Observed(v: Option<Status>): string {
    if v.Some? then v.value.hash else ""
  }

  function CurrentPhase(v: Option<Status>): Phase {
    if v.Some? then v.value.phase else Idle
  }

  function Stored(cache: Option<Entry>, stored: bool, password: string, hash: string): Option<Entry> {
    if stored then Some(Entry(password, hash)) else cache
  }

  function Terminal(o: A.Outcome, current: string, observed: string, message: string): Status {
    match o
    case Succeeded(_) => Status(Succeeded, current, message)
    case Failed(_) => Status(Failed, observed, message)
    case Partial(_, _) => Status(Partial, observed, message)
  }

  function DriveOf(w: World, i: Inputs, oldPwd: string): A.Drive
    requires i.pods.Some?
  {
    A.Drive(w.creds, Elements(A.PodNames(i.pods.value)), oldPwd, w.secret, i.rot, i.rev)
  }

  /** A drive: stamp InProgress, rotate or revert, record the outcome. */
  function Driven(h: string -> string, w: World, i: Inputs, oldPwd: string): Effect {
    if i.pods.None? || !A.Observable(i.pods.value) then Effect(w, Quiet)
    else
      var observed, current := Observed(i.view), Hash(h, w.secret);
      var a := Write(w.persisted, i.view, Status(InProgress, observed, i.startMsg), i.first);
      var d := DriveOf(w, i, oldPwd);
      var b := Write(a.persisted, a.view, Terminal(d.Outcome(), current, observed, i.endMsg), i.second);
      Effect(World(w.secret, b.persisted, Stored(w.cache, b.ok && d.Outcome().Succeeded?, w.secret, current),
                   d.After()),
             Drove(oldPwd, w.secret))
  }

  /** The reconcile gets past the guards that precede the comparison of hashes. */
  predicate Compares(w: World, i: Inputs) {
    w.secret != "" && !CurrentPhase(i.view).Partial? && Observed(i.view) != "" && !CurrentPhase(i.view).Succeeded?
  }

  /** One reconcile of the driver. */
  function Reconciled(h: string -> string, w: World, i: Inputs): Effect {
    var p, v := w.persisted, i.view;
    var current, observed := Hash(h, w.secret), Observed(v);
    if current == "" then
      Effect(w.(cache := None, persisted := if v.Some? && Lands(i.first) then None else p), Quiet)
    else if CurrentPhase(v).Partial? then Effect(w, Quiet)
    else if observed == "" then
      var a := Write(p, v, Status(Idle, current, INITIAL), i.first);
      Effect(w.(persisted := a.persisted, cache := Stored(w.cache, a.ok, w.secret, current)), Quiet)
    else if CurrentPhase(v).Succeeded? then
      Effect(w.(persisted := Write(p, v, Status(Idle, observed, ""), i.first).persisted), Quiet)
    else if current == observed then Effect(w.(cache := Some(Entry(w.secret, current))), Quiet)
    else if i.failover then Effect(w, Quiet)
    else if w.cache.None? || w.cache.value.hash != observed then
      var a := Write(p, v, Status(Idle, current, MISSED), i.first);
      Effect(w.(persisted := a.persisted, cache := Stored(w.cache, a.ok, w.secret, current)), Adopted)
    else Driven(h, w, i, w.cache.value.password)
  }

  /** The listed pods are named, distinct and running. */
  ghost predicate Listed(pods: seq<A.Pod>, creds: map<string, Creds>) {
    && A.Distinct(A.PodNames(pods))
    && forall i :: 0 <= i < |pods| ==> pods[i].name != "" && pods[i].name in creds
  }

  /** One CR's driver state. */
  class Driver {
    var persisted: Option<Status>
    var view: Option<Status>
    var cache: Option<Entry>
    const plane: A.DataPlane

    /** After a start the cache is cold; the status survives. */
    constructor (status: Option<Status>, dataPlane: A.DataPlane)
      ensures persisted == status && cache == None && plane == dataPlane
    {
      persisted, view, cache, plane := status, None, None, dataPlane;
    }

    ghost function Now(secret: string): World
      reads this, plane
    {
      World(secret, persisted, cache, plane.creds)
    }

    method WriteStatus(next: Status, patch: Patch) returns (ok: bool, err: bool)
      modifies this`persisted, this`view
      ensures Written(persisted, view, ok, err) == Write(old(persisted), old(view), next, patch)
    {
      if view == Some(next) {
        return true, false;
      }
      match patch {
        case Landed =>
          persisted := Some(Merge(persisted, view, next));
          view := Some(next);
          return true, false;
        case Conflict =>
          return false, false;
        case Refused =>
          return false, true;
        case Ambiguous =>
          persisted := Some(Merge(persisted, view, next));
          return false, true;
      }
    }

    method ClearStatus(patch: Patch)
      modifies this`persisted, this`view
      ensures persisted == if old(view).Some? && Lands(patch) then None else old(persisted)
    {
      if view.None? {
        return;
      }
      if Lands(patch) {
        persisted := None;
        if patch.Landed? {
          view := None;
        }
      }
    }

    method CachePassword(password: string, hash: string)
      modifies this`cache
      ensures cache == Some(Entry(password, hash))
    {
      cache := Some(Entry(password, hash));
    }

    method DriveRotation(h: string -> string, secret: string, oldPwd: string, i: Inputs)
      requires view == i.view && oldPwd != "" && secret != "" && (i.pods.Some? ==> Listed(i.pods.value, plane.creds))
      modifies this, plane
      ensures Now(secret) == Driven(h, old(Now(secret)), i, oldPwd).world
    {
      if i.pods.None? {
        return;
      }
      var pods := i.pods.value;
      var current, observed := Hash(h, secret), Observed(view);
      var replicas, master, ok := A.SplitDataPlane(pods);
      if !ok {
        return;
      }
      A.SplitCovers(pods, replicas, master);
      var stamped, stampErr := WriteStatus(Status(InProgress, observed, i.startMsg), i.first);
      var o := plane.RotateOrRevert(replicas, master, oldPwd, secret, i.rot, i.rev);
      var persistedNow, err := WriteStatus(Terminal(o, current, observed, i.endMsg), i.second);
      if o.Succeeded? && persistedNow {
        CachePassword(secret, current);
      }
    }

    /** The driver's entry point. */
    method MaybeRotateAuth(h: string -> string, secret: string, i: Inputs)
      requires i.pods.Some? ==> Listed(i.pods.value, plane.creds)
      requires cache.Some? ==> cache.value.password != ""
      modifies this, plane
      ensures Now(secret) == Reconciled(h, old(Now(secret)), i).world
    {
      view := i.view;
      var current := Hash(h, secret);
      if current == "" {
        cache := None;
        ClearStatus(i.first);
        return;
      }
      var phase, observed := CurrentPhase(view), Observed(view);
      if phase.Partial? {
        return;
      }
      if observed == "" {
        var ok, err := WriteStatus(Status(Idle, current, INITIAL), i.first);
        if !err && ok {
          CachePassword(secret, current);
        }
        return;
      }
      if phase.Succeeded? {
        var _, err := WriteStatus(Status(Idle, observed, ""), i.first);
        return;
      }
      if current == observed {
        CachePassword(secret, current);
        return;
      }
      if i.failover {
        return;
      }
      if cache.None? || cache.value.hash != observed {
        var ok, err := WriteStatus(Status(Idle, current, MISSED), i.first);
        if !err && ok {
          CachePassword(secret, current);
        }
        return;
      }
      DriveRotation(h, secret, cache.value.password, i);
    }
  }

  // ----- runs

  /** A restart loses the cache; the Secret and the pods' passwords may change at any time. */
  datatype Event = Restart | Edit(secret: string) | Pods(creds: map<string, Creds>) | Reconcile(inputs: Inputs)

  ghost predicate Enabled(w: World, e: Event) {
    e.Reconcile? && e.inputs.pods.Some? ==> Listed(e.inputs.pods.value, w.creds)
  }

  function Next(h: string -> string, w: World, e: Event): Effect {
    match e
    case Restart => Effect(w.(cache := None), Quiet)
    case Edit(s) => Effect(w.(secret := s), Quiet)
    case Pods(c) => Effect(w.(creds := c), Quiet)
    case Reconcile(i) => Reconciled(h, w, i)
  }

  /** A run from a CR with no status and a cold cache; hashes of passwords are never empty. */
  ghost predicate Legal(h: string -> string, ws: seq<World>, es: seq<Event>) {
    && |ws| == |es| + 1 && ws[0].persisted.None? && ws[0].cache.None?
    && (forall p :: h(p) != "")
    && (forall k :: 0 <= k < |es| ==> Enabled(ws[k], es[k]))
    && (forall k :: 0 <= k < |es| ==> ws[k+1] == Next(h, ws[k], es[k]).world)
  }

  /** The cached hash is the hash of the cached password. */
  predicate Sound(h: string -> string, w: World) {
    w.cache.Some? ==> w.cache.value.password != "" && w.cache.value.hash == h(w.cache.value.password)
  }

  /** And it is the persisted one. */
  predicate Coherent(h: string -> string, w: World) {
    Sound(h, w) && (w.cache.Some? ==> w.persisted.Some? && w.persisted.value.hash == w.cache.value.hash)
  }

  /** A drive succeeded everywhere and its Succeeded status landed behind an error. */
  predicate LostSuccess(h: string -> string, w: World, e: Event) {
    && e.Reconcile? && e.inputs.pods.Some? && e.inputs.second.Ambiguous?
    && Next(h, w, e).act.Drove?
    && DriveOf(w, e.inputs, Next(h, w, e).act.oldPwd).Outcome().Succeeded?
  }

  /** The status the reconcile read carries the persisted hash. */
  predicate ReadsHash(w: World, i: Inputs) {
    Observed(i.view) == Observed(w.persisted)
  }

  /** The hash the cache would have to carry after a write that landed behind an error is not the cached one. */
  predicate LostWrite(h: string -> string, w: World, i: Inputs) {
    i.first.Ambiguous? && w.cache.Some? && w.cache.value.hash != Hash(h, w.secret)
  }

  /**
   What makes cache and status disagree: a lost success; a steady state seen
   through an outdated hash; or a first observation or an adoption that landed
   behind an error over a warm cache.
   */
  predicate Breaks(h: string -> string, w: World, e: Event) {
    || LostSuccess(h, w, e)
    || (&& e.Reconcile? && w.secret != "" && !CurrentPhase(e.inputs.view).Partial?
        && var i, current, observed := e.inputs, Hash(h, w.secret), Observed(e.inputs.view);
           if observed == "" then LostWrite(h, w, i)
           else if CurrentPhase(i.view).Succeeded? then false
           else if current == observed then !ReadsHash(w, i)
           else Next(h, w, e).act.Adopted? && LostWrite(h, w, i))
  }

  lemma SoundStep(h: string -> string, w: World, e: Event)
    requires Sound(h, w) && forall p :: h(p) != ""
    ensures Sound(h, Next(h, w, e).world)
    ensures Next(h, w, e).act.Drove? ==>
              var a := Next(h, w, e).act;
              && e.Reconcile? && Compares(w, e.inputs) && h(a.oldPwd) == Observed(e.inputs.view) && a.newPwd == w.secret
              && h(a.oldPwd) != h(a.newPwd) && a.oldPwd != "" && a.newPwd != ""
  {
  }

  /** What a drive does to hash and cache, when the status it read carries the persisted hash. */
  lemma DrivenHash(h: string -> string, w: World, i: Inputs, oldPwd: string)
    requires w.persisted.Some? && i.view.Some? && ReadsHash(w, i)
    requires Driven(h, w, i, oldPwd).act.Drove? && Observed(i.view) != Hash(h, w.secret)
    ensures var done := DriveOf(w, i, oldPwd).Outcome().Succeeded?;
            var w' := Driven(h, w, i, oldPwd).world;
            && w'.persisted.Some?
            && (w'.cache == if done && i.second.Landed? then Some(Entry(w.secret, Hash(h, w.secret))) else w.cache)
            && (w'.persisted.value.hash == if done && Lands(i.second) then Hash(h, w.secret) else Observed(w.persisted))
  {
    var observed, o := Observed(i.view), DriveOf(w, i, oldPwd).Outcome();
    TwoHashes(w.persisted.value, i.view.value, Status(InProgress, observed, i.startMsg),
              Terminal(o, Hash(h, w.secret), observed, i.endMsg), i.first, i.second);
  }

  lemma TwoHashes(p: Status, v: Status, stamp: Status, end: Status, first: Patch, second: Patch)
    requires stamp.hash == v.hash
    ensures var a := Write(Some(p), Some(v), stamp, first);
            var b := Write(a.persisted, a.view, end, second);
            && b.persisted.Some?
            && (end.hash == v.hash ==> b.persisted.value.hash == p.hash)
            && (end.hash != v.hash ==>
                  && b.persisted.value.hash == (if Lands(second) then end.hash else p.hash)
                  && (b.ok <==> second.Landed?))
  {
  }

  /**
   From a coherent state, exactly the events above break coherence. An adoption
   over a warm cache is exactly an adoption by a reconcile that read a hash other
   than the persisted one.
   */
  lemma CoherentStep(h: string -> string, w: World, e: Event)
    requires Coherent(h, w) && forall p :: h(p) != ""
    ensures Coherent(h, Next(h, w, e).world) <==> !Breaks(h, w, e)
    ensures Next(h, w, e).act.Adopted? && w.cache.Some? <==>
            && e.Reconcile? && Compares(w, e.inputs) && h(w.secret) != Observed(e.inputs.view) && !e.inputs.failover
            && w.cache.Some? && !ReadsHash(w, e.inputs)
  {
    SoundStep(h, w, e);
    if Next(h, w, e).act.Drove? {
      DrivenHash(h, w, e.inputs, w.cache.value.password);
    }
  }

  /** Every reconcile of the run reads the persisted status. */
  ghost predicate FreshReads(ws: seq<World>, es: seq<Event>) {
    |ws| == |es| + 1 && forall k :: 0 <= k < |es| && es[k].Reconcile? ==> es[k].inputs.view == ws[k].persisted
  }

  lemma {:induction false} SoundAlways(h: string -> string, ws: seq<World>, es: seq<Event>, k: nat)
    requires Legal(h, ws, es) && k <= |es|
    ensures Sound(h, ws[k])
  {
    if k > 0 {
      SoundAlways(h, ws, es, k - 1);
      SoundStep(h, ws[k-1], es[k-1]);
      assert ws[k-1+1] == Next(h, ws[k-1], es[k-1]).world;
    }
  }

  /**
   Over every run with restarts, Secret edits, pod changes, outdated reads,
   conflicts, refused and ambiguous writes: a rotation is always driven with a
   password that hashes to the hash the reconcile read, towards the current
   Secret, which differs.
   */
  lemma DriveMatchesStatus(h: string -> string, ws: seq<World>, es: seq<Event>, k: nat)
    requires Legal(h, ws, es) && k < |es| && Next(h, ws[k], es[k]).act.Drove?
    ensures var a := Next(h, ws[k], es[k]).act;
            && es[k].Reconcile? && h(a.oldPwd) == Observed(es[k].inputs.view)
            && a.newPwd == ws[k].secret && h(a.oldPwd) != h(a.newPwd)
  {
    SoundAlways(h, ws, es, k);
    SoundStep(h, ws[k], es[k]);
  }

  /**
   Over every run in which nothing breaks coherence, outdated reads included, the
   cache is cold or agrees with the persisted status. A missed window is then
   adopted over a warm cache only by a reconcile that read an outdated hash.
   */
  lemma {:induction false} CacheCoherent(h: string -> string, ws: seq<World>, es: seq<Event>, k: nat)
    requires Legal(h, ws, es) && k <= |es|
    requires forall j :: 0 <= j < k ==> !Breaks(h, ws[j], es[j])
    ensures Coherent(h, ws[k])
    ensures k < |es| && Next(h, ws[k], es[k]).act.Adopted? ==>
              ws[k].cache.None? || !ReadsHash(ws[k], es[k].inputs)
  {
    if k > 0 {
      CacheCoherent(h, ws, es, k - 1);
      CoherentStep(h, ws[k-1], es[k-1]);
      assert ws[k-1+1] == Next(h, ws[k-1], es[k-1]).world;
    }
    if k < |es| {
      CoherentStep(h, ws[k], es[k]);
    }
  }

  /** With fresh reads a lost success is all that can go wrong, and adoption needs a cold cache. */
  lemma {:induction false} FreshCacheCoherent(h: string -> string, ws: seq<World>, es: seq<Event>, k: nat)
    requires Legal(h, ws, es) && FreshReads(ws, es) && k <= |es|
    requires forall j :: 0 <= j < k ==> !LostSuccess(h, ws[j], es[j])
    ensures Coherent(h, ws[k])
    ensures k < |es| && Next(h, ws[k], es[k]).act.Adopted? ==> ws[k].cache.None?
    ensures k < |es| && Next(h, ws[k], es[k]).act.Drove? ==>
              ws[k].persisted.Some? && h(Next(h, ws[k], es[k]).act.oldPwd) == ws[k].persisted.value.hash
  {
    if k > 0 {
      FreshCacheCoherent(h, ws, es, k - 1);
      FreshBreaks(h, ws[k-1], es[k-1]);
      CoherentStep(h, ws[k-1], es[k-1]);
      assert ws[k-1+1] == Next(h, ws[k-1], es[k-1]).world;
    }
    if k < |es| {
      CoherentStep(h, ws[k], es[k]);
      SoundStep(h, ws[k], es[k]);
    }
  }

  lemma FreshBreaks(h: string -> string, w: World, e: Event)
    requires Coherent(h, w) && (forall p :: h(p) != "") && (e.Reconcile? ==> e.inputs.view == w.persisted)
    ensures Breaks(h, w, e) <==> LostSuccess(h, w, e)
  {
  }

  /**
   After a success, a Secret put back to the old password and one reconcile that
   still reads the status from before the success: the driver takes the old
   password for the running one, and the next fresh read adopts it without
   rotating, the pods being on the other.
   */
  lemma OutdatedReadAdopts(h: string -> string, w: World, before: Status, stale: Inputs, later: Inputs)
    requires Coherent(h, w) && (forall p :: h(p) != "") && w.secret != "" && w.persisted.Some?
    requires before.phase.Idle? && before.hash == h(w.secret) != w.persisted.value.hash && w.persisted.value.hash != ""
    requires stale.view == Some(before) && later.view == w.persisted && !later.failover
    requires w.persisted.value.phase.Idle?
    ensures var a := Next(h, w, Reconcile(stale)).world;
            && !Coherent(h, a) && a.persisted == w.persisted
            && Next(h, a, Reconcile(later)).act.Adopted? && a.cache.Some?
  {
  }

  /** A lost success leaves a warm cache that the next edit makes the driver adopt over, without rotating. */
  lemma LostSuccessAdopts(h: string -> string, w: World, i: Inputs, settle: Inputs, later: Inputs, secret: string)
    requires Coherent(h, w) && (forall p :: h(p) != "") && LostSuccess(h, w, Reconcile(i)) && i.view == w.persisted
    requires settle.first.Landed? && !later.failover && secret != "" && h(secret) != h(w.secret)
    requires var a := Next(h, w, Reconcile(i)).world;
             settle.view == a.persisted && later.view == Next(h, a, Reconcile(settle)).world.persisted
    ensures var a := Next(h, w, Reconcile(i)).world;
            var b := Next(h, a, Reconcile(settle)).world;
            var c := Next(h, b, Edit(secret)).world;
            c.cache.Some? && Next(h, c, Reconcile(later)).act.Adopted?
  {
    SoundStep(h, w, Reconcile(i));
    DrivenHash(h, w, i, w.cache.value.password);
    DrivenStatus(h, w, i, w.cache.value.password);
  }

  /** What a drive does to a status that reads Succeeded, or that comes to. */
  lemma DrivenStatus(h: string -> string, w: World, i: Inputs, oldPwd: string)
    requires i.view.Some? && Driven(h, w, i, oldPwd).act.Drove? && !CurrentPhase(i.view).Succeeded?
    requires Observed(i.view) != Hash(h, w.secret)
    ensures var s := Driven(h, w, i, oldPwd).world.persisted;
            var done := DriveOf(w, i, oldPwd).Outcome().Succeeded? && Lands(i.second);
            && (done ==> CurrentPhase(s).Succeeded? && Observed(s) == Hash(h, w.secret))
            && (!done && CurrentPhase(s).Succeeded? ==>
                CurrentPhase(w.persisted).Succeeded? && Observed(s) == Observed(w.persisted))
  {
    var observed, o := Observed(i.view), DriveOf(w, i, oldPwd).Outcome();
    TwoWrites(w.persisted, i.view.value, Status(InProgress, observed, i.startMsg),
              Terminal(o, Hash(h, w.secret), observed, i.endMsg), i.first, i.second);
  }

  lemma TwoWrites(p: Option<Status>, v: Status, stamp: Status, end: Status, first: Patch, second: Patch)
    requires !v.phase.Succeeded? && stamp.phase.InProgress? && stamp.hash == v.hash
    requires end.phase.Succeeded? <==> end.hash != v.hash
    ensures var a := Write(p, Some(v), stamp, first);
            var s := Write(a.persisted, a.view, end, second).persisted;
            var done := end.phase.Succeeded? && Lands(second);
            && (done ==> CurrentPhase(s).Succeeded? && Observed(s) == end.hash)
            && (!done && CurrentPhase(s).Succeeded? ==> CurrentPhase(p).Succeeded? && Observed(s) == Observed(p))
  {
  }

  /**
   In every run a reconcile drives exactly when the Secret has a password, the
   status it read is neither Partial nor Succeeded and carries a hash other than
   the password's, the cache holds that hash, no failover is in flight and the
   listed pods are observable. Otherwise no pod's password changes.
   */
  lemma DrivesExactly(h: string -> string, ws: seq<World>, es: seq<Event>, k: nat)
    requires Legal(h, ws, es) && k < |es| && es[k].Reconcile?
    ensures var w, i := ws[k], es[k].inputs;
            Next(h, w, es[k]).act.Drove? <==>
            && w.secret != "" && i.view.Some? && !i.view.value.phase.Partial? && !i.view.value.phase.Succeeded?
            && i.view.value.hash !in {"", h(w.secret)} && w.cache.Some? && w.cache.value.hash == i.view.value.hash
            && !i.failover && i.pods.Some? && A.Observable(i.pods.value)
    ensures !Next(h, ws[k], es[k]).act.Drove? ==> ws[k+1].creds == ws[k].creds
    ensures Next(h, ws[k], es[k]).act.Drove? ==>
              ws[k+1].creds == DriveOf(ws[k], es[k].inputs, ws[k].cache.value.password).After()
  {
    assert ws[k+1] == Next(h, ws[k], es[k]).world;
  }

  /** The status after a write of hash and phase over a fresh copy. */
  predicate Shows(s: Option<Status>, phase: Phase, hash: string) {
    s.Some? && s.value.phase == phase && s.value.hash == hash
  }

  /**
   What a reconcile that reads the persisted status does when it does not drive.
   No password: the cache is dropped, and the status if the write lands. Partial:
   nothing. No hash yet: the Secret is observed, in the cache only if the write is
   known to have landed. Succeeded: settles to Idle under the same hash. Equal
   hash: only the cache is refreshed. A failover in flight: nothing. A cold or
   outdated cache: the Secret is adopted like a first observation.
   */
  lemma QuietExactly(h: string -> string, w: World, i: Inputs)
    requires (forall p :: h(p) != "") && i.view == w.persisted && !Next(h, w, Reconcile(i)).act.Drove?
    ensures
      var w', hash, status := Next(h, w, Reconcile(i)).world, h(w.secret), w.persisted;
      && w'.secret == w.secret && w'.creds == w.creds
      && if w.secret == "" then
           w'.cache == None && w'.persisted == if i.first.Landed? || i.first.Ambiguous? then None else status
         else if status.Some? && status.value.phase.Partial? then w' == w
         else if status.None? || status.value.hash == "" || (Adopts(h, w, i) && !i.failover) then
           && (i.first.Landed? ==> Shows(w'.persisted, Idle, hash) && w'.cache == Some(Entry(w.secret, hash)))
           && (i.first.Ambiguous? ==> Shows(w'.persisted, Idle, hash) && w'.cache == w.cache)
           && (i.first.Conflict? || i.first.Refused? ==> w' == w)
         else if status.value.phase.Succeeded? then
           && w'.cache == w.cache
           && if i.first.Landed? || i.first.Ambiguous? then Shows(w'.persisted, Idle, status.value.hash) else w' == w
         else if status.value.hash == hash then w' == w.(cache := Some(Entry(w.secret, hash)))
         else w' == w
  {
  }

  /** The status compares unequal and the cache is cold or of another hash. */
  predicate Adopts(h: string -> string, w: World, i: Inputs) {
    && i.view.Some? && !i.view.value.phase.Succeeded? && i.view.value.hash != h(w.secret)
    && (w.cache.None? || w.cache.value.hash != i.view.value.hash)
  }

  /**
   A mixed plane stays reported: once the status is Partial, over every run that
   reads it as it is, nothing is driven, adopted or written until a reconcile
   finds the Secret without a password.
   */
  lemma {:induction false} PartialIsSticky(h: string -> string, ws: seq<World>, es: seq<Event>, i: nat, j: nat)
    requires Legal(h, ws, es) && FreshReads(ws, es) && i <= j <= |es| && CurrentPhase(ws[i].persisted).Partial?
    requires forall k :: i <= k < j && es[k].Reconcile? ==> ws[k].secret != ""
    ensures ws[j].persisted == ws[i].persisted
    ensures j < |es| && (es[j].Reconcile? ==> ws[j].secret != "") ==> Next(h, ws[j], es[j]).act == Quiet
  {
    if i < j {
      PartialIsSticky(h, ws, es, i, j - 1);
      StickyStep(h, ws[j-1], es[j-1]);
      assert ws[j-1+1] == Next(h, ws[j-1], es[j-1]).world;
    }
    if j < |es| && (es[j].Reconcile? ==> ws[j].secret != "") {
      StickyStep(h, ws[j], es[j]);
    }
  }

  lemma StickyStep(h: string -> string, w: World, e: Event)
    requires (forall p :: h(p) != "") && CurrentPhase(w.persisted).Partial?
    requires e.Reconcile? ==> e.inputs.view == w.persisted && w.secret != ""
    ensures Next(h, w, e).act == Quiet && Next(h, w, e).world.persisted == w.persisted
  {
  }

  /**
   What a drive records when its last write lands: Succeeded under the new hash,
   or Failed or Partial under the old one; the cache moves with Succeeded alone.
   */
  lemma OutcomeRecorded(h: string -> string, w: World, i: Inputs, oldPwd: string)
    requires Driven(h, w, i, oldPwd).act.Drove? && i.view == w.persisted && i.view.Some?
    requires Observed(i.view) != Hash(h, w.secret) && !CurrentPhase(i.view).Succeeded?
    requires i.second.Landed? && !i.first.Ambiguous?
    ensures var s, cache := Driven(h, w, i, oldPwd).world.persisted, Driven(h, w, i, oldPwd).world.cache;
            match DriveOf(w, i, oldPwd).Outcome()
            case Succeeded(_) => Shows(s, Succeeded, Hash(h, w.secret)) &&
              cache == Some(Entry(w.secret, Hash(h, w.secret)))
            case Failed(_) => Shows(s, Failed, Observed(w.persisted)) && cache == w.cache
            case Partial(_, _) => Shows(s, Partial, Observed(w.persisted)) && cache == w.cache
  {
    var observed, o := Observed(i.view), DriveOf(w, i, oldPwd).Outcome();
    EndLands(i.view.value, Status(InProgress, observed, i.startMsg),
             Terminal(o, Hash(h, w.secret), observed, i.endMsg), i.first);
  }

  lemma EndLands(p: Status, stamp: Status, end: Status, first: Patch)
    requires stamp.hash == p.hash && !first.Ambiguous?
    ensures var a := Write(Some(p), Some(p), stamp, first);
            var b := Write(a.persisted, a.view, end, Landed);
            b.persisted == Some(end) && b.ok
  {
  }

  /** A reconcile that drove a rotation which set every listed pod. */
  ghost predicate SetEveryPod(h: string -> string, w: World, e: Event, w': World, hash: string) {
    && e.Reconcile? && e.inputs.pods.Some?
    && Next(h, w, e).act.Drove? && hash == h(w.secret)
    && forall n :: n in A.PodNames(e.inputs.pods.value) ==> n in w'.creds && w'.creds[n] == Both(w.secret)
  }

  lemma ListedKnown(pods: seq<A.Pod>, creds: map<string, Creds>)
    requires Listed(pods, creds)
    ensures Elements(A.PodNames(pods)) <= creds.Keys
  {
  }

  /**
   The reconcile read an Idle status although the persisted one is Succeeded, and
   its first observation or adoption lands: the patch leaves out the phase, which
   it takes for unchanged, and puts the new hash under the old Succeeded.
   */
  predicate Mislabels(h: string -> string, w: World, e: Event) {
    && e.Reconcile? && w.secret != "" && CurrentPhase(w.persisted).Succeeded? && Observed(w.persisted) != h(w.secret)
    && e.inputs.view.Some? && e.inputs.view.value.phase.Idle? && Lands(e.inputs.first)
    && (Observed(e.inputs.view) == "" || Next(h, w, e).act.Adopted?)
  }

  /**
   A status that reads Succeeded afterwards did so before, with that hash; or was
   earned; or, exactly then, is mislabelled.
   */
  lemma SucceededStep(h: string -> string, w: World, e: Event)
    requires Sound(h, w) && Enabled(w, e) && forall p :: h(p) != ""
    ensures var s := Next(h, w, e).world.persisted;
            && (Mislabels(h, w, e) ==>
                  && CurrentPhase(s).Succeeded? && Observed(s) == h(w.secret) != Observed(w.persisted)
                  && !Next(h, w, e).act.Drove?)
            && (CurrentPhase(s).Succeeded? && !Mislabels(h, w, e) ==>
                  || (CurrentPhase(w.persisted).Succeeded? && Observed(s) == Observed(w.persisted))
                  || SetEveryPod(h, w, e, Next(h, w, e).world, Observed(s)))
  {
    if e.Reconcile? && Next(h, w, e).act.Drove? {
      var was := w.cache.value.password;
      SoundStep(h, w, e);
      DrivenStatus(h, w, e.inputs, was);
      ListedKnown(e.inputs.pods.value, w.creds);
      A.OutcomeSound(DriveOf(w, e.inputs, was));
    }
  }

  /**
   Whenever the status reads Succeeded, some earlier drive set every pod it listed
   to the password with that hash, unless an outdated read mislabelled it.
   */
  lemma {:induction false} SucceededIsEarned(h: string -> string, ws: seq<World>, es: seq<Event>, k: nat)
    returns (j: nat)
    requires Legal(h, ws, es) && k <= |es| && CurrentPhase(ws[k].persisted).Succeeded?
    requires forall m :: 0 <= m < k ==> !Mislabels(h, ws[m], es[m])
    ensures j < k && SetEveryPod(h, ws[j], es[j], ws[j+1], Observed(ws[k].persisted))
  {
    assert ws[k-1+1] == Next(h, ws[k-1], es[k-1]).world && Enabled(ws[k-1], es[k-1]);
    SoundAlways(h, ws, es, k - 1);
    SucceededStep(h, ws[k-1], es[k-1]);
    if CurrentPhase(ws[k-1].persisted).Succeeded? && Observed(ws[k].persisted) == Observed(ws[k-1].persisted) {
      j := SucceededIsEarned(h, ws, es, k - 1);
    } else {
      j := k - 1;
    }
  }

  /**
   A drive that fails is driven again by the next reconcile that finds the same
   Secret and no failover, whether or not its status landed: the rejected
   content is retried without end.
   */
  lemma FailedIsRetried(h: string -> string, w: World, i: Inputs, later: Inputs)
    requires Coherent(h, w) && (forall p :: h(p) != "") && Next(h, w, Reconcile(i)).act.Drove? && i.view == w.persisted
    requires DriveOf(w, i, Next(h, w, Reconcile(i)).act.oldPwd).Outcome().Failed?
    requires !later.failover && later.pods.Some? && A.Observable(later.pods.value)
    requires later.view == Next(h, w, Reconcile(i)).world.persisted
    ensures Next(h, Next(h, w, Reconcile(i)).world, Reconcile(later)).act == Next(h, w, Reconcile(i)).act
  {
    var was := w.cache.value.password;
    SoundStep(h, w, Reconcile(i));
    DrivenHash(h, w, i, was);
    DrivenStatus(h, w, i, was);
  }
}
