/** Changing one pod's password over one connection, and the retries around it. */
module RotateWire {
  import opened Base

  datatype Creds = Creds(requirepass: string, masterauth: string)

  function Both(password: string): Creds {
    Creds(password, password)
  }

  datatype Command =
    | Auth(password: string) | SetMasterauth(password: string) | SetRequirepass(password: string) | Rewrite

  /**
   What happens to one attempt: whether the dial works, how many replies
   arrive before the link breaks, whether the unanswered command still took
   effect, and which CONFIG commands the server refuses.
   */
  datatype Wire = Wire(dials: bool, replies: nat, lastApplied: bool,
                       refuseMasterauth: bool, refuseRequirepass: bool, refuseRewrite: bool)

  datatype Session = Session(creds: Creds, authed: bool, replies: nat, broken: bool)

  /** Whether the server accepts a command that reaches it. */
  predicate Accepts(s: Session, cmd: Command, w: Wire) {
    match cmd
    case Auth(p) => p != "" && s.creds.requirepass == p
    case SetMasterauth(_) => s.authed && !w.refuseMasterauth
    case SetRequirepass(_) => s.authed && !w.refuseRequirepass
    case Rewrite => s.authed && !w.refuseRewrite
  }

  function Apply(s: Session, cmd: Command): Session {
    match cmd
    case Auth(_) => s.(authed := true)
    case SetMasterauth(p) => s.(creds := s.creds.(masterauth := p))
    case SetRequirepass(p) => s.(creds := s.creds.(requirepass := p))
    case Rewrite => s
  }

  datatype Sent = Sent(session: Session, ok: bool)

  /** One command and its reply; a lost reply does not say whether the command took effect. */
  function Send(s: Session, cmd: Command, w: Wire): Sent {
    var served := if Accepts(s, cmd, w) then Apply(s, cmd) else s;
    if s.broken then Sent(s, false)
    else if s.replies == 0 then Sent((if w.lastApplied then served else s).(broken := true), false)
    else Sent(served.(replies := s.replies - 1), Accepts(s, cmd, w))
  }

  datatype Verdict = Set | RewriteFailed | Error
  datatype Tried = Tried(creds: Creds, verdict: Verdict)

  function Configure(s: Session, newPwd: string, w: Wire): Tried {
    var a := Send(s, SetMasterauth(newPwd), w);
    if !a.ok then Tried(a.session.creds, Error)
    else
      var b := Send(a.session, SetRequirepass(newPwd), w);
      if !b.ok then Tried(b.session.creds, Error)
      else
        var c := Send(b.session, Rewrite, w);
        Tried(c.session.creds, if c.ok then Set else RewriteFailed)
  }

  function RotateOne(c: Creds, oldPwd: string, newPwd: string, w: Wire): Tried {
    if !w.dials then Tried(c, Error)
    else
      var s := Session(c, c.requirepass == "", w.replies, false);
      if oldPwd == "" then Configure(s, newPwd, w)
      else
        var a := Send(s, Auth(oldPwd), w);
        if a.ok then Configure(a.session, newPwd, w)
        else if newPwd == "" || newPwd == oldPwd then Tried(a.session.creds, Error)
        else
          var b := Send(a.session, Auth(newPwd), w);
          if b.ok then Configure(b.session, newPwd, w) else Tried(b.session.creds, Error)
  }

  const ATTEMPTS: nat := 3

  /** The attempts one pod would get; fewer than `ATTEMPTS` when the context ends during a backoff. */
  datatype Script = Script(wires: seq<Wire>) {
    predicate Valid() {
      1 <= |wires| <= ATTEMPTS
    }
  }

  type Schedule = s: Script | s.Valid() witness Script([Wire(false, 0, false, false, false, false)])

  function Attempts(c: Creds, oldPwd: string, newPwd: string, ws: seq<Wire>): Tried
    requires ws != []
    decreases |ws|
  {
    var t := RotateOne(c, oldPwd, newPwd, ws[0]);
    if t.verdict.Set? || |ws| == 1 then t else Attempts(t.creds, oldPwd, newPwd, ws[1..])
  }

  function Retry(c: Creds, oldPwd: string, newPwd: string, s: Schedule): Tried
  {
    var t := Attempts(c, oldPwd, newPwd, s.wires);
    if t.verdict.Set? || |s.wires| == ATTEMPTS then t else t.(verdict := Error)
  }

  /** The retry loop. */
  method RotateOneWithRetry(c: Creds, oldPwd: string, newPwd: string, s: Schedule) returns (t: Tried)
    ensures t == Retry(c, oldPwd, newPwd, s)
  {
    t := Tried(c, Error);
    for i := 0 to ATTEMPTS
      invariant i <= |s.wires|
      invariant i > 0 ==> !t.verdict.Set?
      invariant i == 0 ==> t.creds == c
      invariant i < |s.wires| ==>
                  Attempts(t.creds, oldPwd, newPwd, s.wires[i..]) == Attempts(c, oldPwd, newPwd, s.wires)
      invariant i == |s.wires| ==> t == Attempts(c, oldPwd, newPwd, s.wires)
    {
      if i == |s.wires| {
        return t.(verdict := Error);
      }
      assert s.wires[i..][1..] == s.wires[i+1..];
      t := RotateOne(t.creds, oldPwd, newPwd, s.wires[i]);
      if t.verdict.Set? {
        return;
      }
    }
  }

  /** The password after the first `i` attempts, none of which ended the retries. */
  function CredsAfter(c: Creds, oldPwd: string, newPwd: string, ws: seq<Wire>, i: nat): Creds
    requires i <= |ws|
  {
    if i == 0 then c else RotateOne(CredsAfter(c, oldPwd, newPwd, ws, i - 1), oldPwd, newPwd, ws[i-1]).creds
  }

  lemma {:induction false} CredsAfterFirst(c: Creds, oldPwd: string, newPwd: string, ws: seq<Wire>, i: nat)
    requires 0 < i <= |ws|
    ensures CredsAfter(RotateOne(c, oldPwd, newPwd, ws[0]).creds, oldPwd, newPwd, ws[1..], i - 1) ==
            CredsAfter(c, oldPwd, newPwd, ws, i)
  {
    if i > 1 {
      CredsAfterFirst(c, oldPwd, newPwd, ws, i - 1);
    }
  }

  /** The attempts stop at `i`: the first clean success, or the last one. */
  ghost predicate StopsAt(c: Creds, oldPwd: string, newPwd: string, ws: seq<Wire>, i: nat) {
    && i < |ws|
    && (forall j :: 0 <= j < i ==> !RotateOne(CredsAfter(c, oldPwd, newPwd, ws, j), oldPwd, newPwd, ws[j]).verdict.Set?)
    && (i == |ws| - 1 || RotateOne(CredsAfter(c, oldPwd, newPwd, ws, i), oldPwd, newPwd, ws[i]).verdict.Set?)
  }

  lemma {:induction false} AttemptsStop(c: Creds, oldPwd: string, newPwd: string, ws: seq<Wire>) returns (i: nat)
    requires ws != []
    ensures StopsAt(c, oldPwd, newPwd, ws, i)
    ensures Attempts(c, oldPwd, newPwd, ws) == RotateOne(CredsAfter(c, oldPwd, newPwd, ws, i), oldPwd, newPwd, ws[i])
    decreases |ws|
  {
    var t := RotateOne(c, oldPwd, newPwd, ws[0]);
    if t.verdict.Set? || |ws| == 1 {
      i := 0;
    } else {
      var k := AttemptsStop(t.creds, oldPwd, newPwd, ws[1..]);
      i := k + 1;
      forall j | 0 < j <= i
        ensures CredsAfter(t.creds, oldPwd, newPwd, ws[1..], j - 1) == CredsAfter(c, oldPwd, newPwd, ws, j)
      {
        CredsAfterFirst(c, oldPwd, newPwd, ws, j);
      }
      forall j | 0 <= j < i
        ensures !RotateOne(CredsAfter(c, oldPwd, newPwd, ws, j), oldPwd, newPwd, ws[j]).verdict.Set?
      {
        if j > 0 {
          assert ws[1..][j-1] == ws[j];
        }
      }
    }
  }

  /**
   The retries end at the first attempt that sets and rewrites, or at the last
   one, whose verdict is then reported: also when an earlier one only failed to
   rewrite. When the context ends before the third attempt the report is an
   error, whatever the attempts did.
   */
  lemma VerdictExactly(c: Creds, oldPwd: string, newPwd: string, s: Schedule) returns (i: nat)
    ensures StopsAt(c, oldPwd, newPwd, s.wires, i)
    ensures var t := Retry(c, oldPwd, newPwd, s);
            var last := RotateOne(CredsAfter(c, oldPwd, newPwd, s.wires, i), oldPwd, newPwd, s.wires[i]);
            && t.creds == last.creds
            && t.verdict == if last.verdict.Set? || |s.wires| == 3 then last.verdict else Error
  {
    i := AttemptsStop(c, oldPwd, newPwd, s.wires);
  }

  // ----- what a verdict says about the pod

  /** The in-memory password is set: a failed CONFIG REWRITE still counts. */
  predicate Counts(v: Verdict) {
    !v.Error?
  }

  lemma ConfigureSets(s: Session, newPwd: string, w: Wire)
    ensures var t := Configure(s, newPwd, w);
            && (Counts(t.verdict) ==> t.creds == Both(newPwd))
            && (t.creds.requirepass == s.creds.requirepass || t.creds.requirepass == newPwd)
            && (t.creds.masterauth == s.creds.masterauth || t.creds.masterauth == newPwd)
  {
  }

  lemma AttemptSets(c: Creds, oldPwd: string, newPwd: string, w: Wire)
    ensures var t := RotateOne(c, oldPwd, newPwd, w);
            && (Counts(t.verdict) ==> t.creds == Both(newPwd))
            && (t.creds.requirepass == c.requirepass || t.creds.requirepass == newPwd)
            && (t.creds.masterauth == c.masterauth || t.creds.masterauth == newPwd)
  {
    var s := Session(c, c.requirepass == "", w.replies, false);
    var a := Send(s, Auth(oldPwd), w).session;
    var b := Send(a, Auth(newPwd), w).session;
    ConfigureSets(s, newPwd, w);
    ConfigureSets(a, newPwd, w);
    ConfigureSets(b, newPwd, w);
  }

  /** A counted pod carries the new password in both fields; any other keeps each field or has the new one. */
  lemma {:induction false} CountedIsSet(c: Creds, oldPwd: string, newPwd: string, ws: seq<Wire>)
    requires ws != []
    ensures var t := Attempts(c, oldPwd, newPwd, ws);
            && (Counts(t.verdict) ==> t.creds == Both(newPwd))
            && (t.creds.requirepass == c.requirepass || t.creds.requirepass == newPwd)
            && (t.creds.masterauth == c.masterauth || t.creds.masterauth == newPwd)
    decreases |ws|
  {
    AttemptSets(c, oldPwd, newPwd, ws[0]);
    if |ws| > 1 {
      CountedIsSet(RotateOne(c, oldPwd, newPwd, ws[0]).creds, oldPwd, newPwd, ws[1..]);
    }
  }

  /** The attempt reaches the first CONFIG SET on a pod that accepts the old password. */
  predicate Touches(w: Wire) {
    w.dials && !w.refuseMasterauth && (w.replies >= 2 || (w.replies == 1 && w.lastApplied))
  }

  predicate Untouched(ws: seq<Wire>) {
    forall i :: 0 <= i < |ws| ==> !Touches(ws[i])
  }

  /** From the old password, the retries leave the pod alone exactly when no attempt reaches a CONFIG SET. */
  lemma {:induction false} LeftAlone(oldPwd: string, newPwd: string, ws: seq<Wire>)
    requires ws != [] && oldPwd != "" && oldPwd != newPwd
    ensures Attempts(Both(oldPwd), oldPwd, newPwd, ws).creds == Both(oldPwd) <==> Untouched(ws)
    decreases |ws|
  {
    var t := RotateOne(Both(oldPwd), oldPwd, newPwd, ws[0]);
    assert t.creds == Both(oldPwd) <==> !Touches(ws[0]);
    assert t.verdict.Set? ==> Touches(ws[0]);
    if |ws| > 1 {
      assert Untouched(ws) <==> !Touches(ws[0]) && Untouched(ws[1..]);
      if Touches(ws[0]) {
        assert t.creds.masterauth == newPwd;
        CountedIsSet(t.creds, oldPwd, newPwd, ws[1..]);
      } else {
        LeftAlone(oldPwd, newPwd, ws[1..]);
      }
    }
  }

  /** A pod already on the new password stays there whatever the attempts do. */
  lemma {:induction false} AlreadyNew(oldPwd: string, newPwd: string, ws: seq<Wire>)
    requires ws != []
    ensures Attempts(Both(newPwd), oldPwd, newPwd, ws).creds == Both(newPwd)
    decreases |ws|
  {
    CountedIsSet(Both(newPwd), oldPwd, newPwd, ws);
  }

  predicate Clean(w: Wire) {
    w.dials && w.replies >= 5 && !w.refuseMasterauth && !w.refuseRequirepass && !w.refuseRewrite
  }

  /** A pod on a third password rejects both and keeps it. */
  lemma {:induction false} ThirdPassword(c: Creds, oldPwd: string, newPwd: string, ws: seq<Wire>)
    requires ws != [] && oldPwd != "" && c.requirepass !in {oldPwd, newPwd, ""}
    ensures Attempts(c, oldPwd, newPwd, ws) == Tried(c, Error)
    decreases |ws|
  {
    assert RotateOne(c, oldPwd, newPwd, ws[0]) == Tried(c, Error);
    if |ws| > 1 {
      ThirdPassword(c, oldPwd, newPwd, ws[1..]);
    }
  }

  /** With one clean attempt a protected pod is set exactly when it starts from one of the two passwords. */
  lemma CleanAttempt(c: Creds, oldPwd: string, newPwd: string, s: Schedule)
    requires Clean(s.wires[0]) && oldPwd != "" && newPwd != "" && c.requirepass != ""
    ensures Retry(c, oldPwd, newPwd, s).verdict.Set? <==> c.requirepass in {oldPwd, newPwd}
  {
    if c.requirepass !in {oldPwd, newPwd} {
      ThirdPassword(c, oldPwd, newPwd, s.wires);
    }
  }
}
