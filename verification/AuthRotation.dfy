/** One drive of the auth rotation over the data plane: rotate, classify, revert. */
module AuthRotation {
  import opened Base
  import opened Ordering
  import opened RotateWire
  import Names

  datatype Role = Primary | Replica | Unlabelled
  datatype Pod = Pod(name: string, ip: string, role: Role)
  datatype Endpoint = Endpoint(name: string, addr: string)
  datatype Leg = ReplicaLeg | MasterLeg
  datatype PodResult = PodResult(endpoint: Endpoint, leg: Leg, verdict: Verdict)

  const NO_ENDPOINT := Endpoint("", "")

  function ToEndpoint(p: Pod): Endpoint {
    Endpoint(p.name, p.ip + ":6379")
  }

  /** No name twice. */
  ghost predicate Distinct(names: seq<string>) {
    |Elements(names)| == |names|
  }

  function PodNames(pods: seq<Pod>): seq<string> {
    seq(|pods|, i requires 0 <= i < |pods| => pods[i].name)
  }

  function EndpointNames(eps: seq<Endpoint>): seq<string> {
    seq(|eps|, i requires 0 <= i < |eps| => eps[i].name)
  }

  lemma {:induction false} DistinctPositions(names: seq<string>)
    ensures |Elements(names)| <= |names|
    ensures Distinct(names) <==> forall i, j :: 0 <= i < j < |names| ==> names[i] != names[j]
  {
    if names != [] {
      var n := |names| - 1;
      var front := names[..n];
      DistinctPositions(front);
      assert names == front + [names[n]];
      assert Elements(names) == Elements(front) + {names[n]};
      if names[n] in front {
        assert Elements(names) == Elements(front);
        var i :| 0 <= i < n && front[i] == names[n];
        assert names[i] == names[n];
      } else {
        assert |Elements(names)| == |Elements(front)| + 1;
        assert forall i :: 0 <= i < n ==> names[i] == front[i];
      }
    }
  }

  predicate ByName(a: Endpoint, b: Endpoint) {
    Names.Less(a.name, b.name)
  }

  lemma ByNameIsOrder()
    ensures StrictWeak(ByName)
  {
    Names.LessIsOrder();
    forall a, b, c
      ensures ByName(a, b) ==> !ByName(b, a)
      ensures ByName(a, b) && ByName(b, c) ==> ByName(a, c)
      ensures !ByName(a, b) && !ByName(b, c) ==> !ByName(a, c)
    {
    }
  }

  lemma NamesPermuted(a: seq<Endpoint>, b: seq<Endpoint>)
    requires multiset(a) == multiset(b)
    ensures Elements(EndpointNames(a)) == Elements(EndpointNames(b)) && |a| == |b|
  {
    SameMembers(a, b);
    forall n
      ensures n in EndpointNames(a) <==> n in EndpointNames(b)
    {
      NamePermuted(a, b, n);
      NamePermuted(b, a, n);
    }
  }

  lemma NamePermuted(a: seq<Endpoint>, b: seq<Endpoint>, n: string)
    requires multiset(a) == multiset(b)
    ensures n in EndpointNames(a) ==> n in EndpointNames(b)
  {
    if n in EndpointNames(a) {
      var i :| 0 <= i < |a| && EndpointNames(a)[i] == n;
      SameMembers(a, b);
      assert a[i] in Elements(a);
      assert a[i] in b;
      var j :| 0 <= j < |b| && b[j] == a[i];
      assert EndpointNames(b)[j] == n;
    }
  }

  method SortByName(eps: seq<Endpoint>) returns (r: seq<Endpoint>)
    ensures Sorted(r, ByName) && multiset(r) == multiset(eps)
    ensures Elements(EndpointNames(r)) == Elements(EndpointNames(eps)) && |r| == |eps|
  {
    ByNameIsOrder();
    r := Sort(eps, ByName);
    NamesPermuted(r, eps);
  }

  // ----- choosing the endpoints

  function ToEndpoints(pods: seq<Pod>): seq<Endpoint> {
    seq(|pods|, i requires 0 <= i < |pods| => ToEndpoint(pods[i]))
  }

  function Primaries(pods: seq<Pod>): nat {
    if pods == [] then 0
    else Primaries(pods[..|pods|-1]) + if pods[|pods|-1].role.Primary? then 1 else 0
  }

  /** Every pod has an address and a role, and exactly one is the primary. */
  predicate Observable(pods: seq<Pod>) {
    && (forall i :: 0 <= i < |pods| ==> pods[i].ip != "" && !pods[i].role.Unlabelled?)
    && Primaries(pods) == 1
  }

  lemma {:induction false} OnePrimary(pods: seq<Pod>)
    ensures Primaries(pods) >= 1 <==> exists i :: 0 <= i < |pods| && pods[i].role.Primary?
    ensures Primaries(pods) <= 1 <==>
            forall i, j :: 0 <= i < j < |pods| ==> !(pods[i].role.Primary? && pods[j].role.Primary?)
  {
    if pods != [] {
      var n := |pods| - 1;
      OnePrimary(pods[..n]);
      if Primaries(pods[..n]) >= 1 {
        var i :| 0 <= i < n && pods[..n][i].role.Primary?;
        assert pods[i].role.Primary?;
      }
    }
  }

  /** The split goes ahead exactly when every pod has an address and a role and just one is the primary. */
  lemma ObservableExactly(pods: seq<Pod>)
    ensures Observable(pods) <==>
            && (forall i :: 0 <= i < |pods| ==> pods[i].ip != "" && !pods[i].role.Unlabelled?)
            && (exists i :: 0 <= i < |pods| && pods[i].role.Primary?)
            && (forall i, j :: 0 <= i < j < |pods| ==> !(pods[i].role.Primary? && pods[j].role.Primary?))
  {
    OnePrimary(pods);
  }

  /** With at most one primary so far, the two parts hold exactly the pods' endpoints. */
  ghost predicate Parted(pods: seq<Pod>, replicas: seq<Endpoint>, master: Endpoint) {
    && (Primaries(pods) == 0 ==> multiset(replicas) == multiset(ToEndpoints(pods)))
    && (Primaries(pods) == 1 ==> multiset(replicas) + multiset{master} == multiset(ToEndpoints(pods)))
    && (Primaries(pods) == 1 ==> exists k :: 0 <= k < |pods| && pods[k].role.Primary? && master == ToEndpoint(pods[k]))
  }

  lemma PartOne(pods: seq<Pod>, p: Pod, replicas: seq<Endpoint>, master: Endpoint)
    requires Parted(pods, replicas, master)
    ensures p.role.Primary? ==> Parted(pods + [p], replicas, ToEndpoint(p))
    ensures p.role.Replica? ==> Parted(pods + [p], replicas + [ToEndpoint(p)], master)
    ensures Primaries(pods + [p]) == Primaries(pods) + if p.role.Primary? then 1 else 0
  {
    var all := pods + [p];
    assert all[..|pods|] == pods && all[|pods|] == p;
    assert ToEndpoints(all) == ToEndpoints(pods) + [ToEndpoint(p)];
    if Primaries(pods) == 1 {
      var k :| 0 <= k < |pods| && pods[k].role.Primary? && master == ToEndpoint(pods[k]);
      assert all[k] == pods[k];
    }
  }

  /** Name-sorted replicas and the primary, covering every pod; or a refusal. */
  method SplitDataPlane(pods: seq<Pod>) returns (replicas: seq<Endpoint>, master: Endpoint, ok: bool)
    ensures ok <==> Observable(pods)
    ensures ok ==> Sorted(replicas, ByName) && multiset(replicas) + multiset{master} == multiset(ToEndpoints(pods))
    ensures ok ==> exists i :: 0 <= i < |pods| && pods[i].role.Primary? && master == ToEndpoint(pods[i])
    ensures !ok ==> replicas == [] && master == NO_ENDPOINT
  {
    var primaryCount := 0;
    var rs: seq<Endpoint> := [];
    master := NO_ENDPOINT;
    for i := 0 to |pods|
      invariant forall k :: 0 <= k < i ==> pods[k].ip != "" && !pods[k].role.Unlabelled?
      invariant primaryCount == Primaries(pods[..i]) && Parted(pods[..i], rs, master)
    {
      var p := pods[i];
      if p.ip == "" {
        return [], NO_ENDPOINT, false;
      }
      PartOne(pods[..i], p, rs, master);
      assert pods[..i+1] == pods[..i] + [p];
      match p.role {
        case Primary =>
          primaryCount := primaryCount + 1;
          master := ToEndpoint(p);
        case Replica =>
          rs := rs + [ToEndpoint(p)];
        case Unlabelled =>
          return [], NO_ENDPOINT, false;
      }
    }
    assert pods[..|pods|] == pods;
    if primaryCount != 1 {
      return [], NO_ENDPOINT, false;
    }
    replicas := SortByName(rs);
    ok := true;
  }

  predicate Dialable(ep: Endpoint) {
    ep.name != "" && ep.addr != ""
  }

  /** The endpoints one rotation visits, in order; a zero-valued master is skipped. */
  function Targets(replicas: seq<Endpoint>, master: Endpoint): seq<Endpoint> {
    replicas + if Dialable(master) then [master] else []
  }

  /** The split visits every pod once. */
  lemma SplitCovers(pods: seq<Pod>, replicas: seq<Endpoint>, master: Endpoint)
    requires multiset(replicas) + multiset{master} == multiset(ToEndpoints(pods))
    requires Distinct(PodNames(pods)) && forall i :: 0 <= i < |pods| ==> pods[i].name != ""
    ensures Elements(EndpointNames(Targets(replicas, master))) == Elements(PodNames(pods))
    ensures Distinct(EndpointNames(Targets(replicas, master)))
    ensures forall ep :: ep in Targets(replicas, master) ==> Dialable(ep) && ep.name in PodNames(pods)
  {
    var eps := replicas + [master];
    SameMembers(eps, ToEndpoints(pods));
    forall ep | ep in eps
      ensures Dialable(ep) && ep.name in PodNames(pods)
    {
      assert ep in Elements(ToEndpoints(pods));
      var i :| 0 <= i < |pods| && ToEndpoints(pods)[i] == ep;
      assert PodNames(pods)[i] == ep.name;
    }
    assert master in eps;
    assert Targets(replicas, master) == eps;
    NamesPermuted(eps, ToEndpoints(pods));
    assert EndpointNames(ToEndpoints(pods)) == PodNames(pods);
  }

  function ResultNames(rs: seq<PodResult>): seq<string> {
    seq(|rs|, i requires 0 <= i < |rs| => rs[i].endpoint.name)
  }

  function ResultEndpoints(rs: seq<PodResult>): seq<Endpoint> {
    seq(|rs|, i requires 0 <= i < |rs| => rs[i].endpoint)
  }

  function Masters(rs: seq<PodResult>): nat {
    if rs == [] then 0 else Masters(rs[..|rs|-1]) + if rs[|rs|-1].leg.MasterLeg? then 1 else 0
  }

  predicate Revertible(rs: seq<PodResult>) {
    Masters(rs) <= 1 && forall i :: 0 <= i < |rs| ==> Dialable(rs[i].endpoint)
  }

  /** The endpoints to revert are those of the given results. */
  method SplitRevert(succeeded: seq<PodResult>) returns (replicas: seq<Endpoint>, master: Endpoint)
    requires Revertible(succeeded)
    ensures Sorted(replicas, ByName) && multiset(Targets(replicas, master)) == multiset(ResultEndpoints(succeeded))
  {
    var rs: seq<Endpoint> := [];
    master := NO_ENDPOINT;
    for i := 0 to |succeeded|
      invariant Collected(succeeded[..i], rs, master)
    {
      var r := succeeded[i];
      MastersGrow(succeeded, i + 1);
      assert succeeded[..i+1] == succeeded[..i] + [r];
      CollectOne(succeeded[..i], r, rs, master);
      match r.leg {
        case MasterLeg => master := r.endpoint;
        case ReplicaLeg => rs := rs + [r.endpoint];
      }
    }
    assert succeeded[..|succeeded|] == succeeded;
    replicas := SortByName(rs);
    assert multiset(Targets(replicas, master)) ==
           multiset(rs) + (if Dialable(master) then multiset{master} else multiset{});
  }

  /** The two legs gathered so far hold exactly the endpoints of `rs`. */
  ghost predicate Collected(rs: seq<PodResult>, replicas: seq<Endpoint>, master: Endpoint) {
    && (Dialable(master) <==> Masters(rs) == 1)
    && multiset(ResultEndpoints(rs)) == multiset(replicas) + (if Dialable(master) then multiset{master} else multiset{})
  }

  lemma CollectOne(rs: seq<PodResult>, r: PodResult, replicas: seq<Endpoint>, master: Endpoint)
    requires Collected(rs, replicas, master) && Dialable(r.endpoint) && Masters(rs + [r]) <= 1
    ensures r.leg.MasterLeg? ==> Collected(rs + [r], replicas, r.endpoint)
    ensures r.leg.ReplicaLeg? ==> Collected(rs + [r], replicas + [r.endpoint], master)
  {
    assert (rs + [r])[..|rs|] == rs;
    assert ResultEndpoints(rs + [r]) == ResultEndpoints(rs) + [r.endpoint];
  }

  lemma {:induction false} MastersGrow(rs: seq<PodResult>, i: nat)
    requires i <= |rs|
    ensures Masters(rs[..i]) <= Masters(rs)
  {
    if i < |rs| {
      var front := rs[..|rs|-1];
      assert front[..i] == rs[..i];
      MastersGrow(front, i);
    } else {
      assert rs[..i] == rs;
    }
  }

  // ----- rotating and classifying

  /** The plane after the named pods each went through their attempts. */
  function Roll(creds: map<string, Creds>, names: set<string>, oldPwd: string, newPwd: string,
                env: string -> Schedule): map<string, Creds> {
    map n | n in creds :: if n in names then Retry(creds[n], oldPwd, newPwd, env(n)).creds else creds[n]
  }

  function Results(creds: map<string, Creds>, eps: seq<Endpoint>, leg: Leg,
                   oldPwd: string, newPwd: string, env: string -> Schedule): seq<PodResult>
    requires forall i :: 0 <= i < |eps| ==> eps[i].name in creds
  {
    seq(|eps|, i requires 0 <= i < |eps| =>
      PodResult(eps[i], leg, Retry(creds[eps[i].name], oldPwd, newPwd, env(eps[i].name)).verdict))
  }

  lemma DistinctAppend(s: seq<string>, x: string)
    ensures Distinct(s + [x]) <==> Distinct(s) && x !in s
  {
    DistinctPositions(s);
    assert Elements(s + [x]) == Elements(s) + {x};
  }

  lemma RollOneMore(creds: map<string, Creds>, names: set<string>, x: string, oldPwd: string, newPwd: string,
                    env: string -> Schedule)
    requires x in creds && x !in names
    ensures Roll(creds, names, oldPwd, newPwd, env).Keys == creds.Keys
    ensures Roll(creds, names + {x}, oldPwd, newPwd, env) ==
            Roll(creds, names, oldPwd, newPwd, env)[x := Retry(creds[x], oldPwd, newPwd, env(x)).creds]
    ensures Roll(creds, names, oldPwd, newPwd, env)[x] == creds[x]
  {
  }

  lemma NextName(eps: seq<Endpoint>, i: nat)
    requires Distinct(EndpointNames(eps)) && i < |eps|
    ensures eps[i].name !in Elements(EndpointNames(eps[..i]))
    ensures Elements(EndpointNames(eps[..i+1])) == Elements(EndpointNames(eps[..i])) + {eps[i].name}
  {
    DistinctPositions(EndpointNames(eps));
    assert EndpointNames(eps[..i]) == EndpointNames(eps)[..i] && EndpointNames(eps)[i] == eps[i].name;
    assert EndpointNames(eps[..i+1]) == EndpointNames(eps[..i]) + [eps[i].name];
  }

  lemma RollNext(creds: map<string, Creds>, eps: seq<Endpoint>, i: nat, leg: Leg, oldPwd: string, newPwd: string,
                 env: string -> Schedule)
    requires Distinct(EndpointNames(eps)) && i < |eps| && forall k :: 0 <= k < |eps| ==> eps[k].name in creds
    ensures var so := Roll(creds, Elements(EndpointNames(eps[..i])), oldPwd, newPwd, env);
            var t := Retry(creds[eps[i].name], oldPwd, newPwd, env(eps[i].name));
            && eps[i].name in so && so[eps[i].name] == creds[eps[i].name]
            && Roll(creds, Elements(EndpointNames(eps[..i+1])), oldPwd, newPwd, env) == so[eps[i].name := t.creds]
            && Results(creds, eps[..i+1], leg, oldPwd, newPwd, env) ==
               Results(creds, eps[..i], leg, oldPwd, newPwd, env) + [PodResult(eps[i], leg, t.verdict)]
  {
    NextName(eps, i);
    RollOneMore(creds, Elements(EndpointNames(eps[..i])), eps[i].name, oldPwd, newPwd, env);
  }

  /** The running data plane: each pod's passwords. */
  class DataPlane {
    var creds: map<string, Creds>

    /**
     One plane of pods, each with its own attempts; pods are independent, so the
     order within the plane does not matter.
     */
    method RotateMany(eps: seq<Endpoint>, leg: Leg, oldPwd: string, newPwd: string, env: string -> Schedule)
      returns (results: seq<PodResult>)
      requires Distinct(EndpointNames(eps)) && forall i :: 0 <= i < |eps| ==> eps[i].name in creds
      modifies this
      ensures creds == Roll(old(creds), Elements(EndpointNames(eps)), oldPwd, newPwd, env)
      ensures results == Results(old(creds), eps, leg, oldPwd, newPwd, env)
    {
      results := [];
      for i := 0 to |eps|
        invariant creds == Roll(old(creds), Elements(EndpointNames(eps[..i])), oldPwd, newPwd, env)
        invariant results == Results(old(creds), eps[..i], leg, oldPwd, newPwd, env)
      {
        var ep := eps[i];
        RollNext(old(creds), eps, i, leg, oldPwd, newPwd, env);
        var t := RotateOneWithRetry(creds[ep.name], oldPwd, newPwd, env(ep.name));
        creds := creds[ep.name := t.creds];
        results := results + [PodResult(ep, leg, t.verdict)];
      }
      assert eps[..|eps|] == eps;
    }

    /** Replicas first, then the master. */
    method RotateAuth(replicas: seq<Endpoint>, master: Endpoint, oldPwd: string, newPwd: string,
                      env: string -> Schedule)
      returns (results: seq<PodResult>)
      requires Distinct(EndpointNames(Targets(replicas, master)))
      requires forall ep :: ep in Targets(replicas, master) ==> ep.name in creds
      modifies this
      ensures oldPwd == "" && newPwd == "" ==> results == [] && creds == old(creds)
      ensures oldPwd != "" || newPwd != "" ==>
        && creds == Roll(old(creds), Elements(EndpointNames(Targets(replicas, master))), oldPwd, newPwd, env)
        && results == Results(old(creds), replicas, ReplicaLeg, oldPwd, newPwd, env) +
                      (if Dialable(master) then Results(old(creds), [master], MasterLeg, oldPwd, newPwd, env) else [])
    {
      if oldPwd == "" && newPwd == "" {
        return [];
      }
      results := [];
      assert forall i :: 0 <= i < |replicas| ==> replicas[i] in Targets(replicas, master);
      if Dialable(master) {
        assert Targets(replicas, master) == replicas + [master];
        assert EndpointNames(Targets(replicas, master)) == EndpointNames(replicas) + [master.name];
        DistinctAppend(EndpointNames(replicas), master.name);
      } else {
        assert Targets(replicas, master) == replicas;
      }
      results := RotateMany(replicas, ReplicaLeg, oldPwd, newPwd, env);
      if Dialable(master) {
        assert master in Targets(replicas, master);
        var t := RotateOneWithRetry(creds[master.name], oldPwd, newPwd, env(master.name));
        creds := creds[master.name := t.creds];
        results := results + [PodResult(master, MasterLeg, t.verdict)];
      }
    }

    /** A rotation and its classification, in terms of pod names. */
    method RotateAndClassify(replicas: seq<Endpoint>, master: Endpoint, oldPwd: string, newPwd: string,
                             env: string -> Schedule)
      returns (failed: seq<PodResult>, succeeded: seq<PodResult>)
      requires oldPwd != "" && newPwd != ""
      requires Distinct(EndpointNames(Targets(replicas, master)))
      requires forall ep :: ep in Targets(replicas, master) ==> Dialable(ep) && ep.name in creds
      modifies this
      ensures var names := Elements(EndpointNames(Targets(replicas, master)));
              && creds == Roll(old(creds), names, oldPwd, newPwd, env)
              && Elements(ResultNames(succeeded)) == Ended(old(creds), names, oldPwd, newPwd, env, true)
              && |succeeded| == |Ended(old(creds), names, oldPwd, newPwd, env, true)|
              && |failed| == |Ended(old(creds), names, oldPwd, newPwd, env, false)|
      ensures Distinct(ResultNames(succeeded)) && Revertible(succeeded)
    {
      var results := RotateAuth(replicas, master, oldPwd, newPwd, env);
      ghost var eps := Targets(replicas, master);
      assert Reports(results, eps, old(creds), oldPwd, newPwd, env) by {
        assert forall i :: 0 <= i < |eps| ==> eps[i] in eps;
      }
      SelectedNames(results, eps, old(creds), oldPwd, newPwd, env, true);
      SelectedNames(results, eps, old(creds), oldPwd, newPwd, env, false);
      OneMaster(results, replicas, master);
      failed, succeeded := Classify(results);
    }

    /** Put the updated pods back. */
    method Revert(succeeded: seq<PodResult>, oldPwd: string, newPwd: string, rev: string -> Schedule)
      returns (revertFailed: seq<PodResult>)
      requires oldPwd != "" && newPwd != "" && Revertible(succeeded) && Distinct(ResultNames(succeeded))
      requires Elements(ResultNames(succeeded)) <= creds.Keys
      modifies this
      ensures creds == Roll(old(creds), Elements(ResultNames(succeeded)), newPwd, oldPwd, rev)
      ensures |revertFailed| == |Ended(old(creds), Elements(ResultNames(succeeded)), newPwd, oldPwd, rev, false)|
    {
      var revertReplicas, revertMaster := SplitRevert(succeeded);
      RevertNames(revertReplicas, revertMaster, succeeded);
      var failed, _ := RotateAndClassify(revertReplicas, revertMaster, newPwd, oldPwd, rev);
      return failed;
    }

    /** Rotate everything; if any pod failed, put the updated ones back. */
    method RotateOrRevert(replicas: seq<Endpoint>, master: Endpoint, oldPwd: string, newPwd: string,
                          rot: string -> Schedule, rev: string -> Schedule)
      returns (o: Outcome)
      requires oldPwd != "" && newPwd != ""
      requires Distinct(EndpointNames(Targets(replicas, master)))
      requires forall ep :: ep in Targets(replicas, master) ==> Dialable(ep) && ep.name in creds
      modifies this
      ensures var d := Drive(old(creds), Elements(EndpointNames(Targets(replicas, master))), oldPwd, newPwd, rot, rev);
              o == d.Outcome() && creds == d.After()
    {
      ghost var d := Drive(creds, Elements(EndpointNames(Targets(replicas, master))), oldPwd, newPwd, rot, rev);
      NamesKnown(Targets(replicas, master), creds);
      var failed, succeeded := RotateAndClassify(replicas, master, oldPwd, newPwd, rot);
      Judged(d, |failed|);
      if |failed| == 0 {
        return Succeeded(|succeeded|);
      }
      var revertFailed := Revert(succeeded, oldPwd, newPwd, rev);
      if |revertFailed| == 0 {
        return Failed(|succeeded|);
      }
      return Partial(|revertFailed|, |succeeded| - |revertFailed|);
    }
  }

  function Select(rs: seq<PodResult>, counted: bool): seq<PodResult> {
    if rs == [] then []
    else
      var kept, last := Select(rs[..|rs|-1], counted), rs[|rs|-1];
      if Counts(last.verdict) == counted then kept + [last] else kept
  }

  method Classify(results: seq<PodResult>) returns (failed: seq<PodResult>, succeeded: seq<PodResult>)
    ensures failed == Select(results, false) && succeeded == Select(results, true)
  {
    failed, succeeded := [], [];
    for i := 0 to |results|
      invariant failed == Select(results[..i], false) && succeeded == Select(results[..i], true)
    {
      assert results[..i+1][..i] == results[..i];
      if !Counts(results[i].verdict) {
        failed := failed + [results[i]];
      } else {
        succeeded := succeeded + [results[i]];
      }
    }
    assert results[..|results|] == results;
  }

  /** Classification keeps exactly the matching results. */
  lemma {:induction false} SelectMembers(rs: seq<PodResult>, counted: bool, r: PodResult)
    ensures r in Select(rs, counted) <==> r in rs && Counts(r.verdict) == counted
  {
    if rs != [] {
      SelectMembers(rs[..|rs|-1], counted, r);
      assert rs == rs[..|rs|-1] + [rs[|rs|-1]];
    }
  }

  lemma {:induction false} SelectMasters(rs: seq<PodResult>, counted: bool)
    ensures Masters(Select(rs, counted)) <= Masters(rs)
  {
    if rs != [] {
      var kept := Select(rs[..|rs|-1], counted);
      SelectMasters(rs[..|rs|-1], counted);
      assert (kept + [rs[|rs|-1]])[..|kept|] == kept;
    }
  }

  lemma SelectedName(rs: seq<PodResult>, counted: bool, n: string)
    requires n in ResultNames(Select(rs, counted))
    ensures n in ResultNames(rs)
  {
    var kept := Select(rs, counted);
    var i :| 0 <= i < |kept| && kept[i].endpoint.name == n;
    SelectMembers(rs, counted, kept[i]);
    var j :| 0 <= j < |rs| && rs[j] == kept[i];
    assert ResultNames(rs)[j] == n;
  }

  lemma {:induction false} SelectDistinct(rs: seq<PodResult>, counted: bool)
    requires Distinct(ResultNames(rs))
    ensures Distinct(ResultNames(Select(rs, counted)))
  {
    if rs != [] {
      var front, last := rs[..|rs|-1], rs[|rs|-1].endpoint.name;
      var kept := Select(front, counted);
      assert ResultNames(rs) == ResultNames(front) + [last];
      DistinctAppend(ResultNames(front), last);
      SelectDistinct(front, counted);
      assert ResultNames(kept + [rs[|rs|-1]]) == ResultNames(kept) + [last];
      DistinctAppend(ResultNames(kept), last);
      if last in ResultNames(kept) {
        SelectedName(front, counted, last);
      }
    }
  }

  // ----- one drive

  /** The results are those of the endpoints, one each, in order. */
  ghost predicate Reports(rs: seq<PodResult>, eps: seq<Endpoint>, creds: map<string, Creds>,
                          oldPwd: string, newPwd: string, env: string -> Schedule) {
    && |rs| == |eps| && Distinct(EndpointNames(eps))
    && forall i :: 0 <= i < |eps| ==>
      && rs[i].endpoint == eps[i] && eps[i].name in creds
      && rs[i].verdict == Retry(creds[eps[i].name], oldPwd, newPwd, env(eps[i].name)).verdict
  }

  /** The named pods whose attempts end with the given classification. */
  function Ended(creds: map<string, Creds>, names: set<string>, oldPwd: string, newPwd: string,
                 env: string -> Schedule, counted: bool): set<string> {
    set n | n in names && n in creds && Counts(Retry(creds[n], oldPwd, newPwd, env(n)).verdict) == counted
  }

  lemma SelectedNames(rs: seq<PodResult>, eps: seq<Endpoint>, creds: map<string, Creds>,
                      oldPwd: string, newPwd: string, env: string -> Schedule, counted: bool)
    requires Reports(rs, eps, creds, oldPwd, newPwd, env)
    ensures var kept := Select(rs, counted);
            var names := Ended(creds, Elements(EndpointNames(eps)), oldPwd, newPwd, env, counted);
            Elements(ResultNames(kept)) == names && |kept| == |names| && Distinct(ResultNames(kept))
  {
    var kept := Select(rs, counted);
    var names := Ended(creds, Elements(EndpointNames(eps)), oldPwd, newPwd, env, counted);
    assert ResultNames(rs) == EndpointNames(eps);
    SelectDistinct(rs, counted);
    forall n
      ensures n in Elements(ResultNames(kept)) <==> n in names
    {
      if n in ResultNames(kept) {
        var i :| 0 <= i < |kept| && kept[i].endpoint.name == n;
        SelectMembers(rs, counted, kept[i]);
        var j :| 0 <= j < |rs| && rs[j] == kept[i];
        assert EndpointNames(eps)[j] == n;
      }
      if n in names {
        var j :| 0 <= j < |eps| && EndpointNames(eps)[j] == n;
        SelectMembers(rs, counted, rs[j]);
        var i :| 0 <= i < |kept| && kept[i] == rs[j];
        assert ResultNames(kept)[i] == n;
      }
    }
  }

  lemma {:induction false} ReplicasOnly(rs: seq<PodResult>)
    requires forall i :: 0 <= i < |rs| ==> rs[i].leg.ReplicaLeg?
    ensures Masters(rs) == 0
  {
    if rs != [] {
      ReplicasOnly(rs[..|rs|-1]);
    }
  }

  datatype Outcome = Succeeded(updated: nat) | Failed(back: nat) | Partial(stuck: nat, back: nat)

  /** One rotation over the named pods and, if some fail, the revert of the others. */
  datatype Drive = Drive(before: map<string, Creds>, names: set<string>, oldPwd: string, newPwd: string,
                         rot: string -> Schedule, rev: string -> Schedule) {
    predicate Valid() {
      names <= before.Keys && oldPwd != "" && newPwd != "" && oldPwd != newPwd
    }

    function Rotated(): map<string, Creds> {
      Roll(before, names, oldPwd, newPwd, rot)
    }

    /** Pods whose rotation counted. */
    function Updated(): set<string> {
      Ended(before, names, oldPwd, newPwd, rot, true)
    }

    /** Updated pods whose revert did not count. */
    function Stuck(): set<string> {
      Ended(Rotated(), Updated(), newPwd, oldPwd, rev, false)
    }

    function After(): map<string, Creds> {
      if Updated() == names then Rotated() else Roll(Rotated(), Updated(), newPwd, oldPwd, rev)
    }

    function Outcome(): Outcome {
      Report(names, Updated(), Stuck())
    }
  }

  /** The outcome and its audit counts. */
  function Report(names: set<string>, updated: set<string>, stuck: set<string>): Outcome {
    if updated == names then Succeeded(|names|)
    else if stuck == {} then Failed(|updated|)
    else Partial(|stuck|, |updated - stuck|)
  }

  lemma ReportCounts(names: set<string>, updated: set<string>, stuck: set<string>)
    requires stuck <= updated <= names
    ensures |stuck| <= |updated| && (|names - updated| == 0 <==> updated == names)
    ensures Report(names, updated, stuck) ==
            if |names - updated| == 0 then Succeeded(|updated|)
            else if |stuck| == 0 then Failed(|updated|) else Partial(|stuck|, |updated| - |stuck|)
  {
    Parts(names, updated, stuck);
  }

  /** The three counts decide the outcome. */
  lemma Judged(d: Drive, failed: nat)
    requires d.names <= d.before.Keys
    requires failed == |Ended(d.before, d.names, d.oldPwd, d.newPwd, d.rot, false)|
    ensures failed == 0 <==> d.Updated() == d.names
    ensures d.Updated() <= d.Rotated().Keys && |d.Stuck()| <= |d.Updated()|
    ensures failed == 0 ==> d.Outcome() == Succeeded(|d.Updated()|) && d.After() == d.Rotated()
    ensures failed > 0 ==> d.After() == Roll(d.Rotated(), d.Updated(), d.newPwd, d.oldPwd, d.rev)
    ensures failed > 0 ==>
              d.Outcome() ==
              if |d.Stuck()| == 0 then Failed(|d.Updated()|)
              else Partial(|d.Stuck()|, |d.Updated()| - |d.Stuck()|)
  {
    EveryPodEnds(d);
    ReportCounts(d.names, d.Updated(), d.Stuck());
  }

  lemma EveryPodEnds(d: Drive)
    requires d.names <= d.before.Keys
    ensures Ended(d.before, d.names, d.oldPwd, d.newPwd, d.rot, false) == d.names - d.Updated()
    ensures d.Stuck() <= d.Updated() <= d.names
  {
  }

  lemma Parts(names: set<string>, updated: set<string>, stuck: set<string>)
    requires stuck <= updated <= names
    ensures |names - updated| == 0 <==> updated == names
    ensures |updated - stuck| == |updated| - |stuck|
    ensures |names - stuck| == |updated - stuck| + |names - updated|
    ensures |stuck| == 0 <==> stuck == {}
  {
    assert |names - updated| == 0 ==> names - updated == {};
    assert updated == stuck + (updated - stuck);
    assert names - stuck == (updated - stuck) + (names - updated);
  }

  /** What is to be reverted has at most one master, and every endpoint can be dialled. */
  lemma OneMaster(results: seq<PodResult>, replicas: seq<Endpoint>, master: Endpoint)
    requires |results| == |Targets(replicas, master)|
    requires forall i :: 0 <= i < |results| ==>
               results[i].endpoint == Targets(replicas, master)[i] && Dialable(results[i].endpoint)
    requires forall i :: 0 <= i < |replicas| ==> results[i].leg.ReplicaLeg?
    ensures Revertible(Select(results, true))
  {
    ReplicasOnly(results[..|replicas|]);
    assert |replicas| == |results| ==> results[..|replicas|] == results;
    SelectMasters(results, true);
    SelectDialable(results, true);
  }

  lemma {:induction false} SelectDialable(rs: seq<PodResult>, counted: bool)
    requires forall i :: 0 <= i < |rs| ==> Dialable(rs[i].endpoint)
    ensures forall i :: 0 <= i < |Select(rs, counted)| ==> Dialable(Select(rs, counted)[i].endpoint)
  {
    if rs != [] {
      SelectDialable(rs[..|rs|-1], counted);
    }
  }

  lemma NamesKnown(eps: seq<Endpoint>, creds: map<string, Creds>)
    requires forall ep :: ep in eps ==> ep.name in creds
    ensures Elements(EndpointNames(eps)) <= creds.Keys
  {
    forall n | n in EndpointNames(eps)
      ensures n in creds
    {
      var i :| 0 <= i < |eps| && EndpointNames(eps)[i] == n;
      assert eps[i] in eps;
    }
  }

  lemma RevertNames(replicas: seq<Endpoint>, master: Endpoint, succeeded: seq<PodResult>)
    requires multiset(Targets(replicas, master)) == multiset(ResultEndpoints(succeeded))
    requires Distinct(ResultNames(succeeded))
    ensures Elements(EndpointNames(Targets(replicas, master))) == Elements(ResultNames(succeeded))
    ensures Distinct(EndpointNames(Targets(replicas, master)))
    ensures Revertible(succeeded) ==>
              forall ep :: ep in Targets(replicas, master) ==> Dialable(ep) && ep.name in ResultNames(succeeded)
  {
    var eps := Targets(replicas, master);
    NamesPermuted(eps, ResultEndpoints(succeeded));
    assert EndpointNames(ResultEndpoints(succeeded)) == ResultNames(succeeded);
    SameMembers(eps, ResultEndpoints(succeeded));
    forall ep | ep in eps && Revertible(succeeded)
      ensures Dialable(ep) && ep.name in ResultNames(succeeded)
    {
      assert ep in Elements(eps);
      var i :| 0 <= i < |eps| && eps[i] == ep;
      assert EndpointNames(eps)[i] in Elements(EndpointNames(eps));
    }
  }

  // ----- what the outcome says about the pods

  /** Each pod starts on the old password, or on the new one when an earlier drive's result was not recorded. */
  ghost predicate Starts(d: Drive) {
    d.Valid() && forall n :: n in d.names ==> d.before[n] == Both(d.oldPwd) || d.before[n] == Both(d.newPwd)
  }

  /** The first call left the pod on the old password. */
  predicate NeverLeft(d: Drive, n: string)
    requires n in d.before
  {
    d.before[n] == Both(d.oldPwd) && Untouched(d.rot(n).wires)
  }

  lemma RotateOf(d: Drive, n: string)
    requires d.Valid() && n in d.names
    ensures n in d.Updated() ==> d.Rotated()[n] == Both(d.newPwd)
    ensures Starts(d) ==> (d.Rotated()[n] == Both(d.oldPwd) <==> NeverLeft(d, n))
  {
    CountedIsSet(d.before[n], d.oldPwd, d.newPwd, d.rot(n).wires);
    LeftAlone(d.oldPwd, d.newPwd, d.rot(n).wires);
    AlreadyNew(d.oldPwd, d.newPwd, d.rot(n).wires);
  }

  lemma RevertOf(d: Drive, n: string)
    requires d.Valid() && n in d.Updated()
    ensures n !in d.Stuck() ==> Roll(d.Rotated(), d.Updated(), d.newPwd, d.oldPwd, d.rev)[n] == Both(d.oldPwd)
    ensures Roll(d.Rotated(), d.Updated(), d.newPwd, d.oldPwd, d.rev)[n] == Both(d.newPwd) <==>
              Untouched(d.rev(n).wires)
  {
    RotateOf(d, n);
    CountedIsSet(Both(d.newPwd), d.newPwd, d.oldPwd, d.rev(n).wires);
    LeftAlone(d.newPwd, d.oldPwd, d.rev(n).wires);
  }

  /**
   For every pattern of dial, link and server failures over the rotation and
   the revert. Succeeded: every pod is on the new password. Otherwise every
   updated pod whose revert counted is back on the old one. Failed leaves the
   whole plane on the old password exactly when every pod reported failed
   started there and none of its attempts reached a CONFIG SET.
   A pod stuck by a failed revert is on the new password exactly when no revert
   attempt reached a CONFIG SET. Other pods are not touched.
   */
  lemma OutcomeSound(d: Drive)
    requires d.Valid()
    ensures d.Outcome().Succeeded? ==>
              d.Outcome().updated == |d.names| && forall n :: n in d.names ==> d.After()[n] == Both(d.newPwd)
    ensures !d.Outcome().Succeeded? ==> forall n :: n in d.Updated() - d.Stuck() ==> d.After()[n] == Both(d.oldPwd)
    ensures !d.Outcome().Succeeded? ==>
              forall n :: n in d.Stuck() ==> (d.After()[n] == Both(d.newPwd) <==> Untouched(d.rev(n).wires))
    ensures Starts(d) && d.Outcome().Failed? ==>
              ((forall n :: n in d.names ==> d.After()[n] == Both(d.oldPwd)) <==>
               (forall n :: n in d.names - d.Updated() ==> NeverLeft(d, n)))
    ensures forall n :: n in d.before && n !in d.names ==> d.After()[n] == d.before[n]
  {
    forall n | n in d.names
      ensures n in d.Updated() ==> d.Rotated()[n] == Both(d.newPwd)
      ensures Starts(d) ==> (d.Rotated()[n] == Both(d.oldPwd) <==> NeverLeft(d, n))
    {
      RotateOf(d, n);
    }
    forall n | n in d.Updated()
      ensures n !in d.Stuck() ==> Roll(d.Rotated(), d.Updated(), d.newPwd, d.oldPwd, d.rev)[n] == Both(d.oldPwd)
      ensures Roll(d.Rotated(), d.Updated(), d.newPwd, d.oldPwd, d.rev)[n] == Both(d.newPwd) <==>
                Untouched(d.rev(n).wires)
    {
      RevertOf(d, n);
    }
  }

  /** A call that does not count leaves its pod as it was. */
  ghost predicate FailuresHarmless(d: Drive)
    requires d.Valid()
  {
    && (forall n :: n in d.names - d.Updated() ==> NeverLeft(d, n))
    && (forall n :: n in d.Stuck() ==> Untouched(d.rev(n).wires))
  }

  /**
   When failing calls change nothing, the reported numbers are exact: the pods
   on the new password are the stuck ones, and those on the old one are the
   reverted ones together with the ones whose rotation failed, which the
   report does not count.
   */
  lemma CountsExact(d: Drive)
    requires Starts(d) && FailuresHarmless(d) && !d.Outcome().Succeeded?
    ensures OnPassword(d.names, d.After(), d.newPwd) == d.Stuck()
    ensures OnPassword(d.names, d.After(), d.oldPwd) == d.names - d.Stuck()
    ensures |d.Stuck()| == (if d.Outcome().Failed? then 0 else d.Outcome().stuck)
    ensures |d.names - d.Stuck()| == d.Outcome().back + |d.names - d.Updated()|
  {
    EveryPodEnds(d);
    Judged(d, |Ended(d.before, d.names, d.oldPwd, d.newPwd, d.rot, false)|);
    Parts(d.names, d.Updated(), d.Stuck());
    forall n | n in d.names
      ensures d.After()[n] == Both(if n in d.Stuck() then d.newPwd else d.oldPwd)
    {
      EndsOn(d, n);
    }
    Separated(d.names, d.Stuck(), d.After(), d.oldPwd, d.newPwd);
  }

  /** The named pods carrying the password in both fields. */
  function OnPassword(names: set<string>, creds: map<string, Creds>, password: string): set<string> {
    set n | n in names && n in creds && creds[n] == Both(password)
  }

  lemma Separated(names: set<string>, stuck: set<string>, creds: map<string, Creds>, oldPwd: string, newPwd: string)
    requires stuck <= names <= creds.Keys && oldPwd != newPwd
    requires forall n :: n in names ==> creds[n] == Both(if n in stuck then newPwd else oldPwd)
    ensures OnPassword(names, creds, newPwd) == stuck
    ensures OnPassword(names, creds, oldPwd) == names - stuck
  {
  }

  lemma EndsOn(d: Drive, n: string)
    requires Starts(d) && FailuresHarmless(d) && !d.Outcome().Succeeded? && n in d.names
    ensures d.After()[n] == Both(if n in d.Stuck() then d.newPwd else d.oldPwd)
  {
    RotateOf(d, n);
    if n in d.Updated() {
      RevertOf(d, n);
    }
  }

  /** A set with a failed rewrite, then two dials that fail: reported as a failure, on the new password. */
  lemma RewriteThenNoDial(oldPwd: string, newPwd: string, first: Wire, rest: Wire)
    requires oldPwd != "" && first == Wire(true, 9, false, false, false, true) && !rest.dials
    ensures Retry(Both(oldPwd), oldPwd, newPwd, Script([first, rest, rest])) == Tried(Both(newPwd), Error)
  {
    var ws := [first, rest, rest];
    assert ws[1..] == [rest, rest] && ws[1..][1..] == [rest];
    assert RotateOne(Both(oldPwd), oldPwd, newPwd, first) == Tried(Both(newPwd), RewriteFailed);
    assert Attempts(Both(newPwd), oldPwd, newPwd, ws[1..]) == Tried(Both(newPwd), Error);
  }

  /** Every attempt goes through but for the rewrite, as on a read-only configuration volume. */
  ghost predicate ReadOnly(s: Schedule) {
    |s.wires| == 3 && forall i :: 0 <= i < 3 ==> s.wires[i].refuseRewrite && Clean(s.wires[i].(refuseRewrite := false))
  }

  lemma ReadOnlyCounts(c: Creds, oldPwd: string, newPwd: string, s: Schedule)
    requires ReadOnly(s) && oldPwd != "" && newPwd != "" && oldPwd != newPwd && c.requirepass in {oldPwd, newPwd}
    ensures Retry(c, oldPwd, newPwd, s).verdict == RewriteFailed
  {
    var i := VerdictExactly(c, oldPwd, newPwd, s);
    var ws := s.wires;
    forall k | 0 <= k < 3
      ensures CredsAfter(c, oldPwd, newPwd, ws, k).requirepass in {oldPwd, newPwd}
      ensures RotateOne(CredsAfter(c, oldPwd, newPwd, ws, k), oldPwd, newPwd, ws[k]).verdict == RewriteFailed
    {
      ReadOnlyAttempt(c, oldPwd, newPwd, ws[0]);
      ReadOnlyAttempt(CredsAfter(c, oldPwd, newPwd, ws, 1), oldPwd, newPwd, ws[1]);
      ReadOnlyAttempt(CredsAfter(c, oldPwd, newPwd, ws, 2), oldPwd, newPwd, ws[2]);
    }
  }

  lemma ReadOnlyAttempt(c: Creds, oldPwd: string, newPwd: string, w: Wire)
    requires w.refuseRewrite && Clean(w.(refuseRewrite := false))
    requires oldPwd != "" && newPwd != "" && oldPwd != newPwd && c.requirepass in {oldPwd, newPwd}
    ensures RotateOne(c, oldPwd, newPwd, w) == Tried(Both(newPwd), RewriteFailed)
  {
  }

  /** A plane on which no rewrite ever works still rotates: the drive succeeds, from any mix of the two passwords. */
  lemma ReadOnlyPlaneSucceeds(d: Drive)
    requires Starts(d) && forall n :: n in d.names ==> ReadOnly(d.rot(n))
    ensures d.Outcome().Succeeded?
  {
    forall n | n in d.names
      ensures n in d.Updated()
    {
      ReadOnlyCounts(d.before[n], d.oldPwd, d.newPwd, d.rot(n));
    }
    assert d.Updated() == d.names;
  }

  lemma FailedWithOneOnNew(d: Drive, a: string, b: string)
    requires d.Valid() && a != b && d.names == {a, b} && d.Updated() == {b} && d.Stuck() == {} &&
             d.Rotated()[a] == Both(d.newPwd)
    ensures d.Outcome() == Failed(1) && d.After()[a] == Both(d.newPwd)
  {
    assert a in d.names && a !in d.Updated();
  }

  /**
   A drive can end Failed, reported as fully reverted, with a pod left on the
   new password: the first attempt sets it and only the rewrite fails, the
   other two cannot dial, and the last error is the one that is classified.
   */
  lemma FailedCanLeaveNew(creds: map<string, Creds>, a: string, b: string, oldPwd: string, newPwd: string)
    returns (d: Drive)
    requires a != b && a in creds && b in creds && creds[a] == creds[b] == Both(oldPwd)
    requires oldPwd != "" && newPwd != "" && oldPwd != newPwd
    ensures d.before == creds && d.names == {a, b} && Starts(d)
    ensures d.Outcome() == Failed(1) && d.After()[a] == Both(newPwd)
  {
    var clean := Wire(true, 9, false, false, false, false);
    var noRewrite, noDial := clean.(refuseRewrite := true), clean.(dials := false);
    var good, bad := Script([clean]), Script([noRewrite, noDial, noDial]);
    d := Drive(creds, {a, b}, oldPwd, newPwd, n => if n == a then bad else good, _ => good);
    RewriteThenNoDial(oldPwd, newPwd, noRewrite, noDial);
    assert d.rot(a) == bad && d.rot(b) == good;
    CleanAttempt(Both(oldPwd), oldPwd, newPwd, good);
    CleanAttempt(Both(newPwd), newPwd, oldPwd, good);
    CountedIsSet(Both(oldPwd), oldPwd, newPwd, good.wires);
    EveryPodEnds(d);
    assert b in d.Updated() && a !in d.Updated();
    assert d.Rotated()[b] == Both(newPwd);
    FailedWithOneOnNew(d, a, b);
  }
}
