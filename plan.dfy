/** The run as one flat list of guarded steps, each working on a single file,
    and the idempotence of a whole run: the eighteen steps of the four
    searches touch eighteen different paths, no step reads a file another
    step writes, and so a second run over the files the first left reports
    nothing, writes nothing, and fails exactly when the first did. */
module Plan {
  import opened Json
  import opened Layout
  import ServiceDefinition
  import Manifest
  import opened Reconciler

  /** One step of the run, by the file it works on. */
  datatype Step =
    | ServiceAt(path: string)
    | CreateAt(path: string, doc: Value)
    | RolesAt(path: string)
    | ManifestAt(l: Modern)

  /** A step that is done only when its guard file, if it has one, exists. */
  datatype Guarded = Guarded(guard: Option<string>, step: Step)

  /** The one file a step reads and writes. */
  function Target(s: Step): string
  {
    match s
    case ServiceAt(p) => p
    case CreateAt(p, _) => p
    case RolesAt(p) => p
    case ManifestAt(l) => l.manifestFile
  }

  /** A step on the current state: only its target may change, only a create
      adds a file, and a failure changes nothing but the failure flag. */
  function Apply(env: Env, st: State, s: Step): (r: State)
    ensures Follows(st, r) && Reported(st, r)
    ensures r.files == st.files ||
            (Target(s) in r.files && r.files == st.files[Target(s) := r.files[Target(s)]])
    ensures !s.CreateAt? ==> r.files.Keys == st.files.Keys
    ensures !st.failed && r.failed ==> r == st.(failed := true)
  {
    match s
    case ServiceAt(p) => if p in st.files then ServiceStep(env, st, p) else st
    case CreateAt(p, doc) => CreateStep(env, st, p, doc)
    case RolesAt(p) => RolesIfPresent(env, st, p)
    case ManifestAt(l) => ManifestIfPresent(env, st, l)
  }

  predicate Enabled(st: State, g: Guarded)
  {
    g.guard.None? || g.guard.value in st.files
  }

  function Act(env: Env, st: State, g: Guarded): (r: State)
    ensures Follows(st, r) && Reported(st, r)
  {
    if Enabled(st, g) then Apply(env, st, g.step) else st
  }

  /** The steps of a plan, in order. */
  function Run(env: Env, plan: seq<Guarded>, st: State): (r: State)
    ensures Follows(st, r) && Reported(st, r)
    decreases |plan|
  {
    if plan == [] then st
    else
      var s1 := Act(env, st, plan[0]);
      var r := Run(env, plan[1..], s1);
      FollowsTrans(st, s1, r);
      r
  }

  function Targets(plan: seq<Guarded>): set<string>
    decreases |plan|
  {
    if plan == [] then {} else {Target(plan[0].step)} + Targets(plan[1..])
  }

  /** The files a plan may create. */
  function Creates(plan: seq<Guarded>): set<string>
    decreases |plan|
  {
    if plan == [] then {}
    else (if plan[0].step.CreateAt? then {plan[0].step.path} else {}) + Creates(plan[1..])
  }

  function Guards(plan: seq<Guarded>): set<string>
    decreases |plan|
  {
    if plan == [] then {}
    else (if plan[0].guard.Some? then {plan[0].guard.value} else {}) + Guards(plan[1..])
  }

  /** No two steps share a target. */
  predicate Distinct(plan: seq<Guarded>)
    decreases |plan|
  {
    plan == [] || (Target(plan[0].step) !in Targets(plan[1..]) && Distinct(plan[1..]))
  }

  /** The plans the idempotence proof covers: distinct targets, and every
      guard is the target of a step that never creates it. */
  predicate WellFormed(plan: seq<Guarded>)
  {
    Distinct(plan) && Guards(plan) !! Creates(plan) && Guards(plan) <= Targets(plan)
  }

  lemma {:induction false} CreatesTargets(plan: seq<Guarded>)
    ensures Creates(plan) <= Targets(plan)
    decreases |plan|
  {
    if plan != [] {
      CreatesTargets(plan[1..]);
    }
  }

  // ---------------------------------------------------------------------------
  // Plans put together
  // ---------------------------------------------------------------------------

  /** Running two plans one after the other is running the joined plan. */
  lemma {:induction false} RunAppend(env: Env, p: seq<Guarded>, q: seq<Guarded>, st: State)
    ensures Run(env, p + q, st) == Run(env, q, Run(env, p, st))
    decreases |p|
  {
    if p != [] {
      assert (p + q)[0] == p[0];
      assert (p + q)[1..] == p[1..] + q;
      RunAppend(env, p[1..], q, Act(env, st, p[0]));
    } else {
      assert p + q == q;
    }
  }

  lemma {:induction false} SetsAppend(p: seq<Guarded>, q: seq<Guarded>)
    ensures Targets(p + q) == Targets(p) + Targets(q)
    ensures Creates(p + q) == Creates(p) + Creates(q)
    ensures Guards(p + q) == Guards(p) + Guards(q)
    decreases |p|
  {
    if p == [] {
      assert p + q == q;
    } else {
      assert (p + q)[0] == p[0];
      assert (p + q)[1..] == p[1..] + q;
      SetsAppend(p[1..], q);
    }
  }

  lemma {:induction false} DistinctAppend(p: seq<Guarded>, q: seq<Guarded>)
    requires Distinct(p) && Distinct(q) && Targets(p) !! Targets(q)
    ensures Distinct(p + q)
    decreases |p|
  {
    if p == [] {
      assert p + q == q;
    } else {
      assert (p + q)[0] == p[0];
      assert (p + q)[1..] == p[1..] + q;
      DistinctAppend(p[1..], q);
      SetsAppend(p[1..], q);
    }
  }

  /** Two well-formed plans on disjoint files join into a well-formed plan. */
  lemma WellFormedAppend(p: seq<Guarded>, q: seq<Guarded>)
    requires WellFormed(p) && WellFormed(q) && Targets(p) !! Targets(q)
    ensures WellFormed(p + q) && Targets(p + q) == Targets(p) + Targets(q)
  {
    DistinctAppend(p, q);
    SetsAppend(p, q);
    CreatesTargets(p);
    CreatesTargets(q);
  }

  // ---------------------------------------------------------------------------
  // What a run leaves alone
  // ---------------------------------------------------------------------------

  /** A file no step of the plan targets is neither written nor created. */
  lemma {:induction false} RunFrame(env: Env, plan: seq<Guarded>, st: State, k: string)
    requires k !in Targets(plan)
    ensures var r := Run(env, plan, st);
            (k in r.files <==> k in st.files) && (k in st.files ==> r.files[k] == st.files[k])
    decreases |plan|
  {
    if plan != [] {
      var s1 := Act(env, st, plan[0]);
      assert k != Target(plan[0].step);
      RunFrame(env, plan[1..], s1, k);
    }
  }

  /** A file no step of the plan creates exists afterwards exactly when it
      existed before. */
  lemma {:induction false} RunKeys(env: Env, plan: seq<Guarded>, st: State, k: string)
    requires k !in Creates(plan)
    ensures k in Run(env, plan, st).files <==> k in st.files
    decreases |plan|
  {
    if plan != [] {
      var s1 := Act(env, st, plan[0]);
      assert plan[0].step.CreateAt? ==> k != Target(plan[0].step);
      RunKeys(env, plan[1..], s1, k);
    }
  }

  // ---------------------------------------------------------------------------
  // One step, run again
  // ---------------------------------------------------------------------------

  /** A step run again on a state holding what it wrote (or left) in its
      target does nothing, whatever the other files hold. */
  lemma ApplySettled(env: Env, st: State, s: Step, u: State)
    requires Lawful(env.codec) && ServiceDefinition.SafeHelper(env.helper)
    requires !st.failed && !u.failed && !u.changed
    requires var r := Apply(env, st, s);
             && !r.failed
             && (Target(s) in u.files <==> Target(s) in r.files)
             && (Target(s) in u.files ==> u.files[Target(s)] == r.files[Target(s)])
    ensures Apply(env, u, s) == u
  {
    match s
    case ServiceAt(p) =>
      if p in st.files {
        ServiceDefinition.PatchIdempotent(st.files[p], env.helper, env.helperExists);
      }
    case CreateAt(p, doc) =>
    case RolesAt(p) =>
      if p in st.files {
        var r := RolesStep(env, st, p);
        RolesSecondPass(env, st, p);
        assert RolesStep(env, r.(changed := false), p) == r.(changed := false);
      }
    case ManifestAt(l) =>
      if l.manifestFile in st.files {
        var r := ManifestStep(env, st, l);
        ManifestSecondPass(env, st, l);
        assert ManifestStep(env, r.(changed := false), l) == r.(changed := false);
      }
  }

  /** A step that failed on some contents fails again on the same contents. */
  lemma ApplyFailsAgain(env: Env, st: State, s: Step, u: State)
    requires !st.failed && !u.failed
    requires Apply(env, st, s).failed
    requires Target(s) in u.files <==> Target(s) in st.files
    requires Target(s) in u.files ==> u.files[Target(s)] == st.files[Target(s)]
    ensures Apply(env, u, s) == u.(failed := true)
  {
  }

  // ---------------------------------------------------------------------------
  // A whole plan, run again
  // ---------------------------------------------------------------------------

  /** A second run of a well-formed plan, on files that hold in every target
      what the first run left there and have the guard files the first run
      started with, changes nothing and fails exactly when the first did. */
  lemma {:induction false} SecondRun(env: Env, plan: seq<Guarded>, st: State, files: map<string, string>)
    requires Lawful(env.codec) && ServiceDefinition.SafeHelper(env.helper)
    requires !st.failed && Distinct(plan) && Guards(plan) !! Creates(plan)
    requires var r := Run(env, plan, st);
             forall t :: t in Targets(plan) ==>
               (t in files <==> t in r.files) && (t in files ==> files[t] == r.files[t])
    requires forall g :: g in Guards(plan) ==> (g in files <==> g in st.files)
    ensures Run(env, plan, State(files, false, false)) == State(files, false, Run(env, plan, st).failed)
    decreases |plan|
  {
    if plan != [] {
      var a, rest := plan[0], plan[1..];
      var t := Target(a.step);
      var u := State(files, false, false);
      var s1 := Act(env, st, a);
      var r := Run(env, rest, s1);
      assert Run(env, plan, st) == r;
      assert t in Targets(plan);
      assert a.guard.Some? ==> a.guard.value in Guards(plan);
      assert Enabled(u, a) <==> Enabled(st, a);
      RunFrame(env, rest, s1, t);
      if s1.failed {
        assert r == s1;
        ApplyFailsAgain(env, st, a.step, u);
        assert Act(env, u, a) == State(files, false, true);
      } else {
        if Enabled(st, a) {
          ApplySettled(env, st, a.step, u);
        }
        assert Act(env, u, a) == u;
        CreatesTargets(plan);
        forall g | g in Guards(rest)
          ensures g in files <==> g in s1.files
        {
          assert g in Guards(plan);
          assert a.step.CreateAt? ==> t in Creates(plan);
        }
        SecondRun(env, rest, s1, files);
      }
    }
  }

  // ---------------------------------------------------------------------------
  // The plan of `main`
  // ---------------------------------------------------------------------------

  /** `searchDir` as a plan: every step waits for the layout's service file. */
  function ModernPlan(l: Modern, service: string): seq<Guarded>
  {
    var g := Some(l.serviceFile);
    [Guarded(g, ServiceAt(l.serviceFile)),
     Guarded(g, CreateAt(l.clientPermFile, Manifest.ClientPermDoc(service))),
     Guarded(g, CreateAt(l.apiPermFile, Manifest.ApiPermDoc(service))),
     Guarded(g, RolesAt(l.roleFile)),
     Guarded(g, ManifestAt(l))]
  }

  /** `searchLegacyDir` as a plan: the service files wait for the public one,
      the roles files for nobody. */
  function LegacyPlan(l: Legacy): seq<Guarded>
  {
    [Guarded(Some(l.pubServiceFile), ServiceAt(l.pubServiceFile)),
     Guarded(Some(l.pubServiceFile), ServiceAt(l.prvServiceFile)),
     Guarded(None, RolesAt(l.pubRolesFile)),
     Guarded(None, RolesAt(l.prvRolesFile))]
  }

  /** The four searches of `main`, in their order. */
  function MainPlan(names: Names): seq<Guarded>
  {
    ModernPlan(ModernLayout(ModernRoots[0], names), names.service) +
    ModernPlan(ModernLayout(ModernRoots[1], names), names.service) +
    LegacyPlan(LegacyLayout(LegacyRoots[0], names.service)) +
    LegacyPlan(LegacyLayout(LegacyRoots[1], names.service))
  }

  /** A plan whose guards are all missing does nothing. */
  lemma {:induction false} RunDisabled(env: Env, plan: seq<Guarded>, st: State)
    requires forall i :: 0 <= i < |plan| ==> !Enabled(st, plan[i])
    ensures Run(env, plan, st) == st
    decreases |plan|
  {
    if plan != [] {
      assert !Enabled(st, plan[0]);
      RunDisabled(env, plan[1..], st);
    }
  }

  /** The plan of one modern root does what `searchDir` does. */
  lemma ModernPlanRuns(env: Env, names: Names, root: string, st: State)
    ensures SearchDirSpec(env, names, root, st) ==
            Run(env, ModernPlan(ModernLayout(root, names), names.service), st)
  {
    var l := ModernLayout(root, names);
    var plan := ModernPlan(l, names.service);
    if st.failed {
    } else if l.serviceFile !in st.files {
      RunDisabled(env, plan, st);
    } else {
      var s1 := Act(env, st, plan[0]);
      var s2 := Act(env, s1, plan[1]);
      var s3 := Act(env, s2, plan[2]);
      var s4 := Act(env, s3, plan[3]);
      var s5 := Act(env, s4, plan[4]);
      assert Run(env, plan[4..], s4) == s5;
      assert Run(env, plan[3..], s3) == s5 by { assert plan[3..][1..] == plan[4..]; }
      assert Run(env, plan[2..], s2) == s5 by { assert plan[2..][1..] == plan[3..]; }
      assert Run(env, plan[1..], s1) == s5 by { assert plan[1..][1..] == plan[2..]; }
    }
  }

  /** The plan of one legacy root does what `searchLegacyDir` does. */
  lemma LegacyPlanRuns(env: Env, service: string, root: string, st: State)
    ensures SearchLegacySpec(env, service, root, st) == Run(env, LegacyPlan(LegacyLayout(root, service)), st)
  {
    var plan := LegacyPlan(LegacyLayout(root, service));
    var s1 := Act(env, st, plan[0]);
    var s2 := Act(env, s1, plan[1]);
    var s3 := Act(env, s2, plan[2]);
    var s4 := Act(env, s3, plan[3]);
    assert Run(env, plan[3..], s3) == s4;
    assert Run(env, plan[2..], s2) == s4 by { assert plan[2..][1..] == plan[3..]; }
    assert Run(env, plan[1..], s1) == s4 by { assert plan[1..][1..] == plan[2..]; }
  }

  /** The four searches are the steps of `MainPlan` run in order. */
  lemma MainPlanRuns(env: Env, names: Names, st: State)
    ensures RunSpec(env, names, st) == Run(env, MainPlan(names), st)
  {
    var m0 := ModernPlan(ModernLayout(ModernRoots[0], names), names.service);
    var m1 := ModernPlan(ModernLayout(ModernRoots[1], names), names.service);
    var g0 := LegacyPlan(LegacyLayout(LegacyRoots[0], names.service));
    var g1 := LegacyPlan(LegacyLayout(LegacyRoots[1], names.service));
    var s1 := SearchDirSpec(env, names, ModernRoots[0], st);
    var s2 := SearchDirSpec(env, names, ModernRoots[1], s1);
    var s3 := SearchLegacySpec(env, names.service, LegacyRoots[0], s2);
    ModernPlanRuns(env, names, ModernRoots[0], st);
    ModernPlanRuns(env, names, ModernRoots[1], s1);
    LegacyPlanRuns(env, names.service, LegacyRoots[0], s2);
    LegacyPlanRuns(env, names.service, LegacyRoots[1], s3);
    RunAppend(env, m0, m1, st);
    RunAppend(env, m0 + m1, g0, st);
    RunAppend(env, m0 + m1 + g0, g1, st);
  }

  // ---------------------------------------------------------------------------
  // The plan of `main` touches eighteen different files
  // ---------------------------------------------------------------------------

  /** `path` lies under `root`. */
  predicate Under(root: string, path: string)
  {
    |path| > |root| && path[..|root| + 1] == root + "/"
  }

  /** Paths under two roots that part ways before either ends are different. */
  lemma Apart(a: string, b: string, i: nat)
    requires i <= |a| && i <= |b| && (a + "/")[i] != (b + "/")[i]
    ensures forall p, q :: Under(a, p) && Under(b, q) ==> p != q
  {
    forall p, q | Under(a, p) && Under(b, q)
      ensures p != q
    {
      assert p[i] == p[..|a| + 1][i];
      assert q[i] == q[..|b| + 1][i];
    }
  }

  /** A layout path, the root followed by a `/`-led directory and a name in
      two parts, lies under the root. */
  lemma UnderPath(root: string, dir: string, a: string, b: string)
    requires dir != [] && dir[0] == '/'
    ensures Under(root, root + dir + a + b)
  {
    var p := root + dir + a + b;
    assert p[..|root| + 1] == root + "/" by {
      forall j | 0 <= j < |root| + 1
        ensures p[j] == (root + "/")[j]
      {
        if j == |root| {
          assert p[j] == dir[0];
        }
      }
    }
  }

  /** Plans under two roots that part ways before either ends touch
      different files. */
  lemma Disjoint(p: seq<Guarded>, q: seq<Guarded>, a: string, b: string, i: nat)
    requires i <= |a| && i <= |b| && (a + "/")[i] != (b + "/")[i]
    requires forall t :: t in Targets(p) ==> Under(a, t)
    requires forall t :: t in Targets(q) ==> Under(b, t)
    ensures Targets(p) !! Targets(q)
  {
    Apart(a, b, i);
  }

  /** The files one modern root's plan works on, creates and waits for. */
  lemma ModernPlanSets(l: Modern, service: string)
    ensures var plan := ModernPlan(l, service);
            && Targets(plan) == {l.serviceFile, l.clientPermFile, l.apiPermFile, l.roleFile, l.manifestFile}
            && Creates(plan) == {l.clientPermFile, l.apiPermFile}
            && Guards(plan) == {l.serviceFile}
  {
    var plan := ModernPlan(l, service);
    assert plan[4..][1..] == [];
    assert plan[3..][1..] == plan[4..];
    assert plan[2..][1..] == plan[3..];
    assert plan[1..][1..] == plan[2..];
    assert Targets(plan[4..]) == {l.manifestFile} && Creates(plan[4..]) == {} && Guards(plan[4..]) == {l.serviceFile};
    assert Targets(plan[3..]) == {l.roleFile, l.manifestFile};
    assert Creates(plan[3..]) == {} && Guards(plan[3..]) == {l.serviceFile};
    assert Targets(plan[2..]) == {l.apiPermFile, l.roleFile, l.manifestFile};
    assert Creates(plan[2..]) == {l.apiPermFile} && Guards(plan[2..]) == {l.serviceFile};
    assert Targets(plan[1..]) == {l.clientPermFile, l.apiPermFile, l.roleFile, l.manifestFile};
    assert Creates(plan[1..]) == {l.clientPermFile, l.apiPermFile} && Guards(plan[1..]) == {l.serviceFile};
  }

  /** One modern root's plan lies under the root. */
  lemma ModernPlanUnder(root: string, names: Names)
    ensures forall t :: t in Targets(ModernPlan(ModernLayout(root, names), names.service)) ==> Under(root, t)
  {
    ModernPlanSets(ModernLayout(root, names), names.service);
    UnderPath(root, "/services.d/", names.service, ".service");
    UnderPath(root, "/client-permissions.d/", names.service, ".root.json");
    UnderPath(root, "/api-permissions.d/", names.service, ".api.public.json");
    UnderPath(root, "/manifests.d/", names.app, ".json");
    UnderPath(root, "/roles.d/", names.service, ".service.json");
  }

  /** One modern root's plan: well formed, and all of it under the root. */
  lemma ModernPlanWellFormed(root: string, names: Names)
    ensures var plan := ModernPlan(ModernLayout(root, names), names.service);
            WellFormed(plan) && forall t :: t in Targets(plan) ==> Under(root, t)
  {
    var l := ModernLayout(root, names);
    var plan := ModernPlan(l, names.service);
    ModernPlanSets(l, names.service);
    assert plan[4..][1..] == [];
    assert plan[3..][1..] == plan[4..];
    assert plan[2..][1..] == plan[3..];
    assert plan[1..][1..] == plan[2..];
    assert Targets(plan[4..]) == {l.manifestFile};
    assert Targets(plan[3..]) == {l.roleFile, l.manifestFile};
    assert Targets(plan[2..]) == {l.apiPermFile, l.roleFile, l.manifestFile};
    assert Targets(plan[1..]) == {l.clientPermFile, l.apiPermFile, l.roleFile, l.manifestFile};
    assert Distinct(plan[4..]);
    assert Distinct(plan[3..]);
    assert Distinct(plan[2..]);
    assert Distinct(plan[1..]);
    ModernPlanUnder(root, names);
  }

  /** The files one legacy root's plan works on, creates and waits for. */
  lemma LegacyPlanSets(l: Legacy)
    ensures var plan := LegacyPlan(l);
            && Targets(plan) == {l.pubServiceFile, l.prvServiceFile, l.pubRolesFile, l.prvRolesFile}
            && Creates(plan) == {}
            && Guards(plan) == {l.pubServiceFile}
  {
    var plan := LegacyPlan(l);
    assert plan[3..][1..] == [];
    assert plan[2..][1..] == plan[3..];
    assert plan[1..][1..] == plan[2..];
    assert Targets(plan[3..]) == {l.prvRolesFile} && Creates(plan[3..]) == {} && Guards(plan[3..]) == {} by {
      assert Creates(plan[3..][1..]) == {} && Guards(plan[3..][1..]) == {};
    }
    assert Targets(plan[2..]) == {l.pubRolesFile, l.prvRolesFile};
    assert Creates(plan[2..]) == {} && Guards(plan[2..]) == {};
    assert Targets(plan[1..]) == {l.prvServiceFile, l.pubRolesFile, l.prvRolesFile};
    assert Creates(plan[1..]) == {} && Guards(plan[1..]) == {l.pubServiceFile};
  }

  /** One legacy root's plan: well formed, and all of it under the root. */
  lemma LegacyPlanWellFormed(root: string, service: string)
    ensures var plan := LegacyPlan(LegacyLayout(root, service));
            WellFormed(plan) && forall t :: t in Targets(plan) ==> Under(root, t)
  {
    var l := LegacyLayout(root, service);
    var plan := LegacyPlan(l);
    LegacyPlanSets(l);
    assert plan[3..][1..] == [];
    assert plan[2..][1..] == plan[3..];
    assert plan[1..][1..] == plan[2..];
    assert Targets(plan[3..]) == {l.prvRolesFile};
    assert Targets(plan[2..]) == {l.pubRolesFile, l.prvRolesFile};
    assert Targets(plan[1..]) == {l.prvServiceFile, l.pubRolesFile, l.prvRolesFile};
    assert Distinct(plan[3..]);
    assert Distinct(plan[2..]);
    assert Distinct(plan[1..]);
    UnderPath(root, "/services/pub/", service, ".service");
    UnderPath(root, "/services/prv/", service, ".service");
    UnderPath(root, "/roles/pub/", service, ".json");
    UnderPath(root, "/roles/prv/", service, ".json");
  }

  /** The two modern roots' plans together. */
  lemma ModernPlansWellFormed(names: Names)
    ensures var m0 := ModernPlan(ModernLayout(ModernRoots[0], names), names.service);
            var m1 := ModernPlan(ModernLayout(ModernRoots[1], names), names.service);
            && WellFormed(m0 + m1)
            && forall t :: t in Targets(m0 + m1) ==> Under(ModernRoots[0], t) || Under(ModernRoots[1], t)
  {
    var m0 := ModernPlan(ModernLayout(ModernRoots[0], names), names.service);
    var m1 := ModernPlan(ModernLayout(ModernRoots[1], names), names.service);
    ModernPlanWellFormed(ModernRoots[0], names);
    ModernPlanWellFormed(ModernRoots[1], names);
    Disjoint(m0, m1, ModernRoots[0], ModernRoots[1], 18);
    WellFormedAppend(m0, m1);
  }

  /** The two legacy roots' plans together. */
  lemma LegacyPlansWellFormed(service: string)
    ensures var g0 := LegacyPlan(LegacyLayout(LegacyRoots[0], service));
            var g1 := LegacyPlan(LegacyLayout(LegacyRoots[1], service));
            && WellFormed(g0 + g1)
            && forall t :: t in Targets(g0 + g1) ==> Under(LegacyRoots[0], t) || Under(LegacyRoots[1], t)
  {
    var g0 := LegacyPlan(LegacyLayout(LegacyRoots[0], service));
    var g1 := LegacyPlan(LegacyLayout(LegacyRoots[1], service));
    LegacyPlanWellFormed(LegacyRoots[0], service);
    LegacyPlanWellFormed(LegacyRoots[1], service);
    Disjoint(g0, g1, LegacyRoots[0], LegacyRoots[1], 13);
    WellFormedAppend(g0, g1);
  }

  /** A modern and a legacy path are different: the roots part after `/var/`. */
  lemma ModernNotLegacy(p: string, q: string)
    requires Under(ModernRoots[0], p) || Under(ModernRoots[1], p)
    requires Under(LegacyRoots[0], q) || Under(LegacyRoots[1], q)
    ensures p != q
  {
    assert p[5] == 'l' by {
      if Under(ModernRoots[0], p) {
        assert p[5] == p[..|ModernRoots[0]| + 1][5];
      } else {
        assert p[5] == p[..|ModernRoots[1]| + 1][5];
      }
    }
    assert q[5] == 'p' by {
      if Under(LegacyRoots[0], q) {
        assert q[5] == q[..|LegacyRoots[0]| + 1][5];
      } else {
        assert q[5] == q[..|LegacyRoots[1]| + 1][5];
      }
    }
  }

  /** The modern roots' plans and the legacy roots' plans touch different files. */
  lemma ModernLegacyDisjoint(names: Names)
    ensures var m0 := ModernPlan(ModernLayout(ModernRoots[0], names), names.service);
            var m1 := ModernPlan(ModernLayout(ModernRoots[1], names), names.service);
            var g0 := LegacyPlan(LegacyLayout(LegacyRoots[0], names.service));
            var g1 := LegacyPlan(LegacyLayout(LegacyRoots[1], names.service));
            Targets(m0 + m1) !! Targets(g0 + g1)
  {
    var m0 := ModernPlan(ModernLayout(ModernRoots[0], names), names.service);
    var m1 := ModernPlan(ModernLayout(ModernRoots[1], names), names.service);
    var g0 := LegacyPlan(LegacyLayout(LegacyRoots[0], names.service));
    var g1 := LegacyPlan(LegacyLayout(LegacyRoots[1], names.service));
    ModernPlansWellFormed(names);
    LegacyPlansWellFormed(names.service);
    forall p, q | p in Targets(m0 + m1) && q in Targets(g0 + g1)
      ensures p != q
    {
      ModernNotLegacy(p, q);
    }
  }

  /** The plan of `main` is well formed, whatever the names: the four roots
      part ways before any of them ends. */
  lemma MainPlanWellFormed(names: Names)
    ensures WellFormed(MainPlan(names))
  {
    var m0 := ModernPlan(ModernLayout(ModernRoots[0], names), names.service);
    var m1 := ModernPlan(ModernLayout(ModernRoots[1], names), names.service);
    var g0 := LegacyPlan(LegacyLayout(LegacyRoots[0], names.service));
    var g1 := LegacyPlan(LegacyLayout(LegacyRoots[1], names.service));
    ModernPlansWellFormed(names);
    LegacyPlansWellFormed(names.service);
    ModernLegacyDisjoint(names);
    WellFormedAppend(m0 + m1, g0 + g1);
    assert MainPlan(names) == (m0 + m1) + (g0 + g1);
  }

  // ---------------------------------------------------------------------------
  // Idempotence of a whole run
  // ---------------------------------------------------------------------------

  /** A second run over the files a first run left changes nothing, reports
      nothing, and fails exactly when the first run failed, with a lawful
      codec and a helper path of the form `SafeHelper` describes. */
  lemma RunIdempotent(env: Env, names: Names, files: map<string, string>)
    requires Lawful(env.codec) && ServiceDefinition.SafeHelper(env.helper)
    ensures var r := RunSpec(env, names, State(files, false, false));
            RunSpec(env, names, State(r.files, false, false)) == State(r.files, false, r.failed)
  {
    var st := State(files, false, false);
    var r := RunSpec(env, names, st);
    var plan := MainPlan(names);
    MainPlanRuns(env, names, st);
    MainPlanRuns(env, names, State(r.files, false, false));
    MainPlanWellFormed(names);
    forall g | g in Guards(plan)
      ensures g in r.files <==> g in files
    {
      RunKeys(env, plan, st, g);
    }
    SecondRun(env, plan, st, r.files);
  }

  /** Run again on what it left, the program asks for no rescan. */
  lemma RescanIdempotent(env: Env, argv: seq<string>, files: map<string, string>)
    requires Lawful(env.codec) && ServiceDefinition.SafeHelper(env.helper)
    ensures !Rescan(env, argv, RunSpec(env, ResolveNames(argv), State(files, false, false)).files)
  {
    RunIdempotent(env, ResolveNames(argv), files);
  }
}
