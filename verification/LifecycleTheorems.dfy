/**
  What every run of the Cluster lifecycle guarantees, and two things it does not.
*/
module LifecycleTheorems {
  import opened Options
  import opened Sequences
  import opened Lifecycle
  import opened LifecycleSafety

  /** The state after a run from the start, for a run all of whose events are possible. */
  ghost predicate Reaches(name: string, cleanFuncs: nat, run: seq<Event>, s: State) {
    Replay(Init(name, cleanFuncs), run) == Some(s)
  }

  lemma ReachesInv(name: string, cleanFuncs: nat, run: seq<Event>, s: State)
    requires Reaches(name, cleanFuncs, run, s)
    ensures Inv(s) && s.name == name && s.cleanFuncs == cleanFuncs
  {
    ReplayKeeps(Init(name, cleanFuncs), run);
    ReplayNames(Init(name, cleanFuncs), run);
  }

  lemma {:induction false} ReplayNames(s: State, run: seq<Event>)
    requires Replay(s, run).Some?
    ensures Replay(s, run).value.name == s.name && Replay(s, run).value.cleanFuncs == s.cleanFuncs
  {
    if run != [] {
      ReplayNames(s, run[..|run| - 1]);
    }
  }

  /**
    The operator's finalizer is the last to leave: the only step that takes it away is the
    operator's own update, no other finalizer is left at that point, and the object ends with it.
  */
  lemma OperatorFinalizerLeavesLast(name: string, cleanFuncs: nat, run: seq<Event>, s: State, e: Event)
    requires Reaches(name, cleanFuncs, run, s)
    requires Step(s, e).Some? && s.store.Holds(Operator) && !Step(s, e).value.store.Holds(Operator)
    ensures e == Op(OpWrite(true))
    ensures s.store.Last().deleting && s.store.Last().finalizers == {Operator}
    ensures s.op.installed == {}
    ensures !Step(s, e).value.store.live
  {
    ReachesInv(name, cleanFuncs, run, s);
    var s' := Step(s, e).value;
    match e
    case User(u) => UserEvolves(Operator, s.store, u);
    case Cm(m) => CmEvolves(Operator, s.store, cleanFuncs, s.cm, m);
    case Ct(t) => CtEvolves(Operator, s.store, name, s.ct, t);
    case Op(o) =>
  }

  /**
    The controller-manager's finalizer is taken away only by its own update, of a deleting object,
    after a pass over that very version in which every clean function succeeded.
  */
  lemma StarterFinalizerLeavesAfterPass(name: string, cleanFuncs: nat, run: seq<Event>, s: State, e: Event)
    requires Reaches(name, cleanFuncs, run, s)
    requires Step(s, e).Some? && s.store.Holds(Starter) && !Step(s, e).value.store.Holds(Starter)
    ensures e == Cm(CmWrite(true))
    ensures s.store.Last().deleting && s.cm.swept == Some(s.store.Last().version) && s.cm.passed == Below(cleanFuncs)
  {
    ReachesInv(name, cleanFuncs, run, s);
    match e
    case User(u) => UserEvolves(Starter, s.store, u);
    case Op(o) => OpEvolves(Starter, s.store, s.op, o);
    case Ct(t) => CtEvolves(Starter, s.store, name, s.ct, t);
    case Cm(m) => StarterDrops(s.store, cleanFuncs, s.cm, m);
  }

  lemma StarterDrops(st: Store, n: nat, p: StarterState, e: CmEvent)
    requires st.Ok() && CmInv(st, n, p) && CmStep(st, n, p, e).Some?
    requires st.Holds(Starter) && !CmStep(st, n, p, e).value.0.Holds(Starter)
    ensures e == CmWrite(true) && st.Last().deleting && p.swept == Some(st.Last().version) && p.passed == Below(n)
  {
  }

  /** The cluster controller's finalizer is taken away only by its own update, with the manager and the node gone. */
  lemma TreeFinalizerLeavesAfterNode(name: string, cleanFuncs: nat, run: seq<Event>, s: State, e: Event)
    requires Reaches(name, cleanFuncs, run, s)
    requires Step(s, e).Some? && s.store.Holds(Tree) && !Step(s, e).value.store.Holds(Tree)
    ensures e.Ct? && e.t.CtWrite? && e.t.reach
    ensures s.store.Last().deleting && s.ct.manager.None? && name !in s.ct.nodes
  {
    ReachesInv(name, cleanFuncs, run, s);
    match e
    case User(u) => UserEvolves(Tree, s.store, u);
    case Op(o) => OpEvolves(Tree, s.store, s.op, o);
    case Cm(m) => CmEvolves(Tree, s.store, cleanFuncs, s.cm, m);
    case Ct(t) => TreeDrops(s.store, name, s.ct, t);
  }

  lemma TreeDrops(st: Store, name: string, p: TreeState, e: CtEvent)
    requires st.Ok() && CtInv(st, name, p) && CtStep(st, name, p, e).Some?
    requires st.Holds(Tree) && !CtStep(st, name, p, e).value.0.Holds(Tree)
    ensures e.CtWrite? && e.reach && st.Last().deleting && p.manager.None? && name !in p.nodes
  {
  }

  /** The object existed and exists no more. */
  ghost predicate Gone(st: Store) {
    !st.live && |st.history| > 0
  }

  /**
    Once the object is gone, every controller whose finalizer was ever stored on it has done its
    cleanup: all add-ons are uninstalled; all clean functions succeeded in one pass over the object
    being deleted; the manager is cancelled and the node called like the cluster is deleted.
  */
  lemma GoneMeansCleanedUp(name: string, cleanFuncs: nat, run: seq<Event>, s: State)
    requires Reaches(name, cleanFuncs, run, s) && Gone(s.store)
    ensures s.store.EverStored(Operator) ==> s.op.installed == {}
    ensures s.store.EverStored(Starter) ==>
              s.cm.swept.Some? && Deleted(s.store, s.cm.swept.value) && (s.cm.start ==> s.cm.cancelled)
    ensures s.store.EverStored(Tree) ==>
              && s.ct.manager.None? && s.ct.cancel.None?
              && (forall i: nat :: i < s.ct.contexts ==> i in s.ct.cancelled)
              && name !in s.ct.nodes
  {
    ReachesInv(name, cleanFuncs, run, s);
  }

  /** A finalizer that was ever stored stays on the existing object until its owner's cleanup is done. */
  lemma ObjectWaitsForCleanup(name: string, cleanFuncs: nat, run: seq<Event>, s: State)
    requires Reaches(name, cleanFuncs, run, s) && |s.store.history| > 0
    ensures s.store.EverStored(Operator) && s.op.installed != {} ==> s.store.Holds(Operator)
    ensures s.store.EverStored(Starter) && !(s.cm.swept.Some? && Deleted(s.store, s.cm.swept.value)) ==>
            s.store.Holds(Starter)
    ensures s.store.EverStored(Tree) && (s.ct.manager.Some? || name in s.ct.nodes) ==> s.store.Holds(Tree)
  {
    ReachesInv(name, cleanFuncs, run, s);
  }

  /** While its finalizer is stored every add-on is installed, until it is the last finalizer of a deleting object. */
  lemma FinalizerMeansInstalled(name: string, cleanFuncs: nat, run: seq<Event>, s: State)
    requires Reaches(name, cleanFuncs, run, s) && s.store.Holds(Operator)
    ensures s.op.installed == Below(ADDONS) || (s.store.Last().deleting && s.store.Last().finalizers == {Operator})
  {
    ReachesInv(name, cleanFuncs, run, s);
    if Complete(s.op.installed) {
      assert forall i: nat :: i in s.op.installed <==> i in Below(ADDONS);
    }
  }

  // ---------------------------------------------------------------------------------------------
  // What the clean functions leave behind
  // ---------------------------------------------------------------------------------------------

  /** The resources of clean function i were created again after it last took effect. */
  ghost predicate ProducedSince(run: seq<Event>, i: nat) {
    run != [] &&
    var last := run[|run| - 1];
    || last == Cm(Produce(i))
    || (!Cleans(last, i) && ProducedSince(run[..|run| - 1], i))
  }

  /** What is left to clean is exactly what was created after its own clean function last took effect. */
  lemma {:induction false} LeftoversAreProducedSince(name: string, cleanFuncs: nat, run: seq<Event>, s: State, i: nat)
    requires Reaches(name, cleanFuncs, run, s)
    ensures i in s.cm.dirty <==> ProducedSince(run, i)
  {
    if run != [] {
      var init := run[..|run| - 1];
      var t := Replay(Init(name, cleanFuncs), init).value;
      LeftoversAreProducedSince(name, cleanFuncs, init, t, i);
      LeftoversStep(t, run[|run| - 1], i);
    }
  }

  predicate Cleans(e: Event, i: nat) {
    e.Cm? && e.m.Clean? && e.m.i == i && e.m.applied
  }

  lemma LeftoversStep(s: State, e: Event, i: nat)
    requires Step(s, e).Some?
    ensures i in Step(s, e).value.cm.dirty <==> e == Cm(Produce(i)) || (!Cleans(e, i) && i in s.cm.dirty)
  {
  }

  /** No sub-controller creates anything after it has been told to stop. */
  ghost predicate StopsWhenTold(s: State, run: seq<Event>) {
    run != [] ==>
      var init := run[..|run| - 1];
      && StopsWhenTold(s, init)
      && (run[|run| - 1].Cm? && run[|run| - 1].m.Produce? && Replay(s, init).Some? ==>
          !Replay(s, init).value.cm.cancelled)
  }

  lemma {:induction false} QuietRuns(s: State, run: seq<Event>)
    requires Inv(s) && CmQuiet(s.store, s.cm) && Replay(s, run).Some? && StopsWhenTold(s, run)
    ensures Inv(Replay(s, run).value) && CmQuiet(Replay(s, run).value.store, Replay(s, run).value.cm)
  {
    if run != [] {
      var init, e := run[..|run| - 1], run[|run| - 1];
      QuietRuns(s, init);
      QuietStep(Replay(s, init).value, e);
    }
  }

  lemma QuietStep(s: State, e: Event)
    requires Inv(s) && CmQuiet(s.store, s.cm) && Step(s, e).Some?
    requires e.Cm? && e.m.Produce? ==> !s.cm.cancelled
    ensures Inv(Step(s, e).value) && CmQuiet(Step(s, e).value.store, Step(s, e).value.cm)
  {
    StepKeeps(s, e);
    match e
    case Cm(m) => CmQuietKeeps(s.store, s.cleanFuncs, s.cm, m);
    case User(u) => UserEvolves(Starter, s.store, u); CmQuietStable(s.store, Step(s, e).value.store, s.cm);
    case Op(o) => OpEvolves(Starter, s.store, s.op, o); CmQuietStable(s.store, Step(s, e).value.store, s.cm);
    case Ct(t) => CtEvolves(Starter, s.store, s.name, s.ct, t); CmQuietStable(s.store, Step(s, e).value.store, s.cm);
  }

  /** If the sub-controllers stopped when told to, nothing would be left once the object is gone. */
  lemma StoppingLeavesNothing(name: string, cleanFuncs: nat, run: seq<Event>, s: State)
    requires Reaches(name, cleanFuncs, run, s) && StopsWhenTold(Init(name, cleanFuncs), run)
    requires Gone(s.store) && s.store.EverStored(Starter)
    ensures s.cm.dirty == {}
  {
    QuietRuns(Init(name, cleanFuncs), run);
  }

  /**
    The manager map and the cancel map agree, every manager context ever created except the
    registered one is cancelled, and a registered manager implies the stored finalizer.
  */
  lemma ManagersAreTracked(name: string, cleanFuncs: nat, run: seq<Event>, s: State)
    requires Reaches(name, cleanFuncs, run, s)
    ensures s.ct.manager == s.ct.cancel
    ensures forall i: nat :: i < s.ct.contexts && s.ct.manager != Some(i) ==> i in s.ct.cancelled
    ensures s.ct.manager.Some? ==> s.store.Holds(Tree)
  {
    ReachesInv(name, cleanFuncs, run, s);
  }

  /** Whatever add-on operations fail, the installed add-ons are a prefix of the installer list. */
  lemma InstalledAddonsAreAPrefix(name: string, cleanFuncs: nat, run: seq<Event>, s: State)
    requires Reaches(name, cleanFuncs, run, s)
    ensures exists k: nat :: k <= ADDONS && s.op.installed == Below(k)
  {
    ReachesInv(name, cleanFuncs, run, s);
    var k := PrefixLength(s.op.installed, ADDONS);
  }

  lemma PrefixLength(installed: set<nat>, n: nat) returns (k: nat)
    requires Prefix(installed) && n <= ADDONS
    requires forall i :: i in installed ==> i < n
    ensures k <= n && installed == Below(k)
  {
    if n == 0 || n - 1 in installed {
      k := n;
      assert forall i :: i in installed <==> i in Below(k);
    } else {
      k := PrefixLength(installed, n - 1);
    }
  }

  // ---------------------------------------------------------------------------------------------
  // Runs that leave something behind
  // ---------------------------------------------------------------------------------------------

  lemma Extend(s: State, run: seq<Event>, t: State, e: Event, t': State)
    requires Replay(s, run) == Some(t) && Step(t, e) == Some(t')
    ensures Replay(s, run + [e]) == Some(t')
  {
    assert (run + [e])[..|run|] == run;
  }

  /** The controller-manager starts on a new Cluster and stores its finalizer. */
  lemma StartRun(i: State, c: Cluster) returns (run: seq<Event>, s: State)
    requires i == Init(i.name, i.cleanFuncs) && c == Cluster(1, 0, false, {Starter}, false, false, [])
    ensures Replay(i, run) == Some(s)
    ensures var c0 := c.(version := 0, finalizers := {});
            s == i.(store := Store([c0, c], true), cm := StarterState(0, Some(c0), true, false, {}, {}, None, CmIdle))
  {
    var c0 := c.(version := 0, finalizers := {});
    var e := User(Create({}, false, false, []));
    var s1 := i.(store := Store([c0], true));
    assert [] + [c0] == [c0];
    Extend(i, [], i, e, s1); run := [] + [e];
    var s2 := s1.(cm := s1.cm.(cache := Some(c0)));
    Extend(i, run, s1, Cm(Deliver(0)), s2); run := run + [Cm(Deliver(0))];
    var s3 := s2.(cm := s2.cm.(start := true, pc := Ensuring(c0.(finalizers := {} + {Starter}))));
    Extend(i, run, s2, Cm(CmRead(false)), s3); run := run + [Cm(CmRead(false))];
    assert {} + {Starter} == {Starter} && [c0] + [c] == [c0, c];
    s := s3.(store := Store([c0, c], true), cm := s3.cm.(pc := CmIdle));
    Extend(i, run, s3, Cm(CmWrite(true)), s); run := run + [Cm(CmWrite(true))];
  }

  lemma CleanStep(s: State, c: Cluster, k: nat, t: State)
    requires s.cm.pc == Cleaning(c, k, false) && k < s.cleanFuncs && s.cm.dirty == {}
    requires t == s.(cm := s.cm.(passed := s.cm.passed + {k}, pc := Cleaning(c, k + 1, false)))
    ensures Step(s, Cm(Clean(k, true, true))) == Some(t)
  {
    assert s.cm.dirty - {k} == s.cm.dirty;
  }

  /** The clean functions from k on succeed. */
  lemma {:induction false} CleanRun(i: State, run: seq<Event>, s: State, c: Cluster, k: nat)
    returns (run': seq<Event>, s': State)
    requires Replay(i, run) == Some(s) && k <= s.cleanFuncs && s.cm.pc == Cleaning(c, k, false) && s.cm.dirty == {}
    ensures Replay(i, run') == Some(s')
    ensures s' == s.(cm := s.cm.(passed := s'.cm.passed, pc := Cleaning(c, s.cleanFuncs, false)))
    decreases s.cleanFuncs - k
  {
    if k == s.cleanFuncs {
      run', s' := run, s;
    } else {
      var t := s.(cm := s.cm.(passed := s.cm.passed + {k}, pc := Cleaning(c, k + 1, false)));
      CleanStep(s, c, k, t);
      Extend(i, run, s, Cm(Clean(k, true, true)), t);
      run', s' := CleanRun(i, run + [Cm(Clean(k, true, true))], t, c, k + 1);
    }
  }

  /**
    The sub-controllers do not run under the context that the controller-manager cancels.  So for
    every cluster name there is a run without any failure in which the object is gone after a complete
    cleanup, and something to clean is there again.
  */
  lemma CreatedAfterCleanup(name: string, cleanFuncs: nat) returns (run: seq<Event>, s: State)
    requires cleanFuncs > 0
    ensures Reaches(name, cleanFuncs, run, s)
    ensures Gone(s.store) && s.store.EverStored(Starter) && s.cm.dirty == {0}
  {
    var i := Init(name, cleanFuncs);
    var c := Cluster(1, 0, false, {Starter}, false, false, []);
    run, s := StartRun(i, c);
    var c' := c.(version := 2, deleting := true);
    var s1 := s.(store := Store(s.store.history + [c'], true));
    Extend(i, run, s, User(Delete), s1); run := run + [User(Delete)];
    var s2 := s1.(cm := s1.cm.(seen := 2, cache := Some(c')));
    Extend(i, run, s1, Cm(Deliver(2)), s2); run := run + [Cm(Deliver(2))];
    var s3 := s2.(cm := s2.cm.(cancelled := true, passed := {}, pc := Cleaning(c', 0, false)));
    Extend(i, run, s2, Cm(CmRead(false)), s3); run := run + [Cm(CmRead(false))];
    var s4;
    run, s4 := CleanRun(i, run, s3, c', 0);
    run, s4 := DropRun(i, run, s4, c');
    run, s := ProduceRun(i, run, s4);
    assert Starter in s.store.history[1].finalizers;
  }

  /** After a complete pass the finalizer goes, and the object with it. */
  lemma DropRun(i: State, run: seq<Event>, s: State, c: Cluster) returns (run': seq<Event>, s': State)
    requires Replay(i, run) == Some(s) && s.cm.pc == Cleaning(c, s.cleanFuncs, false) && c.finalizers == {Starter}
    requires s.store.live && |s.store.history| > 0 && c == s.store.Last() && c.deleting
             && c.version == |s.store.history| - 1
    ensures Replay(i, run') == Some(s')
    ensures s' == s.(store := s.store.(live := false), cm := s.cm.(swept := Some(c.version), pc := CmIdle))
  {
    var bare := c.(finalizers := c.finalizers - {Starter});
    var s1 := s.(cm := s.cm.(swept := Some(c.version), pc := Dropping(bare)));
    Extend(i, run, s, Cm(CleanEnd(false)), s1); run' := run + [Cm(CleanEnd(false))];
    s' := s1.(store := s1.store.(live := false), cm := s1.cm.(pc := CmIdle));
    DropStep(s1, bare, s');
    Extend(i, run', s1, Cm(CmWrite(true)), s'); run' := run' + [Cm(CmWrite(true))];
  }

  /** A sub-controller that was once started creates something. */
  lemma ProduceRun(i: State, run: seq<Event>, s: State) returns (run': seq<Event>, s': State)
    requires Replay(i, run) == Some(s) && s.cleanFuncs > 0 && s.cm.start && s.cm.dirty == {}
    ensures Replay(i, run') == Some(s') && s'.store == s.store && s'.cm.dirty == {0}
  {
    s' := s.(cm := s.cm.(dirty := s.cm.dirty + {0}));
    Extend(i, run, s, Cm(Produce(0)), s');
    run' := run + [Cm(Produce(0))];
  }

  lemma DropStep(s: State, c: Cluster, t: State)
    requires s.cm.pc == Dropping(c) && c.finalizers == {} && s.store.Admits(c) && s.store.Last().deleting
    requires t == s.(store := s.store.(live := false), cm := s.cm.(pc := CmIdle))
    ensures Step(s, Cm(CmWrite(true))) == Some(t)
  {
  }

  /** Every run that ends without an object that had the controller-manager's finalizer ends with everything cleaned. */
  ghost predicate LeavesNothing(name: string, cleanFuncs: nat) {
    forall run, s | Reaches(name, cleanFuncs, run, s) && Gone(s.store) && s.store.EverStored(Starter) ::
      s.cm.dirty == {}
  }

  /** So nothing is left in any run if and only if there is nothing to clean at all. */
  lemma NothingLeftIff(name: string, cleanFuncs: nat)
    ensures LeavesNothing(name, cleanFuncs) <==> cleanFuncs == 0
  {
    if cleanFuncs == 0 {
      forall run, s | Reaches(name, cleanFuncs, run, s) && Gone(s.store) && s.store.EverStored(Starter)
        ensures s.cm.dirty == {}
      {
        ReachesInv(name, cleanFuncs, run, s);
      }
    } else {
      var run, s := CreatedAfterCleanup(name, cleanFuncs);
    }
  }

  // ---------------------------------------------------------------------------------------------
  // Add-ons: what a deletion before the finalizer leaves behind
  // ---------------------------------------------------------------------------------------------

  /**
    The operator stores its finalizer only after all add-ons are in.  Until then the guarantee above
    does not cover it: a Cluster deleted during the installation leaves add-ons behind for good.
  */
  lemma AddonsOutliveUnfinalizedCluster(name: string, cleanFuncs: nat) returns (run: seq<Event>, s: State)
    ensures Reaches(name, cleanFuncs, run, s)
    ensures Gone(s.store) && !s.store.EverStored(Operator)
    ensures s.op.pc.OpIdle? && s.op.installed != {} && Linked(s.store, true)
  {
    var i := Init(name, cleanFuncs);
    var c := Cluster(0, 0, false, {}, true, false, []);
    var s1 := i.(store := Store([c], true));
    assert [] + [c] == [c];
    Extend(i, [], i, User(Create({}, true, false, [])), s1); run := [] + [User(Create({}, true, false, []))];
    var s2 := s1.(op := s1.op.(pc := Installing(c, 0)));
    Extend(i, run, s1, Op(OpRead(0)), s2); run := run + [Op(OpRead(0))];
    var s3 := s2.(op := s2.op.(installed := {} + {0}, pc := Installing(c, 1)));
    Extend(i, run, s2, Op(Install(true, true)), s3); run := run + [Op(Install(true, true))];
    var s4 := s3.(store := s3.store.(live := false));
    Extend(i, run, s3, User(Delete), s4); run := run + [User(Delete)];
    s := s4.(op := s4.op.(pc := OpIdle));
    Extend(i, run, s4, Op(Install(false, false)), s); run := run + [Op(Install(false, false))];
    assert 0 in s.op.installed;
  }

  /** Whether clusterlink is enabled, the same in all stored versions. */
  ghost predicate Linked(st: Store, link: bool) {
    forall v | 0 <= v < |st.history| :: st.history[v].link == link
  }

  /** Every run with clusterlink enabled or not that ends without the object ends without an add-on. */
  ghost predicate LeavesNoAddon(name: string, cleanFuncs: nat, link: bool) {
    forall run, s | Reaches(name, cleanFuncs, run, s) && Gone(s.store) && Linked(s.store, link) :: s.op.installed == {}
  }

  lemma HistoryGrows(s: State, e: Event)
    requires Step(s, e).Some?
    ensures s.store.history <= Step(s, e).value.store.history
  {
  }

  /** The operator has no reason to install anything. */
  predicate Uninvolved(p: OperatorState) {
    p.installed == {} && !p.pc.Installing? && !p.pc.OpAdding?
  }

  lemma UninvolvedStep(s: State, e: Event)
    requires Step(s, e).Some? && Uninvolved(s.op) && Linked(s.store, false)
    ensures Uninvolved(Step(s, e).value.op)
  {
  }

  lemma {:induction false} NeverLinked(name: string, cleanFuncs: nat, run: seq<Event>, s: State)
    requires Reaches(name, cleanFuncs, run, s) && Linked(s.store, false)
    ensures Uninvolved(s.op)
  {
    if run != [] {
      var init, e := run[..|run| - 1], run[|run| - 1];
      var t := Replay(Init(name, cleanFuncs), init).value;
      HistoryGrows(t, e);
      forall v | 0 <= v < |t.store.history| ensures !t.store.history[v].link {
        assert t.store.history[v] == s.store.history[v];
      }
      NeverLinked(name, cleanFuncs, init, t);
      UninvolvedStep(t, e);
    }
  }

  /** No add-on is left in any run if and only if clusterlink is not enabled. */
  lemma NoAddonLeftIff(name: string, cleanFuncs: nat, link: bool)
    ensures LeavesNoAddon(name, cleanFuncs, link) <==> !link
  {
    if link {
      var run, s := AddonsOutliveUnfinalizedCluster(name, cleanFuncs);
    } else {
      forall run, s | Reaches(name, cleanFuncs, run, s) && Gone(s.store) && Linked(s.store, link)
        ensures s.op.installed == {}
      {
        NeverLinked(name, cleanFuncs, run, s);
      }
    }
  }

  // ---------------------------------------------------------------------------------------------
  // Root nodes: what the node deletion leaves behind
  // ---------------------------------------------------------------------------------------------

  /**
    When a Cluster that had the cluster controller's finalizer is gone, the root nodes left over are
    exactly those created under another name than the cluster's own, and every one of them comes from
    a leaf model of some stored version.
  */
  lemma RootNodesLeftOver(name: string, cleanFuncs: nat, run: seq<Event>, s: State)
    requires Reaches(name, cleanFuncs, run, s) && Gone(s.store) && s.store.EverStored(Tree)
    ensures s.ct.nodes == s.ct.made - {name}
    ensures AllDerived(s.store, name, s.ct.made)
  {
    ReachesInv(name, cleanFuncs, run, s);
    assert s.ct.nodes == s.ct.made - {name};
  }

  ghost predicate UsesModels(st: Store, models: seq<LeafModel>) {
    forall v | 0 <= v < |st.history| :: st.history[v].models == models
  }

  /** An object with these leaf models is gone that had the cluster controller's finalizer. */
  ghost predicate GoneWith(st: Store, models: seq<LeafModel>) {
    Gone(st) && st.EverStored(Tree) && UsesModels(st, models)
  }

  /** Every run with these leaf models that ends without the object ends without any of its root nodes. */
  ghost predicate LeavesNoNode(name: string, cleanFuncs: nat, models: seq<LeafModel>) {
    forall run, s | Reaches(name, cleanFuncs, run, s) && GoneWith(s.store, models) ::
      s.ct.nodes == {}
  }

  /** The leaf models leave no node behind if and only if every root node they make is called like the cluster. */
  lemma NoNodeLeftIff(name: string, cleanFuncs: nat, models: seq<LeafModel>)
    ensures LeavesNoNode(name, cleanFuncs, models) <==> forall x | x in RootNodes(name, models) :: x == name
  {
    if forall x | x in RootNodes(name, models) :: x == name {
      forall run, s | Reaches(name, cleanFuncs, run, s) && GoneWith(s.store, models)
        ensures s.ct.nodes == {}
      {
        RootNodesLeftOver(name, cleanFuncs, run, s);
        forall x | x in s.ct.made ensures x == name {
          assert Derived(s.store, name, x);
        }
      }
    } else {
      var run, s := LeaveRun(name, cleanFuncs, models);
      var x :| x in RootNodes(name, models) && x != name;
      assert x in s.ct.nodes;
    }
  }

  /** One node for the whole cluster is created as "kosmos-<name>" and deleted as "<name>", so it always stays. */
  lemma RootNodeOutlivesCluster(name: string, cleanFuncs: nat, models: seq<LeafModel>)
    requires ModeOf(models).All?
    ensures !LeavesNoNode(name, cleanFuncs, models)
  {
    var node := KOSMOS_NODE_PREFIX + name;
    assert RootNodes(name, models) == [node] && node in RootNodes(name, models);
    assert |node| != |name|;
    NoNodeLeftIff(name, cleanFuncs, models);
  }

  /** The root nodes from the k-th on are created. */
  lemma {:induction false} CreateRun(i: State, run: seq<Event>, s: State, c: Cluster, k: nat)
    returns (run': seq<Event>, s': State)
    requires Replay(i, run) == Some(s) && s.ct.pc == CreatingNodes(c, k) && k <= |RootNodes(s.name, c.models)|
    ensures Replay(i, run') == Some(s')
    ensures var nodes := RootNodes(s.name, c.models);
            s' == s.(ct := s.ct.(nodes := s.ct.nodes + SetOf(nodes[k..]), made := s.ct.made + SetOf(nodes[k..]),
                                 pc := CreatingNodes(c, |nodes|)))
    decreases |RootNodes(s.name, c.models)| - k
  {
    var nodes := RootNodes(s.name, c.models);
    ElementsFrom(nodes, k, s.ct.nodes);
    ElementsFrom(nodes, k, s.ct.made);
    if k == |nodes| {
      run', s' := run, s;
    } else {
      var t := s.(ct := s.ct.(nodes := s.ct.nodes + {nodes[k]}, made := s.ct.made + {nodes[k]},
                              pc := CreatingNodes(c, k + 1)));
      CreateStep(s, c, k, t);
      Extend(i, run, s, Ct(CreateNode(true, true)), t);
      run', s' := CreateRun(i, run + [Ct(CreateNode(true, true))], t, c, k + 1);
    }
  }

  lemma CreateStep(s: State, c: Cluster, k: nat, t: State)
    requires s.ct.pc == CreatingNodes(c, k) && k < |RootNodes(s.name, c.models)|
    requires var node := RootNodes(s.name, c.models)[k];
             t == s.(ct := s.ct.(nodes := s.ct.nodes + {node}, made := s.ct.made + {node},
                                 pc := CreatingNodes(c, k + 1)))
    ensures Step(s, Ct(CreateNode(true, true))) == Some(t)
  {
  }

  lemma ElementsFrom(nodes: seq<string>, k: nat, before: set<string>)
    requires k <= |nodes|
    ensures before + SetOf(nodes[k..]) == if k == |nodes| then before else before + {nodes[k]} + SetOf(nodes[k + 1..])
  {
    if k < |nodes| {
      assert nodes[k..] == [nodes[k]] + nodes[k + 1..];
    }
  }

  /** A user creates the Cluster and the cluster controller stores its finalizer. */
  lemma JoinRun(i: State, c: Cluster) returns (run: seq<Event>, s: State)
    requires i == Init(i.name, i.cleanFuncs) && c == Cluster(1, 0, false, {Tree}, false, true, c.models)
    ensures Replay(i, run) == Some(s)
    ensures s == i.(store := Store([c.(version := 0, finalizers := {}), c], true),
                    ct := i.ct.(pc := CreatingNodes(c, 0)))
  {
    var c0 := c.(version := 0, finalizers := {});
    var e := User(Create({}, false, true, c.models));
    var s1 := i.(store := Store([c0], true));
    assert [] + [c0] == [c0];
    Extend(i, [], i, e, s1); run := [] + [e];
    var held := c0.(finalizers := {} + {Tree});
    var s2 := s1.(ct := s1.ct.(pc := CtAdding(held)));
    Extend(i, run, s1, Ct(CtRead(0)), s2); run := run + [Ct(CtRead(0))];
    var s3 := s2.(store := Store([c0, c], true), ct := s1.ct.(pc := Clearing(c)));
    assert held.(version := 1) == c && [c0] + [c] == [c0, c];
    Extend(i, run, s2, Ct(CtWrite(true, true)), s3); run := run + [Ct(CtWrite(true, true))];
    s := s3.(ct := s1.ct.(pc := CreatingNodes(c, 0)));
    Extend(i, run, s3, Ct(Clear), s); run := run + [Ct(Clear)];
  }

  lemma RegisterRun(i: State, run: seq<Event>, s: State, c: Cluster) returns (run': seq<Event>, s': State)
    requires Replay(i, run) == Some(s) && s.ct.pc == CreatingNodes(c, |RootNodes(s.name, c.models)|)
             && s.ct.contexts == 0
    ensures Replay(i, run') == Some(s')
    ensures s' == s.(ct := s.ct.(manager := Some(0), cancel := Some(0), contexts := 1, pc := CtIdle))
  {
    s' := s.(ct := s.ct.(manager := Some(0), cancel := Some(0), contexts := 1, pc := CtIdle));
    Extend(i, run, s, Ct(Register), s');
    run' := run + [Ct(Register)];
  }

  /** The Cluster is deleted, and the cluster controller cancels its manager. */
  lemma CancelRun(i: State, run: seq<Event>, s: State, c: Cluster) returns (run': seq<Event>, s': State)
    requires Replay(i, run) == Some(s) && s.ct.pc.CtIdle? && s.ct.seen <= 1 && s.ct.cancel == Some(0)
    requires s.store.live && |s.store.history| == 2 && s.store.history[1] == c
    requires !c.deleting && c.finalizers == {Tree} && c.uid == 0
    ensures Replay(i, run') == Some(s')
    ensures var c' := c.(version := 2, deleting := true);
            && s'.store == Store(s.store.history + [c'], true) && s'.name == s.name
            && s'.ct.nodes == s.ct.nodes && s'.ct.pc == DeletingNode(c')
  {
    var c' := c.(version := 2, deleting := true);
    var s1 := s.(store := Store(s.store.history + [c'], true));
    Extend(i, run, s, User(Delete), s1); run' := run + [User(Delete)];
    var s2 := s1.(ct := s.ct.(seen := 2, pc := Clearing(c')));
    Extend(i, run', s1, Ct(CtRead(2)), s2); run' := run' + [Ct(CtRead(2))];
    s' := s2.(ct := s2.ct.(manager := None, cancel := None, cancelled := s.ct.cancelled + {0}, pc := DeletingNode(c')));
    Extend(i, run', s2, Ct(Clear), s'); run' := run' + [Ct(Clear)];
  }

  /** The cluster controller deletes the node and gives the last finalizer up. */
  lemma UnjoinRun(i: State, run: seq<Event>, s: State, c: Cluster) returns (run': seq<Event>, s': State)
    requires Replay(i, run) == Some(s) && s.ct.pc == DeletingNode(c) && c.finalizers == {Tree}
    requires s.store.live && |s.store.history| > 0 && c == s.store.Last() && c.deleting
             && c.version == |s.store.history| - 1
    ensures Replay(i, run') == Some(s')
    ensures s'.store == s.store.(live := false) && s'.ct.nodes == s.ct.nodes - {s.name}
  {
    var bare := c.(finalizers := c.finalizers - {Tree});
    var s1 := s.(ct := s.ct.(nodes := s.ct.nodes - {s.name}, pc := CtRemoving(bare)));
    s' := s1.(store := s1.store.(live := false), ct := s1.ct.(pc := CtIdle));
    UnjoinStep(s1, bare, s');
    Extend(i, run, s, Ct(DeleteNode(true, true)), s1);
    Extend(i, run + [Ct(DeleteNode(true, true))], s1, Ct(CtWrite(true, true)), s');
    run' := run + [Ct(DeleteNode(true, true))] + [Ct(CtWrite(true, true))];
  }

  lemma UnjoinStep(s: State, c: Cluster, t: State)
    requires s.ct.pc == CtRemoving(c) && c.finalizers == {} && s.store.Admits(c) && s.store.Last().deleting
    requires t == s.(store := s.store.(live := false), ct := s.ct.(pc := CtIdle))
    ensures Step(s, Ct(CtWrite(true, true))) == Some(t)
  {
  }

  /** For any leaf models there is a run without any failure that leaves every root node not called like the cluster. */
  lemma LeaveRun(name: string, cleanFuncs: nat, models: seq<LeafModel>) returns (run: seq<Event>, s: State)
    ensures Reaches(name, cleanFuncs, run, s) && GoneWith(s.store, models)
    ensures s.ct.nodes == SetOf(RootNodes(name, models)) - {name}
  {
    var i := Init(name, cleanFuncs);
    var c := Cluster(1, 0, false, {Tree}, false, true, models);
    run, s := JoinRun(i, c);
    var nodes := RootNodes(name, models);
    run, s := CreateRun(i, run, s, c, 0);
    assert {} + SetOf(nodes[0..]) == SetOf(nodes) by { assert nodes[0..] == nodes; }
    run, s := RegisterRun(i, run, s, c);
    run, s := CancelRun(i, run, s, c);
    run, s := UnjoinRun(i, run, s, c.(version := 2, deleting := true));
    assert Tree in s.store.history[1].finalizers;
  }
}
