/**
  Safety of the Cluster lifecycle over every run.

  Each controller has an invariant about its own state and the store.  `Evolves(f, ...)` is all a
  controller needs to know of the others: nobody else adds or removes its finalizer `f`.  Every
  step of one controller is such an evolution for the other two.
*/
module LifecycleSafety {
  import opened Options
  import opened Lifecycle

  // ---------------------------------------------------------------------------------------------
  // What others may do to the store
  // ---------------------------------------------------------------------------------------------

  /** One more version of the same incarnation. */
  ghost predicate Extends(f: Finalizer, st: Store, st': Store) {
    && st.live && st'.live && |st.history| > 0 && |st'.history| == |st.history| + 1
    && st'.history == st.history + [st'.Last()]
    && st'.Last().version == |st.history|
    && st'.Last().uid == st.Last().uid
    && (st.Last().deleting ==> st'.Last().deleting && st'.Last().finalizers <= st.Last().finalizers)
    && (f in st'.Last().finalizers <==> f in st.Last().finalizers)
  }

  ghost predicate Vanishes(f: Finalizer, st: Store, st': Store) {
    && st.live && |st.history| > 0
    && st' == st.(live := false)
    && f !in st.Last().finalizers
  }

  ghost predicate Appears(f: Finalizer, st: Store, st': Store) {
    && !st.live && st'.live && |st'.history| == |st.history| + 1
    && st'.history == st.history + [st'.Last()]
    && st'.Last().version == st'.Last().uid == |st.history|
    && !st'.Last().deleting
    && f !in st'.Last().finalizers
  }

  ghost predicate Evolves(f: Finalizer, st: Store, st': Store) {
    st' == st || Extends(f, st, st') || Vanishes(f, st, st') || Appears(f, st, st')
  }

  lemma AppendOk(st: Store, c: Cluster)
    requires st.Ok() && c.version == |st.history| && c.uid <= c.version
    requires |st.history| > 0 ==>
               st.Last().uid <= c.uid
                   && (c.uid == st.Last().uid && st.Last().deleting ==>
                       c.deleting && c.finalizers <= st.Last().finalizers)
    ensures Store(st.history + [c], true).Ok()
  {
    var h := st.history + [c];
    forall i, j | 0 <= i <= j < |h|
      ensures h[i].uid <= h[j].uid
      ensures h[i].uid == h[j].uid && h[i].deleting ==> h[j].deleting && h[j].finalizers <= h[i].finalizers
    {
      if i < |st.history| && j == |st.history| {
        assert st.history[i].uid <= st.Last().uid;
      }
    }
  }

  lemma EvolvesOk(f: Finalizer, st: Store, st': Store)
    requires st.Ok() && Evolves(f, st, st')
    ensures st'.Ok()
  {
    if st' != st && !Vanishes(f, st, st') {
      AppendOk(st, st'.Last());
    }
  }

  lemma LeftBefore(f: Finalizer, st: Store, st': Store)
    requires st.Ok() && Evolves(f, st, st')
    requires |st'.history| > 0 && st'.Left(f)
    ensures |st.history| > 0 && st.Left(f)
    ensures st' == st || Extends(f, st, st') || Vanishes(f, st, st')
  {
    var i :| 0 <= i < |st'.history| && st'.history[i].uid == st'.Last().uid && f in st'.history[i].finalizers;
    if st' != st && Extends(f, st, st') {
      if i < |st.history| {
        assert st.history[i] == st'.history[i];
      }
    }
  }

  /** A controller's update that changes at most its own finalizer is harmless to the others. */
  lemma PutEvolves(g: Finalizer, f: Finalizer, st: Store, c: Cluster, reach: bool)
    requires f != g && st.Ok()
    requires st.Admits(c) ==> c.finalizers - {g} == st.Last().finalizers - {g}
    ensures Evolves(f, st, st.Put(c, reach))
  {
    if st.Admits(c) {
      assert f in c.finalizers <==> f in c.finalizers - {g};
      assert f in st.Last().finalizers <==> f in st.Last().finalizers - {g};
    }
  }

  /** An accepted update of a faithful copy: one more version with its finalizers, or the end of the object. */
  lemma CommitShape(st: Store, c: Cluster)
    requires st.Ok() && st.Admits(c) && c == st.Last().(finalizers := c.finalizers)
    ensures var st' := st.Commit(c);
            && st'.Ok()
            && ((st' == st.(live := false) && c.deleting && c.finalizers == {})
                || st' == Store(st.history + [c.(version := |st.history|)], true))
  {
  }

  lemma UserEvolves(f: Finalizer, st: Store, e: UserEvent)
    requires !f.Foreign? && st.Ok() && UserStep(st, e).Some?
    ensures Evolves(f, st, UserStep(st, e).value)
  {
    if e.Edit? {
      assert f in e.finalizers + Owned(st.Last().finalizers) <==> f in st.Last().finalizers;
    }
  }

  // ---------------------------------------------------------------------------------------------
  // The operator
  // ---------------------------------------------------------------------------------------------

  /** The installed add-ons are the first k in installer order. */
  ghost predicate Prefix(installed: set<nat>) {
    && (forall k :: k in installed ==> k < ADDONS)
    && (forall j: nat, k: nat :: k in installed && j < k ==> j in installed)
  }

  /** Every add-on is installed. */
  ghost predicate Complete(installed: set<nat>) {
    forall k: nat :: k < ADDONS ==> k in installed
  }

  ghost predicate OpPcOk(st: Store, p: OperatorState) {
    match p.pc
    case OpIdle => true
    case Installing(c, i) =>
      p.seen < |st.history| && c == st.history[p.seen] && !(c.deleting && |c.finalizers| == 1)
      && i < ADDONS && forall k: nat :: k < i ==> k in p.installed
    case OpAdding(c) =>
      p.seen < |st.history| && !(st.history[p.seen].deleting && |st.history[p.seen].finalizers| == 1)
      && Operator !in st.history[p.seen].finalizers
      && c == st.history[p.seen].(finalizers := st.history[p.seen].finalizers + {Operator})
      && Complete(p.installed)
    case Uninstalling(c, i) =>
      p.seen < |st.history| && c == st.history[p.seen] && c.deleting && |c.finalizers| == 1
      && 0 < i <= ADDONS && forall k :: k in p.installed ==> k < i
    case OpRemoving(c) =>
      p.seen < |st.history| && st.history[p.seen].deleting && st.history[p.seen].finalizers == {Operator}
      && c == st.history[p.seen].(finalizers := {}) && p.installed == {}
  }

  /** The operator took its finalizer away: it was the last one, and everything is uninstalled for good. */
  ghost predicate OpRetired(st: Store, p: OperatorState)
    requires |st.history| > 0
  {
    && !st.live
    && st.Last().deleting && st.Last().finalizers == {Operator}
    && p.seen == |st.history| - 1
    && p.installed == {}
    && (p.pc.OpIdle? || p.pc.Uninstalling? || p.pc.OpRemoving?)
  }

  /** The object is being deleted and only the operator's finalizer keeps it. */
  predicate OnlyOperatorLeft(st: Store)
    requires |st.history| > 0
  {
    st.Last().deleting && st.Last().finalizers == {Operator}
  }

  /**
    While its finalizer is stored, the operator has read this incarnation and nothing is missing
    until it is the last.
  */
  ghost predicate OpHolding(st: Store, p: OperatorState)
    requires |st.history| > 0
  {
    && p.seen < |st.history| && st.history[p.seen].uid == st.Last().uid
    && (Complete(p.installed) || OnlyOperatorLeft(st))
  }

  ghost predicate OpInv(st: Store, p: OperatorState) {
    && (p.seen == 0 || p.seen < |st.history|)
    && Prefix(p.installed)
    && OpPcOk(st, p)
    && (st.Holds(Operator) ==> OpHolding(st, p))
    && (|st.history| > 0 && st.Left(Operator) ==> OpRetired(st, p))
  }

  lemma OpStable(st: Store, st': Store, p: OperatorState)
    requires st.Ok() && OpInv(st, p) && Evolves(Operator, st, st')
    ensures OpInv(st', p)
  {
    if |st'.history| > 0 && st'.Left(Operator) {
      LeftBefore(Operator, st, st');
    }
    if st'.Holds(Operator) {
      OpHoldingStable(st, st', p);
    }
  }

  lemma OpHoldingStable(st: Store, st': Store, p: OperatorState)
    requires st.Ok() && OpInv(st, p) && Evolves(Operator, st, st') && st'.Holds(Operator)
    ensures OpHolding(st', p)
  {
  }

  /**
    What the operator has read of a deleting object with a single finalizer still holds of the
    object that has its finalizer.
  */
  lemma ReadIsLast(st: Store, p: OperatorState)
    requires st.Ok() && OpInv(st, p) && p.pc.Uninstalling? && st.Holds(Operator)
    ensures OnlyOperatorLeft(st)
  {
    var c := p.pc.held;
    assert c.uid == st.Last().uid;
    SoleFinalizer(c.finalizers, Operator);
  }

  lemma SoleFinalizer(fs: set<Finalizer>, f: Finalizer)
    requires |fs| == 1 && f in fs
    ensures fs == {f}
  {
    assert |fs - {f}| == 0;
  }

  lemma OpWriteKeeps(st: Store, p: OperatorState, reach: bool)
    requires st.Ok() && OpInv(st, p) && OpStep(st, p, OpWrite(reach)).Some?
    ensures var r := OpStep(st, p, OpWrite(reach)).value; r.0.Ok() && OpInv(r.0, r.1)
  {
    var c := p.pc.held;
    if reach && st.Admits(c) {
      CommitShape(st, c);
      if p.pc.OpAdding? {
        assert st.Commit(c).Holds(Operator);
      }
    }
  }

  lemma OpUninstallKeeps(st: Store, p: OperatorState, applied: bool, ok: bool)
    requires st.Ok() && OpInv(st, p) && OpStep(st, p, Uninstall(applied, ok)).Some?
    ensures var r := OpStep(st, p, Uninstall(applied, ok)).value; r.0 == st && OpInv(st, r.1)
  {
    var fs := p.pc.held.finalizers;
    if Operator in fs { SoleFinalizer(fs, Operator); }
    if st.Holds(Operator) { ReadIsLast(st, p); }
  }

  lemma OpInstallKeeps(st: Store, p: OperatorState, applied: bool, ok: bool)
    requires st.Ok() && OpInv(st, p) && OpStep(st, p, Install(applied, ok)).Some?
    ensures var r := OpStep(st, p, Install(applied, ok)).value; r.0 == st && OpInv(st, r.1)
  {
  }

  lemma OpKeeps(st: Store, p: OperatorState, e: OpEvent)
    requires st.Ok() && OpInv(st, p) && OpStep(st, p, e).Some?
    ensures var r := OpStep(st, p, e).value; r.0.Ok() && OpInv(r.0, r.1)
  {
    match e
    case OpWrite(reach) => OpWriteKeeps(st, p, reach);
    case Install(applied, ok) => OpInstallKeeps(st, p, applied, ok);
    case Uninstall(applied, ok) => OpUninstallKeeps(st, p, applied, ok);
    case _ =>
  }

  lemma OpEvolves(f: Finalizer, st: Store, p: OperatorState, e: OpEvent)
    requires f != Operator && st.Ok() && OpInv(st, p) && OpStep(st, p, e).Some?
    ensures Evolves(f, st, OpStep(st, p, e).value.0)
  {
    if e.OpWrite? {
      PutEvolves(Operator, f, st, p.pc.held, e.reach);
    }
  }

  // ---------------------------------------------------------------------------------------------
  // The controller-manager
  // ---------------------------------------------------------------------------------------------

  /** A copy of version c.version in which only the Starter finalizer may differ. */
  ghost predicate CopyUpTo(g: Finalizer, st: Store, c: Cluster) {
    && c.version < |st.history|
    && c.finalizers - {g} == st.history[c.version].finalizers - {g}
    && c == st.history[c.version].(finalizers := c.finalizers)
  }

  ghost predicate CmPcOk(st: Store, n: nat, p: StarterState) {
    match p.pc
    case CmIdle => true
    case Ensuring(c) => CopyUpTo(Starter, st, c) && !c.deleting && Starter in c.finalizers && c.version <= p.seen
    case Cleaning(c, i, failed) =>
      CopyUpTo(Starter, st, c) && c.deleting && c.version <= p.seen && p.cancelled
      && i <= n && (!failed ==> p.passed == Below(i))
    case Dropping(c) =>
      CopyUpTo(Starter, st, c) && c.deleting && c.version <= p.seen && p.cancelled
      && p.passed == Below(n) && p.swept == Some(c.version)
  }

  /** Version v is of the last incarnation and was being deleted. */
  ghost predicate Deleted(st: Store, v: nat)
    requires |st.history| > 0
  {
    v < |st.history| && st.history[v].deleting && st.history[v].uid == st.Last().uid
  }

  /** All clean functions succeeded in a pass over this incarnation, and only deleting versions can be read. */
  ghost predicate CmRetired(st: Store, p: StarterState)
    requires |st.history| > 0
  {
    && p.swept.Some? && Deleted(st, p.swept.value)
    && (p.start ==> p.cancelled)
    && p.seen < |st.history| && st.history[p.seen].uid == st.Last().uid
    && (forall v :: p.seen <= v < |st.history| ==> st.history[v].deleting)
    && (p.pc.Cleaning? ==> Deleted(st, p.pc.held.version))
  }

  ghost predicate CmInv(st: Store, n: nat, p: StarterState) {
    && (p.seen == 0 || p.seen < |st.history|)
    && (forall k :: k in p.dirty ==> k < n)
    && (p.cache.Some? ==> CopyUpTo(Starter, st, p.cache.value) && p.cache.value.version == p.seen)
    && CmPcOk(st, n, p)
    && (|st.history| > 0 && st.Left(Starter) ==> CmRetired(st, p))
  }

  lemma CmStable(st: Store, st': Store, n: nat, p: StarterState)
    requires st.Ok() && CmInv(st, n, p) && Evolves(Starter, st, st')
    ensures CmInv(st', n, p)
  {
    if |st'.history| > 0 && st'.Left(Starter) {
      LeftBefore(Starter, st, st');
      assert st.history[p.seen].deleting;
      assert st.Last().deleting;
    }
  }

  lemma CmReturnKeeps(st: Store, n: nat, p: StarterState)
    requires CmInv(st, n, p)
    ensures CmInv(st, n, p.(pc := CmIdle))
  {
  }

  lemma CmEnsureKeeps(st: Store, n: nat, p: StarterState)
    requires st.Ok() && CmInv(st, n, p) && p.pc.Ensuring? && st.Admits(p.pc.held)
    ensures var st' := st.Commit(p.pc.held); st'.Ok() && CmInv(st', n, p.(pc := CmIdle))
  {
    var c := p.pc.held;
    CommitShape(st, c);
    assert st.Commit(c).Holds(Starter);
  }

  lemma CmDropRetires(st: Store, n: nat, p: StarterState)
    requires st.Ok() && CmInv(st, n, p) && p.pc.Dropping? && st.Admits(p.pc.held)
    ensures var st' := st.Commit(p.pc.held); st'.Ok() && |st'.history| > 0 && CmRetired(st', p.(pc := CmIdle))
  {
    CommitShape(st, p.pc.held);
  }

  lemma CmDropKeeps(st: Store, n: nat, p: StarterState)
    requires st.Ok() && CmInv(st, n, p) && p.pc.Dropping? && st.Admits(p.pc.held)
    ensures var st' := st.Commit(p.pc.held); st'.Ok() && CmInv(st', n, p.(pc := CmIdle))
  {
    CommitShape(st, p.pc.held);
    CmDropRetires(st, n, p);
  }

  lemma CmWriteKeeps(st: Store, n: nat, p: StarterState, reach: bool)
    requires st.Ok() && CmInv(st, n, p) && CmStep(st, n, p, CmWrite(reach)).Some?
    ensures var r := CmStep(st, n, p, CmWrite(reach)).value; r.0.Ok() && CmInv(r.0, n, r.1)
  {
    if !(reach && st.Admits(p.pc.held)) {
      CmReturnKeeps(st, n, p);
    } else if p.pc.Ensuring? {
      CmEnsureKeeps(st, n, p);
    } else {
      CmDropKeeps(st, n, p);
    }
  }

  lemma CmReadKeeps(st: Store, n: nat, p: StarterState, aliased: bool)
    requires st.Ok() && CmInv(st, n, p) && CmStep(st, n, p, CmRead(aliased)).Some?
    ensures var r := CmStep(st, n, p, CmRead(aliased)).value; r.0 == st && CmInv(st, n, r.1)
  {
    assert st.history[p.seen].deleting == p.cache.value.deleting;
  }

  /** A complete pass is recorded, and the informer's copy may be edited along with the held object. */
  lemma CmSweptKeeps(st: Store, n: nat, p: StarterState, p': StarterState, c': Cluster, aliased: bool)
    requires st.Ok() && CmInv(st, n, p) && p.pc.Cleaning? && p.pc.next == n && !p.pc.failed
    requires var c := p.pc.held;
             && c' == c.(finalizers := c.finalizers - {Starter})
             && p' == p.(swept := Some(c.version), cache := Poison(p.cache, c', aliased), pc := Dropping(c'))
    ensures CmInv(st, n, p')
  {
    assert CopyUpTo(Starter, st, c');
    assert p'.cache.Some? ==> CopyUpTo(Starter, st, p'.cache.value) && p'.cache.value.version == p'.seen;
  }

  lemma CmCleanEndKeeps(st: Store, n: nat, p: StarterState, aliased: bool)
    requires st.Ok() && CmInv(st, n, p) && CmStep(st, n, p, CleanEnd(aliased)).Some?
    ensures var r := CmStep(st, n, p, CleanEnd(aliased)).value; r.0 == st && CmInv(st, n, r.1)
  {
    var r := CmStep(st, n, p, CleanEnd(aliased)).value;
    var c := p.pc.held;
    if !p.pc.failed && Starter in c.finalizers {
      CmSweptKeeps(st, n, p, r.1, c.(finalizers := c.finalizers - {Starter}), aliased);
    }
  }

  lemma CmCleanKeeps(st: Store, n: nat, p: StarterState, i: nat, applied: bool, ok: bool)
    requires st.Ok() && CmInv(st, n, p) && CmStep(st, n, p, Clean(i, applied, ok)).Some?
    ensures var r := CmStep(st, n, p, Clean(i, applied, ok)).value; r.0 == st && CmInv(st, n, r.1)
  {
    assert Below(i + 1) == Below(i) + {i};
  }

  lemma CmOtherKeeps(st: Store, n: nat, p: StarterState, e: CmEvent)
    requires e.Deliver? || e.Produce? || e.CmAbort? || e.CmCrash?
    requires st.Ok() && CmInv(st, n, p) && CmStep(st, n, p, e).Some?
    ensures var r := CmStep(st, n, p, e).value; r.0 == st && CmInv(st, n, r.1)
  {
  }

  lemma CmKeeps(st: Store, n: nat, p: StarterState, e: CmEvent)
    requires st.Ok() && CmInv(st, n, p) && CmStep(st, n, p, e).Some?
    ensures var r := CmStep(st, n, p, e).value; r.0.Ok() && CmInv(r.0, n, r.1)
  {
    match e
    case CmWrite(reach) => CmWriteKeeps(st, n, p, reach);
    case CmRead(aliased) => CmReadKeeps(st, n, p, aliased);
    case Clean(i, applied, ok) => CmCleanKeeps(st, n, p, i, applied, ok);
    case CleanEnd(aliased) => CmCleanEndKeeps(st, n, p, aliased);
    case _ => CmOtherKeeps(st, n, p, e);
  }

  lemma CmEvolves(f: Finalizer, st: Store, n: nat, p: StarterState, e: CmEvent)
    requires f != Starter && st.Ok() && CmInv(st, n, p) && CmStep(st, n, p, e).Some?
    ensures Evolves(f, st, CmStep(st, n, p, e).value.0)
  {
    if e.CmWrite? {
      PutEvolves(Starter, f, st, p.pc.held, e.reach);
    }
  }

  /**
    What also holds as long as the sub-controllers create nothing once they have been told to stop:
    a pass without failure leaves nothing, and nothing is left when the finalizer has gone.
  */
  ghost predicate CmQuiet(st: Store, p: StarterState) {
    && (p.pc.Cleaning? && !p.pc.failed ==> forall k: nat :: k < p.pc.next ==> k !in p.dirty)
    && (p.pc.Dropping? ==> p.dirty == {})
    && (|st.history| > 0 && st.Left(Starter) ==> p.dirty == {})
  }

  lemma CmQuietStable(st: Store, st': Store, p: StarterState)
    requires st.Ok() && CmQuiet(st, p) && Evolves(Starter, st, st')
    ensures CmQuiet(st', p)
  {
    if |st'.history| > 0 && st'.Left(Starter) {
      LeftBefore(Starter, st, st');
    }
  }

  lemma CmQuietKeeps(st: Store, n: nat, p: StarterState, e: CmEvent)
    requires st.Ok() && CmInv(st, n, p) && CmQuiet(st, p) && CmStep(st, n, p, e).Some?
    requires !(e.Produce? && p.cancelled)
    ensures var r := CmStep(st, n, p, e).value; CmQuiet(r.0, r.1)
  {
    match e
    case CmWrite(reach) =>
      if reach && st.Admits(p.pc.held) {
        CommitShape(st, p.pc.held);
        if p.pc.Ensuring? {
          assert st.Commit(p.pc.held).Holds(Starter);
        }
      }
    case CleanEnd(_) =>
      if !p.pc.failed {
        assert p.dirty == {};
      }
    case _ =>
  }

  // ---------------------------------------------------------------------------------------------
  // The cluster controller
  // ---------------------------------------------------------------------------------------------

  /** Every context created so far, except the registered one, is cancelled. */
  ghost predicate OnlyRegisteredRuns(p: TreeState) {
    forall i: nat :: i < p.contexts ==> i in p.cancelled || p.cancel == Some(i)
  }

  /** Past the finalizer step with an object that is not being deleted. */
  predicate Building(pc: CtPc) {
    (pc.Clearing? && !pc.held.deleting) || pc.CreatingNodes?
  }

  ghost predicate CtPcOk(st: Store, name: string, p: TreeState) {
    match p.pc
    case CtIdle => true
    case CtAdding(c) =>
      CopyUpTo(Tree, st, c) && !c.deleting && Tree in c.finalizers && p.seen == c.version
    case Clearing(c) =>
      c.version < |st.history| && c == st.history[c.version] && (c.deleting ==> p.seen == c.version)
    case DeletingNode(c) =>
      p.seen < |st.history| && c == st.history[p.seen] && c.deleting && p.manager.None?
    case CtRemoving(c) =>
      CopyUpTo(Tree, st, c) && c.deleting && p.seen == c.version && Tree !in c.finalizers
      && p.manager.None? && name !in p.nodes
    case CreatingNodes(c, i) =>
      c.version < |st.history| && c == st.history[c.version] && c.tree
      && i <= |RootNodes(name, c.models)| && !c.deleting && p.manager.None?
  }

  ghost predicate CtRetired(st: Store, name: string, p: TreeState)
    requires |st.history| > 0
  {
    && p.manager.None?
    && name !in p.nodes
    && p.seen < |st.history|
    && (forall v :: p.seen <= v < |st.history| ==> st.history[v].deleting)
    && (p.pc.CtIdle? || (p.pc.held.deleting && !p.pc.CreatingNodes? && !p.pc.CtAdding?))
  }

  /** The part of the invariant that does not mention the store. */
  ghost predicate CtLocal(name: string, p: TreeState) {
    && p.manager == p.cancel
    && (p.cancel.Some? ==> p.cancel.value < p.contexts)
    && OnlyRegisteredRuns(p)
    && p.nodes <= p.made
    && p.made - {name} <= p.nodes
  }

  /** Some stored version has a leaf model from which the node name comes. */
  ghost predicate Derived(st: Store, name: string, node: string) {
    exists v :: 0 <= v < |st.history| && st.history[v].tree && node in RootNodes(name, st.history[v].models)
  }

  ghost predicate AllDerived(st: Store, name: string, nodes: set<string>) {
    forall x | x in nodes :: Derived(st, name, x)
  }

  ghost predicate CtLinked(st: Store, name: string, p: TreeState) {
    && (p.seen == 0 || p.seen < |st.history|)
    && CtPcOk(st, name, p)
    // a readable version that holds the finalizer and is not deleting is of the object that exists now
    && (forall v :: p.seen <= v < |st.history| && !st.history[v].deleting && Tree in st.history[v].finalizers ==>
          st.Holds(Tree))
    && (p.manager.Some? || Building(p.pc) ==> st.Holds(Tree))
    && (|st.history| > 0 && st.Left(Tree) ==> CtRetired(st, name, p))
  }

  ghost predicate CtInv(st: Store, name: string, p: TreeState) {
    CtLocal(name, p) && CtLinked(st, name, p) && AllDerived(st, name, p.made)
  }

  lemma DerivedStable(st: Store, st': Store, name: string, nodes: set<string>)
    requires AllDerived(st, name, nodes) && st.history <= st'.history
    ensures AllDerived(st', name, nodes)
  {
    forall x | x in nodes ensures Derived(st', name, x) {
      assert Derived(st, name, x);
      var v :| 0 <= v < |st.history| && st.history[v].tree && x in RootNodes(name, st.history[v].models);
      assert st'.history[v] == st.history[v];
    }
  }

  lemma CtStable(st: Store, st': Store, name: string, p: TreeState)
    requires st.Ok() && CtInv(st, name, p) && Evolves(Tree, st, st')
    ensures CtInv(st', name, p)
  {
    DerivedStable(st, st', name, p.made);
    if |st'.history| > 0 && st'.Left(Tree) {
      LeftBefore(Tree, st, st');
      assert st.history[p.seen].deleting;
      assert st.Last().deleting;
    }
    forall v | p.seen <= v < |st'.history| && !st'.history[v].deleting && Tree in st'.history[v].finalizers
      ensures st'.Holds(Tree)
    {
      if v < |st.history| {
        assert st.history[v] == st'.history[v];
      }
    }
  }

  lemma CtReturnKeeps(st: Store, name: string, p: TreeState)
    requires CtLinked(st, name, p)
    ensures CtLinked(st, name, p.(pc := CtIdle))
  {
  }

  lemma CtRemoveKeeps(st: Store, name: string, p: TreeState)
    requires st.Ok() && CtLinked(st, name, p) && p.pc.CtRemoving? && st.Admits(p.pc.held)
    ensures var st' := st.Commit(p.pc.held); st'.Ok() && CtLinked(st', name, p.(pc := CtIdle))
  {
    var c := p.pc.held;
    CommitShape(st, c);
    var st' := st.Commit(c);
    assert st'.history[p.seen] == st.history[p.seen];
    assert forall v :: p.seen <= v < |st'.history| ==> st'.history[v].deleting;
  }

  lemma CtAddKeeps(st: Store, name: string, p: TreeState)
    requires st.Ok() && CtLinked(st, name, p) && p.pc.CtAdding? && st.Admits(p.pc.held)
    ensures var st' := st.Commit(p.pc.held);
            && st'.Ok() && st'.live && CtLinked(st', name, p.(pc := Clearing(st'.Last())))
  {
    var c := p.pc.held;
    CommitShape(st, c);
    assert st.Commit(c).Holds(Tree);
  }

  lemma CtWriteKeeps(st: Store, name: string, p: TreeState, reach: bool, ok: bool)
    requires st.Ok() && CtInv(st, name, p) && CtStep(st, name, p, CtWrite(reach, ok)).Some?
    ensures var r := CtStep(st, name, p, CtWrite(reach, ok)).value; r.0.Ok() && CtInv(r.0, name, r.1)
  {
    DerivedStable(st, st.Put(p.pc.held, reach), name, p.made);
    if !(reach && st.Admits(p.pc.held)) {
      CtReturnKeeps(st, name, p);
    } else if p.pc.CtAdding? {
      CtAddKeeps(st, name, p);
      var st' := st.Commit(p.pc.held);
      CtReturnKeeps(st', name, p.(pc := Clearing(st'.Last())));
    } else {
      CtRemoveKeeps(st, name, p);
    }
  }

  lemma CtReadKeeps(st: Store, name: string, p: TreeState, v: nat)
    requires st.Ok() && CtInv(st, name, p) && CtStep(st, name, p, CtRead(v)).Some?
    ensures var r := CtStep(st, name, p, CtRead(v)).value; r.0 == st && CtInv(st, name, r.1)
  {
  }

  lemma CtClearKeeps(st: Store, name: string, p: TreeState)
    requires st.Ok() && CtInv(st, name, p) && CtStep(st, name, p, Clear).Some?
    ensures var r := CtStep(st, name, p, Clear).value; r.0 == st && CtInv(st, name, r.1)
  {
  }

  lemma CtDeleteNodeKeeps(st: Store, name: string, p: TreeState, applied: bool, ok: bool)
    requires st.Ok() && CtInv(st, name, p) && CtStep(st, name, p, DeleteNode(applied, ok)).Some?
    ensures var r := CtStep(st, name, p, DeleteNode(applied, ok)).value; r.0 == st && CtInv(st, name, r.1)
  {
  }

  lemma CtCreateNodeKeeps(st: Store, name: string, p: TreeState, applied: bool, ok: bool)
    requires st.Ok() && CtInv(st, name, p) && CtStep(st, name, p, CreateNode(applied, ok)).Some?
    ensures var r := CtStep(st, name, p, CreateNode(applied, ok)).value; r.0 == st && CtInv(st, name, r.1)
  {
    var c := p.pc.held;
    assert RootNodes(name, c.models)[p.pc.next] in RootNodes(name, st.history[c.version].models);
    assert Derived(st, name, RootNodes(name, c.models)[p.pc.next]);
  }

  lemma CtOtherKeeps(st: Store, name: string, p: TreeState, e: CtEvent)
    requires e.Register? || e.CtAbort? || e.CtCrash?
    requires st.Ok() && CtInv(st, name, p) && CtStep(st, name, p, e).Some?
    ensures var r := CtStep(st, name, p, e).value; r.0 == st && CtInv(st, name, r.1)
  {
  }

  lemma CtKeeps(st: Store, name: string, p: TreeState, e: CtEvent)
    requires st.Ok() && CtInv(st, name, p) && CtStep(st, name, p, e).Some?
    ensures var r := CtStep(st, name, p, e).value; r.0.Ok() && CtInv(r.0, name, r.1)
  {
    match e
    case CtWrite(reach, ok) => CtWriteKeeps(st, name, p, reach, ok);
    case CtRead(v) => CtReadKeeps(st, name, p, v);
    case Clear => CtClearKeeps(st, name, p);
    case DeleteNode(applied, ok) => CtDeleteNodeKeeps(st, name, p, applied, ok);
    case CreateNode(applied, ok) => CtCreateNodeKeeps(st, name, p, applied, ok);
    case _ => CtOtherKeeps(st, name, p, e);
  }

  lemma CtEvolves(f: Finalizer, st: Store, name: string, p: TreeState, e: CtEvent)
    requires f != Tree && st.Ok() && CtInv(st, name, p) && CtStep(st, name, p, e).Some?
    ensures Evolves(f, st, CtStep(st, name, p, e).value.0)
  {
    if e.CtWrite? {
      PutEvolves(Tree, f, st, p.pc.held, e.reach);
    }
  }

  // ---------------------------------------------------------------------------------------------
  // Whole runs
  // ---------------------------------------------------------------------------------------------

  ghost predicate Inv(s: State) {
    s.store.Ok() && OpInv(s.store, s.op) && CmInv(s.store, s.cleanFuncs, s.cm) && CtInv(s.store, s.name, s.ct)
  }

  lemma StepKeeps(s: State, e: Event)
    requires Inv(s) && Step(s, e).Some?
    ensures Inv(Step(s, e).value)
  {
    var s' := Step(s, e).value;
    match e
    case User(u) =>
      UserEvolves(Operator, s.store, u); UserEvolves(Starter, s.store, u); UserEvolves(Tree, s.store, u);
      EvolvesOk(Tree, s.store, s'.store);
      OpStable(s.store, s'.store, s.op);
      CmStable(s.store, s'.store, s.cleanFuncs, s.cm);
      CtStable(s.store, s'.store, s.name, s.ct);
    case Op(o) =>
      OpKeeps(s.store, s.op, o);
      OpEvolves(Starter, s.store, s.op, o); OpEvolves(Tree, s.store, s.op, o);
      CmStable(s.store, s'.store, s.cleanFuncs, s.cm);
      CtStable(s.store, s'.store, s.name, s.ct);
    case Cm(m) =>
      CmKeeps(s.store, s.cleanFuncs, s.cm, m);
      CmEvolves(Operator, s.store, s.cleanFuncs, s.cm, m); CmEvolves(Tree, s.store, s.cleanFuncs, s.cm, m);
      OpStable(s.store, s'.store, s.op);
      CtStable(s.store, s'.store, s.name, s.ct);
    case Ct(t) =>
      CtKeeps(s.store, s.name, s.ct, t);
      CtEvolves(Operator, s.store, s.name, s.ct, t); CtEvolves(Starter, s.store, s.name, s.ct, t);
      OpStable(s.store, s'.store, s.op);
      CmStable(s.store, s'.store, s.cleanFuncs, s.cm);
  }

  lemma {:induction false} ReplayKeeps(s: State, run: seq<Event>)
    requires Inv(s) && Replay(s, run).Some?
    ensures Inv(Replay(s, run).value)
  {
    if run != [] {
      ReplayKeeps(s, run[..|run| - 1]);
      StepKeeps(Replay(s, run[..|run| - 1]).value, run[|run| - 1]);
    }
  }
}
