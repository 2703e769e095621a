/**
  The three Reconcile procedures as the imperative programs they are, run by goroutines that share
  the API server.  Between any two of its calls a procedure is interrupted by arbitrary steps of the
  users and of the other two controllers, and every call may fail.  Each procedure is proved to
  perform a run of the Lifecycle state machine, so everything LifecycleTheorems says of all runs
  holds of every interleaving of these procedures.
*/
module LifecycleControllers {
  import opened Options
  import opened Sequences
  import opened Lifecycle
  import opened LifecycleSafety
  import opened LifecycleTheorems

  /** What happens at one call: the steps others take first, whether it takes effect, whether it reports success. */
  datatype Call = Call(before: seq<Event>, applied: bool, ok: bool)

  datatype Read = NotFound | Failed | Got(version: nat)

  datatype Who = TheOperator | TheStarter | TheTree

  /**
    Steps that the goroutine of `who` takes itself. The informer and the sub-controllers of the
    controller-manager are goroutines of their own.
  */
  predicate TakenBy(who: Who, e: Event) {
    match who
    case TheOperator => e.Op?
    case TheStarter => e.Cm? && !e.m.Deliver? && !e.m.Produce?
    case TheTree => e.Ct?
  }

  /** The steps of a run that `who` took, in order. */
  ghost function Own(who: Who, run: seq<Event>): seq<Event> {
    StepsOf((e: Event) => TakenBy(who, e), run)
  }

  lemma OwnAppend(who: Who, run: seq<Event>, e: Event)
    ensures Own(who, run + [e]) == Own(who, run) + (if TakenBy(who, e) then [e] else [])
  {
    StepsOfAppend((e: Event) => TakenBy(who, e), run, e);
  }

  /** A call that reports success has taken effect. */
  function Effect(call: Call): bool {
    call.applied || call.ok
  }

  /** The update finds the version it is about, takes effect, and the caller hears so. */
  predicate Accepted(at: Store, c: Cluster, call: Call) {
    call.applied && call.ok && at.Admits(c)
  }

  /** An update: the position of its step in the run, and the store that it finds. */
  datatype Sending = Sending(step: nat, at: Store)

  /** The store that a run leads to. */
  ghost function StoreAfter(name: string, cleanFuncs: nat, run: seq<Event>): Option<Store> {
    match Replay(Init(name, cleanFuncs), run)
    case None => None
    case Some(s) => Some(s.store)
  }

  lemma PrefixSame(run: seq<Event>, run': seq<Event>, k: nat)
    requires run <= run' && k <= |run|
    ensures run'[..k] == run[..k] && (k < |run| ==> run'[k] == run[k])
  {
  }

  function Plus(c: Cluster, f: Finalizer): Cluster {
    c.(finalizers := c.finalizers + {f})
  }

  function Minus(c: Cluster, f: Finalizer): Cluster {
    c.(finalizers := c.finalizers - {f})
  }

  /**
    The goroutine's own part of the controller-manager: not the informer's copy, and not what
    sub-controllers create.
  */
  predicate SameStarter(p: StarterState, q: StarterState) {
    p.start == q.start && p.cancelled == q.cancelled && p.passed == q.passed && p.swept == q.swept && p.pc == q.pc
  }

  ghost predicate AllOk(calls: nat -> Call, n: nat) {
    forall k: nat :: k < n ==> calls(k).ok
  }

  ghost predicate OkFrom(calls: nat -> Call, i: nat, n: nat) {
    forall k: nat :: i <= k < n ==> calls(k).ok
  }

  lemma OkFromStep(calls: nat -> Call, i: nat, n: nat)
    requires calls(i).ok && OkFrom(calls, i + 1, n)
    ensures OkFrom(calls, i, n)
  {
  }

  lemma NoneFromStep(installed: set<nat>, i: nat)
    requires HasNoneFrom(installed, i + 1)
    ensures HasNoneFrom(installed - {i}, i)
  {
  }

  lemma FailedAt(calls: nat -> Call, i: nat, n: nat)
    requires i < n && !calls(i).ok
    ensures !AllOk(calls, n)
  {
  }

  /** Add-ons i, i+1, ..., n-1 in installer order, up to the first failure. */
  ghost function InstallTrace(calls: nat -> Call, i: nat, n: nat): seq<Event>
    decreases n - i
  {
    if i >= n then []
    else
      [Op(Install(Effect(calls(i)), calls(i).ok))] + (if calls(i).ok then InstallTrace(calls, i + 1, n) else [])
  }

  /** Add-ons i-1, i-2, ..., 0, up to the first failure. */
  ghost function UninstallTrace(calls: nat -> Call, i: nat): seq<Event> {
    if i == 0 then []
    else [Op(Uninstall(Effect(calls(i - 1)), calls(i - 1).ok))]
         + (if calls(i - 1).ok then UninstallTrace(calls, i - 1) else [])
  }

  lemma UninstallTraceStep(calls: nat -> Call, i: nat, done: seq<Event>)
    requires i > 0
    ensures var e := [Op(Uninstall(Effect(calls(i - 1)), calls(i - 1).ok))];
            done + UninstallTrace(calls, i)
            == if calls(i - 1).ok then (done + e) + UninstallTrace(calls, i - 1) else done + e
  {
  }

  ghost predicate HasBelow(installed: set<nat>, n: nat) {
    forall k: nat :: k < n ==> k in installed
  }

  ghost predicate HasNoneFrom(installed: set<nat>, n: nat) {
    forall k: nat :: k in installed ==> k < n
  }

  /** Where the operator is after i add-ons are in. */
  function AfterInstall(c: Cluster, i: nat): OpPc {
    if i < ADDONS then Installing(c, i)
    else if Operator in c.finalizers then OpIdle
    else OpAdding(Plus(c, Operator))
  }

  /** Where the operator is when i add-ons are still to be removed. */
  function AfterUninstall(c: Cluster, i: nat): OpPc {
    if i > 0 then Uninstalling(c, i)
    else if Operator in c.finalizers then OpRemoving(Minus(c, Operator))
    else OpIdle
  }

  ghost function SyncTrace(c: Cluster, calls: nat -> Call): seq<Event> {
    InstallTrace(calls, 0, ADDONS)
    + (if AllOk(calls, ADDONS) && Operator !in c.finalizers then [Op(OpWrite(calls(ADDONS).applied))] else [])
  }

  ghost function RemoveTrace(c: Cluster, calls: nat -> Call): seq<Event> {
    UninstallTrace(calls, ADDONS)
    + (if AllOk(calls, ADDONS) && Operator in c.finalizers then [Op(OpWrite(calls(ADDONS).applied))] else [])
  }

  /**
    What the operator does about version v of the object, which is c; `completeOk` is whether its
    options can be completed.
  */
  ghost function OperatorTrace(v: nat, c: Cluster, completeOk: bool, calls: nat -> Call): seq<Event> {
    [Op(OpRead(v))] +
    if c.deleting && |c.finalizers| == 1 then (if completeOk then RemoveTrace(c, calls) else [Op(OpAbort)])
    else if !c.link then []
    else if completeOk then SyncTrace(c, calls) else [Op(OpAbort)]
  }

  /** Clean functions i, i+1, ..., n-1, whatever fails. */
  ghost function CleanTrace(calls: nat -> Call, i: nat, n: nat): seq<Event>
    decreases n - i
  {
    if i >= n then [] else [Cm(Clean(i, Effect(calls(i)), calls(i).ok))] + CleanTrace(calls, i + 1, n)
  }

  lemma CleanTraceStep(calls: nat -> Call, i: nat, n: nat, done: seq<Event>)
    requires i < n
    ensures done + CleanTrace(calls, i, n)
            == done + [Cm(Clean(i, Effect(calls(i)), calls(i).ok))] + CleanTrace(calls, i + 1, n)
  {
  }

  ghost function CleanEndTrace(c: Cluster, n: nat, aliased: bool, calls: nat -> Call): seq<Event> {
    [Cm(CleanEnd(aliased))]
    + (if AllOk(calls, n) && Starter in c.finalizers then [Cm(CmWrite(calls(n).applied))] else [])
  }

  ghost function CleanUpTrace(c: Cluster, n: nat, aliased: bool, calls: nat -> Call): seq<Event> {
    CleanTrace(calls, 0, n) + CleanEndTrace(c, n, aliased, calls)
  }

  ghost function StarterTrace(c: Cluster, started: bool, n: nat, aliased: bool, calls: nat -> Call): seq<Event> {
    [Cm(CmRead(aliased))] +
    if c.deleting then CleanUpTrace(c, n, aliased, calls)
    else if !started && Starter !in c.finalizers then [Cm(CmWrite(calls(0).applied))]
    else []
  }

  /** Root nodes i, i+1, ..., n-1, up to the first failure; after the last one the manager is registered. */
  ghost function CreateTrace(calls: nat -> Call, i: nat, n: nat): seq<Event>
    decreases n - i
  {
    if i >= n then [Ct(Register)]
    else
      [Ct(CreateNode(Effect(NodeCall(calls, i)), NodeCall(calls, i).ok))]
      + (if NodeCall(calls, i).ok then CreateTrace(calls, i + 1, n) else [])
  }

  lemma CreateTraceStep(calls: nat -> Call, i: nat, n: nat, done: seq<Event>)
    requires i < n
    ensures var e := [Ct(CreateNode(Effect(NodeCall(calls, i)), NodeCall(calls, i).ok))];
            done + CreateTrace(calls, i, n)
            == if NodeCall(calls, i).ok then (done + e) + CreateTrace(calls, i + 1, n) else done + e
  {
  }

  ghost function NodeTrace(c: Cluster, calls: nat -> Call): seq<Event> {
    [Ct(DeleteNode(Effect(calls(1)), calls(1).ok))]
    + (if calls(1).ok && Tree in c.finalizers then [Ct(CtWrite(calls(2).applied, calls(2).ok))] else [])
  }

  ghost function ManagerTrace(nodes: nat, calls: nat -> Call): seq<Event> {
    if !calls(3).ok then [Ct(CtAbort)] else CreateTrace(calls, 0, nodes)
  }

  /** The leaf answers, every root node is created and the sub-controllers are set up. */
  ghost predicate ManagerOk(nodes: nat, calls: nat -> Call) {
    calls(3).ok && NodesOk(calls, nodes) && NodeCall(calls, nodes).ok
  }

  /** The call that creates the k-th root node. */
  function NodeCall(calls: nat -> Call, k: nat): Call {
    calls(4 + k)
  }

  ghost predicate NodesOk(calls: nat -> Call, n: nat) {
    forall k: nat :: k < n ==> NodeCall(calls, k).ok
  }

  /** When a call of the operator fails; `at` is the store that its update finds. */
  ghost predicate OperatorFails(c: Cluster, completeOk: bool, calls: nat -> Call, at: Store) {
    if c.deleting && |c.finalizers| == 1 then
      !completeOk || !AllOk(calls, ADDONS)
          || (Operator in c.finalizers && !Accepted(at, Minus(c, Operator), calls(ADDONS)))
    else
      c.link && (!completeOk || !AllOk(calls, ADDONS)
                 || (Operator !in c.finalizers && !Accepted(at, Plus(c, Operator), calls(ADDONS))))
  }

  /** Whether a call of the operator gets as far as its update. */
  ghost predicate OperatorSends(c: Cluster, completeOk: bool, calls: nat -> Call) {
    && completeOk && AllOk(calls, ADDONS)
    && if c.deleting && |c.finalizers| == 1 then Operator in c.finalizers else c.link && Operator !in c.finalizers
  }

  ghost predicate StarterSends(c: Cluster, started: bool, n: nat, calls: nat -> Call) {
    if c.deleting then AllOk(calls, n) && Starter in c.finalizers else !started && Starter !in c.finalizers
  }

  ghost predicate TreeSends(c: Cluster, calls: nat -> Call) {
    if c.deleting then calls(1).ok && Tree in c.finalizers else NeedsFinalizer(c)
  }

  function TreeWrite(c: Cluster, calls: nat -> Call): Event {
    var call := calls(if c.deleting then 2 else 0);
    Ct(CtWrite(call.applied, call.ok))
  }

  ghost predicate StarterFails(c: Cluster, started: bool, n: nat, calls: nat -> Call, at: Store) {
    if c.deleting then !AllOk(calls, n) || (Starter in c.finalizers && !Accepted(at, Minus(c, Starter), calls(n)))
    else !started && Starter !in c.finalizers && !Accepted(at, Plus(c, Starter), calls(0))
  }

  ghost predicate TreeFails(c: Cluster, nodes: nat, calls: nat -> Call, at: Store) {
    if c.deleting then !calls(1).ok || (Tree in c.finalizers && !Accepted(at, Minus(c, Tree), calls(2)))
    else (NeedsFinalizer(c) && !Accepted(at, Plus(c, Tree), calls(0))) || (c.tree && !ManagerOk(nodes, calls))
  }

  ghost predicate Created(names: seq<string>, n: nat, nodes: set<string>)
    requires n <= |names|
  {
    forall k | 0 <= k < n :: names[k] in nodes
  }

  predicate NeedsFinalizer(c: Cluster) {
    !c.deleting && Tree !in c.finalizers
  }

  /** How the cluster controller begins on version v of the object, which is c. */
  ghost function FinalizerTrace(v: nat, c: Cluster, calls: nat -> Call): seq<Event> {
    [Ct(CtRead(v))] + if NeedsFinalizer(c) then [Ct(CtWrite(calls(0).applied, calls(0).ok))] else []
  }

  /** What the cluster controller does once the finalizer is settled. */
  ghost function SettledTrace(c: Cluster, nodes: nat, calls: nat -> Call): seq<Event> {
    [Ct(Clear)] +
    if c.deleting then NodeTrace(c, calls)
    else if !c.tree then []
    else ManagerTrace(nodes, calls)
  }

  /** The same object for the purposes of the cluster controller: only the finalizer write lies between. */
  predicate SameTask(c: Cluster, c': Cluster) {
    c'.deleting == c.deleting && c'.tree == c.tree && c'.models == c.models
    && (c.deleting ==> c'.finalizers == c.finalizers)
  }

  lemma OperatorCommits(st: Store, p: OperatorState, c: Cluster)
    requires st.Ok() && OpInv(st, p) && (p.pc == OpAdding(c) || p.pc == OpRemoving(c))
    ensures st.Admits(c) ==> if p.pc.OpAdding? then st.Commit(c).Holds(Operator) else !st.Commit(c).live
  {
    if st.Admits(c) {
      CommitShape(st, c);
    }
  }

  lemma StarterCommits(st: Store, n: nat, p: StarterState, c: Cluster)
    requires st.Ok() && CmInv(st, n, p) && (p.pc == Ensuring(c) || p.pc == Dropping(c))
    ensures st.Admits(c) ==> (st.Commit(c).Holds(Starter) <==> Starter in c.finalizers)
  {
    if st.Admits(c) {
      CommitShape(st, c);
    }
  }

  lemma TreeCommits(st: Store, name: string, p: TreeState, c: Cluster)
    requires st.Ok() && CtInv(st, name, p) && (p.pc == CtAdding(c) || p.pc == CtRemoving(c))
    ensures st.Admits(c) && p.pc.CtAdding? ==> st.Commit(c).live && st.Commit(c).Last() == c.(version := |st.history|)
    ensures st.Admits(c) && p.pc.CtRemoving? ==> !st.Commit(c).Holds(Tree)
  {
    if st.Admits(c) {
      CommitShape(st, c);
    }
  }

  // What the steps of the add-ons, the clean functions and the registration come to

  lemma InstallStep(s: State, c: Cluster, i: nat, applied: bool, ok: bool)
    requires s.op.pc == Installing(c, i) && i < ADDONS && (ok ==> applied)
    ensures Step(s, Op(OpEvent.Install(applied, ok)))
            == Some(s.(op := s.op.(installed := if applied then s.op.installed + {i} else s.op.installed,
                                   pc := if ok then AfterInstall(c, i + 1) else OpIdle)))
  {
  }

  lemma CleanFuncStep(s: State, c: Cluster, i: nat, failed: bool, applied: bool, ok: bool)
    requires s.cm.pc == Cleaning(c, i, failed) && i < s.cleanFuncs && (ok ==> applied)
    ensures Step(s, Cm(Clean(i, applied, ok)))
            == Some(s.(cm := s.cm.(dirty := if applied then s.cm.dirty - {i} else s.cm.dirty,
                                   passed := if ok then s.cm.passed + {i} else s.cm.passed,
                                   pc := Cleaning(c, i + 1, failed || !ok))))
  {
  }

  lemma RegisterStep(s: State, c: Cluster)
    requires s.ct.pc == CreatingNodes(c, |RootNodes(s.name, c.models)|)
    ensures Step(s, Ct(Register))
            == Some(s.(ct := s.ct.(manager := Some(s.ct.contexts), cancel := Some(s.ct.contexts),
                                   contexts := s.ct.contexts + 1, pc := CtIdle)))
  {
  }

  class ControlPlane {
    const name: string
    const cleanFuncs: nat

    var store: Store        // the API server
    var op: OperatorState   // the operator
    var cm: StarterState    // the controller-manager
    var ct: TreeState       // the cluster controller, but for the two maps below

    // managers of all clusters
    var controllerManagers: map<string, nat>
    var managerCancelFuncs: map<string, nat>

    ghost var run: seq<Event>

    function Entry(m: map<string, nat>): Option<nat> {
      if name in m then Some(m[name]) else None
    }

    function View(): State
      reads this
    {
      State(name, cleanFuncs, store, op, cm,
            ct.(manager := Entry(controllerManagers), cancel := Entry(managerCancelFuncs)))
    }

    /** The fields are what the recorded run leads to. */
    ghost predicate Valid()
      reads this
    {
      Reaches(name, cleanFuncs, run, View()) && ct.manager.None? && ct.cancel.None?
    }

    /** The maps' entries for all other clusters. */
    function Others(): (map<string, nat>, map<string, nat>)
      reads this
    {
      (controllerManagers - {name}, managerCancelFuncs - {name})
    }

    /** The run goes on from where it was, and no other cluster's manager is touched. */
    twostate predicate Continues()
      reads this
    {
      Valid() && old(run) <= run && Others() == old(Others())
    }

    /** The update is a step `e` of the run, not before position `from`, and `sent.at` is the store it finds there. */
    ghost predicate Found(sent: Sending, e: Event, from: nat)
      reads this
    {
      && from <= sent.step < |run| && run[sent.step] == e
      && StoreAfter(name, cleanFuncs, run[..sent.step]) == Some(sent.at)
    }

    /** Moreover `who` itself took exactly the steps `steps`. */
    twostate predicate Took(who: Who, steps: seq<Event>)
      reads this
    {
      Continues() && Own(who, run) == Own(who, old(run)) + steps
    }

    constructor (name: string, cleanFuncs: nat)
      ensures Valid() && run == [] && this.name == name && this.cleanFuncs == cleanFuncs
      ensures op.pc.OpIdle? && cm.pc.CmIdle? && ct.pc.CtIdle?
    {
      this.name, this.cleanFuncs := name, cleanFuncs;
      var i := Init(name, cleanFuncs);
      store, op, cm, ct := i.store, i.op, i.cm, i.ct;
      controllerManagers, managerCancelFuncs := map[], map[];
      run := [];
    }

    ghost method Log(who: Who, before: State, e: Event)
      requires Reaches(name, cleanFuncs, run, before) && Step(before, e) == Some(View()) && ct.manager.None?
               && ct.cancel.None?
      modifies this`run
      ensures Valid() && run == old(run) + [e]
      ensures Own(who, run) == Own(who, old(run)) + (if TakenBy(who, e) then [e] else [])
    {
      OwnAppend(who, run, e);
      Extend(Init(name, cleanFuncs), run, before, e, View());
      run := run + [e];
    }

    lemma OthersOf(m: map<string, nat>, v: nat)
      ensures (m - {name})[name := v] - {name} == m - {name} == m[name := v] - {name}
      ensures m - {name} - {name} == m - {name}
    {
    }

    method Load(s: State)
      requires s.name == name && s.cleanFuncs == cleanFuncs
      modifies this
      ensures View() == s && run == old(run) && Others() == old(Others()) && ct.manager.None? && ct.cancel.None?
      ensures s.ct.manager == old(View()).ct.manager ==> controllerManagers == old(controllerManagers)
      ensures s.ct.cancel == old(View()).ct.cancel ==> managerCancelFuncs == old(managerCancelFuncs)
    {
      store, op, cm, ct := s.store, s.op, s.cm, s.ct.(manager := None, cancel := None);
      controllerManagers := Enter(controllerManagers, s.ct.manager);
      managerCancelFuncs := Enter(managerCancelFuncs, s.ct.cancel);
    }

    /** The map with its entry for this cluster replaced. */
    function Enter(m: map<string, nat>, entry: Option<nat>): (m': map<string, nat>)
      ensures Entry(m') == entry && m' - {name} == m - {name}
      ensures entry == Entry(m) ==> m' == m
    {
      if entry == Entry(m) then m
      else if entry.Some? then m[name := entry.value]
      else m - {name}
    }

    /** Others run: every listed step that is possible and not the interrupted goroutine's own. */
    method Interfere(who: Who, events: seq<Event>)
      requires Valid()
      modifies this
      ensures Took(who, [])
      ensures who.TheOperator? ==> op == old(op)
      ensures who.TheStarter? ==> SameStarter(cm, old(cm))
      ensures who.TheTree? ==>
              ct == old(ct) && controllerManagers == old(controllerManagers)
                  && managerCancelFuncs == old(managerCancelFuncs)
    {
      for i := 0 to |events|
        invariant Continues() && Own(who, run) == Own(who, old(run))
        invariant who.TheOperator? ==> op == old(op)
        invariant who.TheStarter? ==> SameStarter(cm, old(cm))
        invariant who.TheTree? ==>
                  ct == old(ct) && controllerManagers == old(controllerManagers)
                      && managerCancelFuncs == old(managerCancelFuncs)
      {
        InterfereOnce(who, events[i]);
      }
    }

    method InterfereOnce(who: Who, e: Event)
      requires Valid()
      modifies this
      ensures Took(who, [])
      ensures who.TheOperator? ==> op == old(op)
      ensures who.TheStarter? ==> SameStarter(cm, old(cm))
      ensures who.TheTree? ==>
              ct == old(ct) && controllerManagers == old(controllerManagers)
                  && managerCancelFuncs == old(managerCancelFuncs)
    {
      if !TakenBy(who, e) {
        var r := Step(View(), e);
        if r.Some? {
          ghost var before := View();
          Load(r.value);
          Log(who, before, e);
        }
      }
    }

    /** The client's Update; on success the caller's object is refreshed to the stored version. */
    method Update(c: Cluster, call: Call) returns (err: bool, stored: Cluster)
      modifies this`store
      ensures store == old(store).Put(c, call.applied)
      ensures err <==> !Accepted(old(store), c, call)
      ensures !err && store.live && |store.history| > 0 ==> stored == store.Last()
    {
      err := !Accepted(store, c, call);
      store := store.Put(c, call.applied);
      stored := if |store.history| > 0 then store.Last() else c;
    }

    // -------------------------------------------------------------------------------------------
    // clusterlink operator
    // -------------------------------------------------------------------------------------------

    /** An error means exactly that the read or a step failed; success means that all add-ons are in, or all are out. */
    method OperatorReconcile(read: Read, completeOk: bool, calls: nat -> Call) returns (err: bool, ghost sent: Sending)
      requires Valid() && op.pc.OpIdle?
      requires read.Got? ==> op.seen <= read.version < |store.history|
      modifies this
      ensures Took(TheOperator,
                   if read.Got? then OperatorTrace(read.version, old(store.history)[read.version], completeOk, calls)
                   else [])
      ensures read.Got? && OperatorSends(old(store.history)[read.version], completeOk, calls) ==>
                Found(sent, Op(OpWrite(calls(ADDONS).applied)), |old(run)|)
      ensures err <==>
                || read.Failed?
                || (read.Got? && OperatorFails(old(store.history)[read.version], completeOk, calls, sent.at))
      ensures !err && read.Got? ==>
                var c := old(store.history)[read.version];
                if c.deleting && |c.finalizers| == 1 then op.installed == {}
                   && (Operator in c.finalizers ==> !store.live)
                else if c.link then op.installed == Below(ADDONS) && (Operator in c.finalizers || store.Holds(Operator))
                else op.installed == old(op.installed)
      ensures op.pc.OpIdle?
    {
      sent := Sending(|run|, store);
      if !read.Got? {
        return read.Failed?, sent;
      }
      ghost var own := Own(TheOperator, run);
      var cluster := GetAsOperator(read.version);
      if cluster.deleting && |cluster.finalizers| == 1 {
        if !completeOk {
          ReturnAsOperator();
          Regroup(own, [Op(OpRead(read.version))], [Op(OpAbort)]);
          return true, sent;
        }
        err, sent := RemoveCluster(cluster, calls);
        Regroup(own, [Op(OpRead(read.version))], RemoveTrace(cluster, calls));
      } else if !cluster.link {
        err := false;
      } else {
        if !completeOk {
          ReturnAsOperator();
          Regroup(own, [Op(OpRead(read.version))], [Op(OpAbort)]);
          return true, sent;
        }
        err, sent := SyncCluster(cluster, calls);
        Regroup(own, [Op(OpRead(read.version))], SyncTrace(cluster, calls));
      }
    }

    method ReturnAsOperator()
      requires Valid()
      modifies this
      ensures Took(TheOperator, [Op(OpAbort)]) && op == old(op).(pc := OpIdle)
    {
      ghost var before := View();
      op := op.(pc := OpIdle);
      Log(TheOperator, before, Op(OpAbort));
    }

    method GetAsOperator(v: nat) returns (cluster: Cluster)
      requires Valid() && op.pc.OpIdle? && op.seen <= v < |store.history|
      modifies this
      ensures Took(TheOperator, [Op(OpRead(v))])
      ensures cluster == old(store.history)[v] && op == old(op).(seen := v, pc := OpDispatch(cluster))
    {
      ghost var before := View();
      cluster := store.history[v];
      op := op.(seen := v, pc := OpDispatch(cluster));
      Log(TheOperator, before, Op(OpRead(v)));
    }

    /** Installs every add-on in order, then stores the finalizer. */
    method SyncCluster(cluster: Cluster, calls: nat -> Call) returns (err: bool, ghost sent: Sending)
      requires Valid() && op.pc == Installing(cluster, 0)
      modifies this
      ensures Took(TheOperator, SyncTrace(cluster, calls))
      ensures AllOk(calls, ADDONS) && Operator !in cluster.finalizers ==>
                Found(sent, Op(OpWrite(calls(ADDONS).applied)), |old(run)|)
      ensures err <==>
                || !AllOk(calls, ADDONS)
                || (Operator !in cluster.finalizers && !Accepted(sent.at, Plus(cluster, Operator), calls(ADDONS)))
      ensures !err ==> op.installed == Below(ADDONS) && (Operator in cluster.finalizers || store.Holds(Operator))
      ensures op.pc.OpIdle?
    {
      ghost var own := Own(TheOperator, run);
      sent := Sending(|run|, store);
      err := Install(cluster, calls);
      if err || Operator in cluster.finalizers {
        return;
      }
      err, sent := WriteAsOperator(Plus(cluster, Operator), calls(ADDONS));
      Regroup(own, InstallTrace(calls, 0, ADDONS), [Op(OpWrite(calls(ADDONS).applied))]);
    }

    method Install(cluster: Cluster, calls: nat -> Call) returns (err: bool)
      requires Valid() && op.pc == Installing(cluster, 0)
      modifies this
      ensures Took(TheOperator, InstallTrace(calls, 0, ADDONS))
      ensures err <==> !AllOk(calls, ADDONS)
      ensures !err ==> op.installed == Below(ADDONS)
      ensures op.pc == if err then OpIdle else AfterInstall(cluster, ADDONS)
    {
      ghost var own := Own(TheOperator, run);
      ghost var done: seq<Event> := [];
      var i := 0;
      while i < ADDONS
        invariant 0 <= i <= ADDONS
        invariant Continues() && AllOk(calls, i)
        invariant Own(TheOperator, run) == own + done
        invariant done + InstallTrace(calls, i, ADDONS) == InstallTrace(calls, 0, ADDONS)
        invariant op.pc == AfterInstall(cluster, i)
        invariant HasBelow(op.installed, i)
      {
        var ok := InstallAddon(cluster, i, calls(i));
        ghost var e := [Op(OpEvent.Install(Effect(calls(i)), ok))];
        Regroup(own, done, e);
        Regroup(done, e, if ok then InstallTrace(calls, i + 1, ADDONS) else []);
        done := done + e;
        if !ok {
          return true;
        }
        i := i + 1;
      }
      AllInstalled();
      err := false;
    }

    lemma AllInstalled()
      requires Valid() && HasBelow(op.installed, ADDONS)
      ensures op.installed == Below(ADDONS)
    {
      ReachesInv(name, cleanFuncs, run, View());
      assert forall i: nat :: i in op.installed <==> i in Below(ADDONS);
    }

    method InstallAddon(cluster: Cluster, i: nat, call: Call) returns (ok: bool)
      requires Valid() && op.pc == Installing(cluster, i) && i < ADDONS
      modifies this
      ensures Took(TheOperator, [Op(OpEvent.Install(Effect(call), call.ok))])
      ensures ok == call.ok
      ensures op == old(op).(installed := if Effect(call) then old(op.installed) + {i} else old(op.installed),
                             pc := if ok then AfterInstall(cluster, i + 1) else OpIdle)
    {
      Interfere(TheOperator, call.before);
      ghost var before := View();
      if Effect(call) {
        op := op.(installed := op.installed + {i});
      }
      ok := call.ok;
      op := op.(pc := if ok then AfterInstall(cluster, i + 1) else OpIdle);
      InstallStep(before, cluster, i, Effect(call), call.ok);
      Log(TheOperator, before, Op(OpEvent.Install(Effect(call), call.ok)));
    }

    /** Uninstalls every add-on in reverse order, then gives the finalizer up, and with it the object. */
    method RemoveCluster(cluster: Cluster, calls: nat -> Call) returns (err: bool, ghost sent: Sending)
      requires Valid() && op.pc == Uninstalling(cluster, ADDONS)
      modifies this
      ensures Took(TheOperator, RemoveTrace(cluster, calls))
      ensures AllOk(calls, ADDONS) && Operator in cluster.finalizers ==>
                Found(sent, Op(OpWrite(calls(ADDONS).applied)), |old(run)|)
      ensures err <==>
                || !AllOk(calls, ADDONS)
                || (Operator in cluster.finalizers && !Accepted(sent.at, Minus(cluster, Operator), calls(ADDONS)))
      ensures !err ==> op.installed == {} && (Operator in cluster.finalizers ==> !store.live)
      ensures op.pc.OpIdle?
    {
      ghost var own := Own(TheOperator, run);
      sent := Sending(|run|, store);
      err := Uninstall(cluster, ADDONS, calls);
      if err || Operator !in cluster.finalizers {
        return;
      }
      err, sent := WriteAsOperator(Minus(cluster, Operator), calls(ADDONS));
      Regroup(own, UninstallTrace(calls, ADDONS), [Op(OpWrite(calls(ADDONS).applied))]);
    }

    method Uninstall(cluster: Cluster, installers: nat, calls: nat -> Call) returns (err: bool)
      requires Valid() && op.pc == AfterUninstall(cluster, installers) && installers == ADDONS
      modifies this
      ensures Took(TheOperator, UninstallTrace(calls, installers))
      ensures err <==> !AllOk(calls, installers)
      ensures !err ==> op.installed == {}
      ensures op.pc == if err then OpIdle else AfterUninstall(cluster, 0)
    {
      ghost var whole := Own(TheOperator, run) + UninstallTrace(calls, installers);
      NoneBeyond(installers);
      var i := installers;
      while i > 0
        invariant 0 <= i <= installers
        invariant Continues() && OkFrom(calls, i, installers)
        invariant Own(TheOperator, run) + UninstallTrace(calls, i) == whole
        invariant op.pc == AfterUninstall(cluster, i)
        invariant HasNoneFrom(op.installed, i)
      {
        UninstallTraceStep(calls, i, Own(TheOperator, run));
        ghost var installed := op.installed;
        i := i - 1;
        var ok := UninstallAddon(cluster, i, calls(i));
        if !ok {
          FailedAt(calls, i, installers);
          return true;
        }
        OkFromStep(calls, i, installers);
        NoneFromStep(installed, i);
      }
      err := false;
    }

    lemma NoneBeyond(n: nat)
      requires Valid() && n == ADDONS
      ensures HasNoneFrom(op.installed, n)
    {
      ReachesInv(name, cleanFuncs, run, View());
    }

    method UninstallAddon(cluster: Cluster, i: nat, call: Call) returns (ok: bool)
      requires Valid() && op.pc == Uninstalling(cluster, i + 1)
      modifies this
      ensures Took(TheOperator, [Op(OpEvent.Uninstall(Effect(call), call.ok))])
      ensures ok == call.ok
      ensures op == old(op).(installed := if Effect(call) then old(op.installed) - {i} else old(op.installed),
                             pc := if ok then AfterUninstall(cluster, i) else OpIdle)
    {
      Interfere(TheOperator, call.before);
      ghost var before := View();
      if Effect(call) {
        op := op.(installed := op.installed - {i});
      }
      ok := call.ok;
      op := op.(pc := if ok then AfterUninstall(cluster, i) else OpIdle);
      Log(TheOperator, before, Op(OpEvent.Uninstall(Effect(call), call.ok)));
    }

    /** `sent` is the update: where it is in the run, and the store that it finds. */
    method WriteAsOperator(c: Cluster, call: Call) returns (err: bool, ghost sent: Sending)
      requires Valid() && (op.pc == OpAdding(c) || op.pc == OpRemoving(c))
      modifies this
      ensures Took(TheOperator, [Op(OpWrite(call.applied))])
      ensures Found(sent, Op(OpWrite(call.applied)), |old(run)|)
      ensures store == sent.at.Put(c, call.applied) && (err <==> !Accepted(sent.at, c, call))
      ensures !err ==> if old(op.pc).OpAdding? then store.Holds(Operator) else !store.live
      ensures op == old(op).(pc := OpIdle)
    {
      Interfere(TheOperator, call.before);
      ghost var before := View();
      sent := Sending(|run|, store);
      OperatorWrites(c);
      var stored;
      err, stored := Update(c, call);
      op := op.(pc := OpIdle);
      Log(TheOperator, before, Op(OpWrite(call.applied)));
    }

    lemma OperatorWrites(c: Cluster)
      requires Valid() && (op.pc == OpAdding(c) || op.pc == OpRemoving(c))
      ensures store.Admits(c) ==> if op.pc.OpAdding? then store.Commit(c).Holds(Operator) else !store.Commit(c).live
    {
      ReachesInv(name, cleanFuncs, run, View());
      OperatorCommits(store, op, c);
    }

    // -------------------------------------------------------------------------------------------
    // clusterlink controller-manager
    // -------------------------------------------------------------------------------------------

    /**
      `aliased` says whether the informer still hands out the object that this call edits.  An error
      means exactly that there is no object or that a step failed; success on a deleting object means
      that every clean function succeeded in this call and that the finalizer is gone.
    */
    method StarterReconcile(aliased: bool, calls: nat -> Call) returns (err: bool, ghost sent: Sending)
      requires Valid() && cm.pc.CmIdle?
      modifies this
      ensures Took(TheStarter, if old(cm.cache).None? then []
                               else StarterTrace(old(cm.cache).value, old(cm.start), cleanFuncs, aliased, calls))
      ensures old(cm.cache).Some? && StarterSends(old(cm.cache).value, old(cm.start), cleanFuncs, calls) ==>
                var call := calls(if old(cm.cache).value.deleting then cleanFuncs else 0);
                Found(sent, Cm(CmWrite(call.applied)), |old(run)|)
      ensures err <==>
                || old(cm.cache).None?
                || StarterFails(old(cm.cache).value, old(cm.start), cleanFuncs, calls, sent.at)
      ensures !err ==>
                var c := old(cm.cache).value;
                if c.deleting then Swept(c) && (Starter in c.finalizers ==> !store.Holds(Starter))
                else cm.start && (old(cm.start) || Starter in c.finalizers || store.Holds(Starter))
      ensures cm.pc.CmIdle?
    {
      sent := Sending(|run|, store);
      if cm.cache.None? {
        return true, sent;
      }
      var cluster := cm.cache.value;
      if cluster.deleting {
        ghost var own := Own(TheStarter, run);
        StopControllers(cluster, aliased);
        err, sent := CleanUp(cluster, aliased, calls);
        Regroup(own, [Cm(CmRead(aliased))], CleanUpTrace(cluster, cleanFuncs, aliased, calls));
      } else {
        err, sent := StartControllers(cluster, aliased, calls(0));
      }
    }

    /** Every clean function succeeded in the pass over this version. */
    ghost predicate Swept(c: Cluster)
      reads this
    {
      cm.cancelled && cm.passed == Below(cleanFuncs) && cm.swept == Some(c.version)
    }

    method StopControllers(cluster: Cluster, aliased: bool)
      requires Valid() && cm.pc.CmIdle? && cm.cache == Some(cluster) && cluster.deleting
      modifies this
      ensures Took(TheStarter, [Cm(CmRead(aliased))])
      ensures cm == old(cm).(cancelled := true, passed := {}, pc := Cleaning(cluster, 0, false))
    {
      ghost var before := View();
      cm := cm.(cancelled := true, passed := {}, pc := Cleaning(cluster, 0, false));
      Log(TheStarter, before, Cm(CmRead(aliased)));
    }

    /** Starts the sub-controllers once; only after that does it try to store the finalizer. */
    method StartControllers(cluster: Cluster, aliased: bool, call: Call) returns (err: bool, ghost sent: Sending)
      requires Valid() && cm.pc.CmIdle? && cm.cache == Some(cluster) && !cluster.deleting
      modifies this
      ensures Took(TheStarter, [Cm(CmRead(aliased))] +
                     if !old(cm.start) && Starter !in cluster.finalizers then [Cm(CmWrite(call.applied))] else [])
      ensures !old(cm.start) && Starter !in cluster.finalizers ==> Found(sent, Cm(CmWrite(call.applied)), |old(run)|)
      ensures err <==>
                && !old(cm.start) && Starter !in cluster.finalizers
                && !Accepted(sent.at, Plus(cluster, Starter), call)
      ensures !err ==> old(cm.start) || Starter in cluster.finalizers || store.Holds(Starter)
      ensures cm.pc.CmIdle? && cm.start
    {
      ghost var own := Own(TheStarter, run);
      sent := Sending(|run|, store);
      var writing := SetStart(cluster, aliased);
      if !writing {
        return false, sent;
      }
      err, sent := WriteAsStarter(Plus(cluster, Starter), call);
      Regroup(own, [Cm(CmRead(aliased))], [Cm(CmWrite(call.applied))]);
    }

    /** `writing` is whether the finalizer is to be stored; the object that was read is edited for that. */
    method SetStart(cluster: Cluster, aliased: bool) returns (writing: bool)
      requires Valid() && cm.pc.CmIdle? && cm.cache == Some(cluster) && !cluster.deleting
      modifies this
      ensures Took(TheStarter, [Cm(CmRead(aliased))])
      ensures writing <==> !old(cm.start) && Starter !in cluster.finalizers
      ensures SameStarter(cm,
                          old(cm).(start := true, pc := if writing then Ensuring(Plus(cluster, Starter)) else CmIdle))
    {
      ghost var before := View();
      writing := !cm.start && Starter !in cluster.finalizers;
      cm := cm.(start := true);
      if writing {
        var edited := Plus(cluster, Starter);
        cm := cm.(cache := Poison(cm.cache, edited, aliased), pc := Ensuring(edited));
      }
      Log(TheStarter, before, Cm(CmRead(aliased)));
    }

    /** Runs all clean functions, also after a failure, and gives the finalizer up if none failed. */
    method CleanUp(cluster: Cluster, aliased: bool, calls: nat -> Call) returns (err: bool, ghost sent: Sending)
      requires Valid() && cm.pc == Cleaning(cluster, 0, false) && cm.cancelled && cm.passed == {}
      modifies this
      ensures Took(TheStarter, CleanUpTrace(cluster, cleanFuncs, aliased, calls))
      ensures AllOk(calls, cleanFuncs) && Starter in cluster.finalizers ==>
                Found(sent, Cm(CmWrite(calls(cleanFuncs).applied)), |old(run)|)
      ensures err <==>
                || !AllOk(calls, cleanFuncs)
                || (Starter in cluster.finalizers && !Accepted(sent.at, Minus(cluster, Starter), calls(cleanFuncs)))
      ensures !err ==> Swept(cluster) && (Starter in cluster.finalizers ==> !store.Holds(Starter))
      ensures cm.pc.CmIdle?
    {
      ghost var own := Own(TheStarter, run);
      var errs := RunCleanFuncs(cluster, calls);
      err, sent := FinishCleanUp(cluster, errs > 0, aliased, calls(cleanFuncs));
      Regroup(own, CleanTrace(calls, 0, cleanFuncs), CleanEndTrace(cluster, cleanFuncs, aliased, calls));
    }

    method RunCleanFuncs(cluster: Cluster, calls: nat -> Call) returns (errs: nat)
      requires Valid() && cm.pc == Cleaning(cluster, 0, false) && cm.cancelled && cm.passed == {}
      modifies this
      ensures Took(TheStarter, CleanTrace(calls, 0, cleanFuncs))
      ensures errs == 0 <==> AllOk(calls, cleanFuncs)
      ensures errs == 0 ==> cm.passed == Below(cleanFuncs)
      ensures cm.cancelled && cm.pc == Cleaning(cluster, cleanFuncs, errs > 0)
    {
      ghost var whole := Own(TheStarter, run) + CleanTrace(calls, 0, cleanFuncs);
      errs := 0;
      var i := 0;
      while i < cleanFuncs
        invariant 0 <= i <= cleanFuncs && (errs == 0 <==> AllOk(calls, i))
        invariant Continues() && cm.cancelled && cm.pc == Cleaning(cluster, i, errs > 0)
        invariant errs == 0 ==> cm.passed == Below(i)
        invariant Own(TheStarter, run) + CleanTrace(calls, i, cleanFuncs) == whole
      {
        CleanTraceStep(calls, i, cleanFuncs, Own(TheStarter, run));
        var ok := RunCleanFunc(cluster, i, errs > 0, calls(i));
        if !ok {
          errs := errs + 1;
        }
        i := i + 1;
      }
    }

    method RunCleanFunc(cluster: Cluster, i: nat, failed: bool, call: Call) returns (ok: bool)
      requires Valid() && cm.pc == Cleaning(cluster, i, failed) && i < cleanFuncs
      modifies this
      ensures Took(TheStarter, [Cm(Clean(i, Effect(call), call.ok))])
      ensures ok == call.ok
      ensures SameStarter(cm, old(cm).(passed := if ok then old(cm.passed) + {i} else old(cm.passed),
                                       pc := Cleaning(cluster, i + 1, failed || !ok)))
      ensures Effect(call) ==> i !in cm.dirty
    {
      Interfere(TheStarter, call.before);
      ghost var before := View();
      if Effect(call) {
        cm := cm.(dirty := cm.dirty - {i});
      }
      ok := call.ok;
      cm := cm.(passed := if ok then cm.passed + {i} else cm.passed, pc := Cleaning(cluster, i + 1, failed || !ok));
      CleanFuncStep(before, cluster, i, failed, Effect(call), call.ok);
      Log(TheStarter, before, Cm(Clean(i, Effect(call), call.ok)));
    }

    method FinishCleanUp(cluster: Cluster, failed: bool, aliased: bool, call: Call)
      returns (err: bool, ghost sent: Sending)
      requires Valid() && cm.pc == Cleaning(cluster, cleanFuncs, failed)
      modifies this
      ensures Took(TheStarter, [Cm(CleanEnd(aliased))] +
                     if !failed && Starter in cluster.finalizers then [Cm(CmWrite(call.applied))] else [])
      ensures !failed && Starter in cluster.finalizers ==> Found(sent, Cm(CmWrite(call.applied)), |old(run)|)
      ensures err <==> failed || (Starter in cluster.finalizers && !Accepted(sent.at, Minus(cluster, Starter), call))
      ensures !err && Starter in cluster.finalizers ==> !store.Holds(Starter)
      ensures cm.cancelled == old(cm.cancelled) && cm.passed == old(cm.passed) && cm.pc.CmIdle?
      ensures !failed ==> cm.swept == Some(cluster.version)
    {
      ghost var own := Own(TheStarter, run);
      sent := Sending(|run|, store);
      EndPass(cluster, failed, aliased);
      if failed || Starter !in cluster.finalizers {
        return failed, sent;
      }
      err, sent := WriteAsStarter(Minus(cluster, Starter), call);
      Regroup(own, [Cm(CleanEnd(aliased))], [Cm(CmWrite(call.applied))]);
    }

    /** The pass is over; if nothing failed, the finalizer is taken off the object that was read. */
    method EndPass(cluster: Cluster, failed: bool, aliased: bool)
      requires Valid() && cm.pc == Cleaning(cluster, cleanFuncs, failed)
      modifies this
      ensures Took(TheStarter, [Cm(CleanEnd(aliased))])
      ensures SameStarter(cm, old(cm).(swept := if failed then old(cm.swept) else Some(cluster.version),
                                       pc := if failed || Starter !in cluster.finalizers then CmIdle
                                           else Dropping(Minus(cluster, Starter))))
    {
      ghost var before := View();
      if failed {
        cm := cm.(pc := CmIdle);
      } else if Starter !in cluster.finalizers {
        cm := cm.(swept := Some(cluster.version), pc := CmIdle);
      } else {
        var edited := Minus(cluster, Starter);
        cm := cm.(swept := Some(cluster.version), cache := Poison(cm.cache, edited, aliased), pc := Dropping(edited));
      }
      Log(TheStarter, before, Cm(CleanEnd(aliased)));
    }

    /** `sent` is the update: where it is in the run, and the store that it finds. */
    method WriteAsStarter(c: Cluster, call: Call) returns (err: bool, ghost sent: Sending)
      requires Valid() && (cm.pc == Ensuring(c) || cm.pc == Dropping(c))
      modifies this
      ensures Took(TheStarter, [Cm(CmWrite(call.applied))])
      ensures Found(sent, Cm(CmWrite(call.applied)), |old(run)|)
      ensures store == sent.at.Put(c, call.applied) && (err <==> !Accepted(sent.at, c, call))
      ensures !err ==> (store.Holds(Starter) <==> Starter in c.finalizers)
      ensures SameStarter(cm, old(cm).(pc := CmIdle))
    {
      Interfere(TheStarter, call.before);
      ghost var before := View();
      sent := Sending(|run|, store);
      StarterWrites(c);
      var stored;
      err, stored := Update(c, call);
      cm := cm.(pc := CmIdle);
      Log(TheStarter, before, Cm(CmWrite(call.applied)));
    }

    lemma StarterWrites(c: Cluster)
      requires Valid() && (cm.pc == Ensuring(c) || cm.pc == Dropping(c))
      ensures store.Admits(c) ==> (store.Commit(c).Holds(Starter) <==> Starter in c.finalizers)
    {
      ReachesInv(name, cleanFuncs, run, View());
      StarterCommits(store, cleanFuncs, cm, c);
    }

    // -------------------------------------------------------------------------------------------
    // clustertree cluster controller
    // -------------------------------------------------------------------------------------------

    /**
      An error means exactly that the read, the configuration or a step failed.  Success on a deleting
      object means that manager, node and finalizer are gone, and otherwise that the finalizer is stored
      and a manager registered exactly if it is enabled.
    */
    method TreeReconcile(read: Read, configOk: bool, calls: nat -> Call) returns (err: bool, ghost sent: Sending)
      requires Valid() && ct.pc.CtIdle?
      requires read.Got? ==> ct.seen <= read.version < |store.history|
      modifies this
      ensures !(read.Got? && configOk) ==> Took(TheTree, [])
      ensures read.Got? && configOk ==>
                var c := old(store.history)[read.version];
                var begun := FinalizerTrace(read.version, c, calls);
                if NeedsFinalizer(c) && !Accepted(sent.at, Plus(c, Tree), calls(0)) then Took(TheTree, begun)
                else Took(TheTree, begun + SettledTrace(c, |RootNodes(name, c.models)|, calls))
      ensures read.Got? && configOk ==>
                var c := old(store.history)[read.version]; TreeSends(c, calls) ==>
                    Found(sent, TreeWrite(c, calls), |old(run)|)
      ensures err <==> read.Failed? || (read.Got? && (!configOk ||
                         var c := old(store.history)[read.version];
                         TreeFails(c, |RootNodes(name, c.models)|, calls, sent.at)))
      ensures !err && read.Got? ==> TreeDone(old(store.history)[read.version])
      ensures ct.pc.CtIdle?
      ensures name in controllerManagers <==> name in managerCancelFuncs
      ensures name in controllerManagers ==> store.Holds(Tree)
    {
      sent := Sending(|run|, store);
      if !(read.Got? && configOk) {
        ReachesInv(name, cleanFuncs, run, View());
        return !read.NotFound?, sent;
      }
      err, sent := ReconcileVersion(read.version, calls);
      ReachesInv(name, cleanFuncs, run, View());
    }

    method ReconcileVersion(v: nat, calls: nat -> Call) returns (err: bool, ghost sent: Sending)
      requires Valid() && ct.pc.CtIdle? && ct.seen <= v < |store.history|
      modifies this
      ensures var c := old(store.history)[v];
              var begun, nodes := FinalizerTrace(v, c, calls), |RootNodes(name, c.models)|;
              && (if NeedsFinalizer(c) && !Accepted(sent.at, Plus(c, Tree), calls(0)) then Took(TheTree, begun)
                  else Took(TheTree, begun + SettledTrace(c, nodes, calls)))
              && (TreeSends(c, calls) ==> Found(sent, TreeWrite(c, calls), |old(run)|))
              && (err <==> TreeFails(c, nodes, calls, sent.at))
              && (!err ==> TreeDone(c))
      ensures ct.pc.CtIdle?
    {
      ghost var own := Own(TheTree, run);
      ghost var first := store.history[v];
      ghost var nodes := |RootNodes(name, first.models)|;
      var cluster;
      err, cluster, sent := EnsureTreeFinalizer(v, calls(0));
      if !err {
        ghost var begun, sent' := run, sent;
        err, sent := ReconcileSettled(cluster, calls);
        if NeedsFinalizer(first) {
          PrefixSame(begun, run, sent'.step);
          sent := sent';
        }
        Regroup(own, FinalizerTrace(v, first, calls), SettledTrace(cluster, nodes, calls));
        assert SettledTrace(cluster, nodes, calls) == SettledTrace(first, nodes, calls);
      }
    }

    /** What a successful call about this version leaves. */
    ghost predicate TreeDone(c: Cluster)
      reads this
    {
      if c.deleting then
        name !in controllerManagers && name !in ct.nodes && (Tree in c.finalizers ==> !store.Holds(Tree))
      else if c.tree then
        name in controllerManagers && (forall x | x in RootNodes(name, c.models) :: x in ct.nodes)
      else
        name !in controllerManagers
    }

    /** Reads the object and stores the finalizer unless it is there already or deletion has begun. */
    method EnsureTreeFinalizer(v: nat, call: Call) returns (err: bool, cluster: Cluster, ghost sent: Sending)
      requires Valid() && ct.pc.CtIdle? && ct.seen <= v < |store.history|
      modifies this
      ensures Took(TheTree, [Ct(CtRead(v))] +
                if NeedsFinalizer(old(store.history)[v]) then [Ct(CtWrite(call.applied, call.ok))] else [])
      ensures NeedsFinalizer(old(store.history)[v]) ==> Found(sent, Ct(CtWrite(call.applied, call.ok)), |old(run)|)
      ensures var c := old(store.history)[v]; err <==> NeedsFinalizer(c) && !Accepted(sent.at, Plus(c, Tree), call)
      ensures err ==> ct.pc.CtIdle?
      ensures !NeedsFinalizer(old(store.history)[v]) ==> cluster == old(store.history)[v]
      ensures !err ==> ct.pc == Clearing(cluster) && SameTask(old(store.history)[v], cluster)
    {
      ghost var own := Own(TheTree, run);
      cluster := GetAsTree(v);
      sent := Sending(|run|, store);
      if NeedsFinalizer(cluster) {
        err, cluster, sent := WriteAsTree(Plus(cluster, Tree), call);
        Regroup(own, [Ct(CtRead(v))], [Ct(CtWrite(call.applied, call.ok))]);
      } else {
        err := false;
      }
    }

    method GetAsTree(v: nat) returns (cluster: Cluster)
      requires Valid() && ct.pc.CtIdle? && ct.seen <= v < |store.history|
      modifies this
      ensures Took(TheTree, [Ct(CtRead(v))]) && cluster == old(store.history)[v]
      ensures ct.pc == if NeedsFinalizer(cluster)
                       then CtAdding(Plus(cluster, Tree)) else Clearing(cluster)
    {
      ghost var before := View();
      cluster := store.history[v];
      ct := ct.(seen := v, pc := if NeedsFinalizer(cluster)
                                 then CtAdding(Plus(cluster, Tree)) else Clearing(cluster));
      Log(TheTree, before, Ct(CtRead(v)));
    }

    /** `sent` is the update: where it is in the run, and the store that it finds. */
    method WriteAsTree(c: Cluster, call: Call) returns (err: bool, stored: Cluster, ghost sent: Sending)
      requires Valid() && (ct.pc == CtAdding(c) || ct.pc == CtRemoving(c))
      modifies this
      ensures Took(TheTree, [Ct(CtWrite(call.applied, call.ok))])
      ensures Found(sent, Ct(CtWrite(call.applied, call.ok)), |old(run)|)
      ensures store == sent.at.Put(c, call.applied) && (err <==> !Accepted(sent.at, c, call))
      ensures !err && old(ct.pc).CtRemoving? ==> !store.Holds(Tree)
      ensures if old(ct.pc).CtAdding? && !err then ct.pc == Clearing(stored) && stored == c.(version := stored.version)
              else ct.pc.CtIdle?
      ensures ct == old(ct).(pc := ct.pc) && unchanged(this`controllerManagers) && unchanged(this`managerCancelFuncs)
    {
      Interfere(TheTree, call.before);
      ghost var before := View();
      sent := Sending(|run|, store);
      var adding := ct.pc.CtAdding?;
      StoredAsSent(c);
      err, stored := Update(c, call);
      ct := ct.(pc := if adding && !err then Clearing(stored) else CtIdle);
      Log(TheTree, before, Ct(CtWrite(call.applied, call.ok)));
    }

    /** An accepted finalizer write leaves the object in existence, unchanged but for the version. */
    lemma StoredAsSent(c: Cluster)
      requires Valid() && (ct.pc == CtAdding(c) || ct.pc == CtRemoving(c))
      ensures ct.pc.CtAdding? && store.Admits(c) ==>
                store.Commit(c).live && store.Commit(c).Last() == c.(version := |store.history|)
      ensures ct.pc.CtRemoving? && store.Admits(c) ==> !store.Commit(c).Holds(Tree)
    {
      ReachesInv(name, cleanFuncs, run, View());
      TreeCommits(store, name, View().ct, c);
    }

    method ReconcileSettled(cluster: Cluster, calls: nat -> Call) returns (err: bool, ghost sent: Sending)
      requires Valid() && ct.pc == Clearing(cluster)
      modifies this
      ensures Took(TheTree, SettledTrace(cluster, |RootNodes(name, cluster.models)|, calls))
      ensures cluster.deleting && calls(1).ok && Tree in cluster.finalizers ==>
                Found(sent, Ct(CtWrite(calls(2).applied, calls(2).ok)), |old(run)|)
      ensures err <==>
                if cluster.deleting then
                  !calls(1).ok || (Tree in cluster.finalizers && !Accepted(sent.at, Minus(cluster, Tree), calls(2)))
                else cluster.tree && !ManagerOk(|RootNodes(name, cluster.models)|, calls)
      ensures !err ==> TreeDone(cluster)
      ensures ct.pc.CtIdle?
    {
      ghost var own := Own(TheTree, run);
      ClearClusterControllers(cluster);
      sent := Sending(|run|, store);
      if cluster.deleting {
        err, sent := RemoveNode(cluster, calls);
        Regroup(own, [Ct(Clear)], NodeTrace(cluster, calls));
      } else if !cluster.tree {
        err := false;
      } else {
        err := StartManager(cluster, calls);
        Regroup(own, [Ct(Clear)], ManagerTrace(|RootNodes(name, cluster.models)|, calls));
      }
    }

    /** Cancels the running manager of this cluster, if any, and forgets it in both maps. */
    method ClearClusterControllers(cluster: Cluster)
      requires Valid() && ct.pc == Clearing(cluster)
      modifies this
      ensures Took(TheTree, [Ct(Clear)])
      ensures name !in controllerManagers && name !in managerCancelFuncs
      ensures name in old(managerCancelFuncs) ==> old(managerCancelFuncs)[name] in ct.cancelled
      ensures ct.pc == if cluster.deleting then DeletingNode(cluster)
                       else if cluster.tree then CreatingNodes(cluster, 0) else CtIdle
    {
      ghost var before := View();
      OthersOf(controllerManagers, 0);
      OthersOf(managerCancelFuncs, 0);
      if name in managerCancelFuncs {
        ct := ct.(cancelled := ct.cancelled + {managerCancelFuncs[name]});
      }
      managerCancelFuncs := managerCancelFuncs - {name};
      controllerManagers := controllerManagers - {name};
      ct := ct.(pc := if cluster.deleting then DeletingNode(cluster)
                      else if cluster.tree then CreatingNodes(cluster, 0) else CtIdle);
      Log(TheTree, before, Ct(Clear));
    }

    /** Deletes the node called like the cluster, then gives the finalizer up. */
    method RemoveNode(cluster: Cluster, calls: nat -> Call) returns (err: bool, ghost sent: Sending)
      requires Valid() && ct.pc == DeletingNode(cluster)
      modifies this
      ensures Took(TheTree, NodeTrace(cluster, calls))
      ensures calls(1).ok && Tree in cluster.finalizers ==>
                Found(sent, Ct(CtWrite(calls(2).applied, calls(2).ok)), |old(run)|)
      ensures err <==>
                || !calls(1).ok
                || (Tree in cluster.finalizers && !Accepted(sent.at, Minus(cluster, Tree), calls(2)))
      ensures !err ==> name !in ct.nodes && (Tree in cluster.finalizers ==> !store.Holds(Tree))
      ensures unchanged(this`controllerManagers) && ct.pc.CtIdle?
    {
      ghost var own := Own(TheTree, run);
      sent := Sending(|run|, store);
      var ok := DeleteRootNode(cluster, calls(1));
      if !ok || Tree !in cluster.finalizers {
        return !ok, sent;
      }
      var stored;
      err, stored, sent := WriteAsTree(Minus(cluster, Tree), calls(2));
      Regroup(own, [Ct(DeleteNode(Effect(calls(1)), true))], [Ct(CtWrite(calls(2).applied, calls(2).ok))]);
    }

    method DeleteRootNode(cluster: Cluster, call: Call) returns (ok: bool)
      requires Valid() && ct.pc == DeletingNode(cluster)
      modifies this
      ensures Took(TheTree, [Ct(DeleteNode(Effect(call), call.ok))]) && ok == call.ok
      ensures ct == old(ct).(nodes := if Effect(call) then old(ct.nodes) - {name} else old(ct.nodes),
                             pc := if ok && Tree in cluster.finalizers then CtRemoving(Minus(cluster, Tree))
                                 else CtIdle)
      ensures unchanged(this`controllerManagers) && unchanged(this`managerCancelFuncs)
    {
      Interfere(TheTree, call.before);
      ghost var before := View();
      if Effect(call) {
        ct := ct.(nodes := ct.nodes - {name});
      }
      ok := call.ok;
      ct := ct.(pc := if ok && Tree in cluster.finalizers then CtRemoving(Minus(cluster, Tree)) else CtIdle);
      Log(TheTree, before, Ct(DeleteNode(Effect(call), call.ok)));
    }

    /** Creates the root nodes, then registers a manager under a new context. */
    method StartManager(cluster: Cluster, calls: nat -> Call) returns (err: bool)
      requires Valid() && ct.pc == CreatingNodes(cluster, 0)
      modifies this
      ensures Took(TheTree, ManagerTrace(|RootNodes(name, cluster.models)|, calls))
      ensures err <==> !ManagerOk(|RootNodes(name, cluster.models)|, calls)
      ensures !err ==> name in controllerManagers && forall x | x in RootNodes(name, cluster.models) :: x in ct.nodes
      ensures ct.pc.CtIdle?
    {
      if !calls(3).ok {
        ghost var before := View();
        ct := ct.(pc := CtIdle);
        Log(TheTree, before, Ct(CtAbort));
        return true;
      }
      var ok := CreateRootNodes(cluster, |RootNodes(name, cluster.models)|, calls);
      if !ok {
        return true;
      }
      RegisterManager(cluster);
      // setupControllers may fail; the manager stays registered
      err := !NodeCall(calls, |RootNodes(name, cluster.models)|).ok;
    }

    /** The root nodes in order, up to the first failure. */
    method CreateRootNodes(cluster: Cluster, n: nat, calls: nat -> Call) returns (ok: bool)
      requires Valid() && ct.pc == CreatingNodes(cluster, 0) && n == |RootNodes(name, cluster.models)|
      modifies this
      ensures Continues() && Own(TheTree, run) + (if ok then [Ct(Register)] else [])
              == Own(TheTree, old(run)) + CreateTrace(calls, 0, n)
      ensures ok <==> NodesOk(calls, n)
      ensures ok ==> forall x | x in RootNodes(name, cluster.models) :: x in ct.nodes
      ensures ct.pc == if ok then CreatingNodes(cluster, n) else CtIdle
    {
      ghost var whole := Own(TheTree, run) + CreateTrace(calls, 0, n);
      var nodes := RootNodes(name, cluster.models);
      var i := 0;
      while i < n
        invariant 0 <= i <= n
        invariant Continues() && ct.pc == CreatingNodes(cluster, i)
        invariant Own(TheTree, run) + CreateTrace(calls, i, n) == whole
        invariant NodesOk(calls, i)
        invariant Created(nodes, i, ct.nodes)
      {
        CreateTraceStep(calls, i, n, Own(TheTree, run));
        ok := CreateRootNode(cluster, i, NodeCall(calls, i));
        if !ok {
          return;
        }
        i := i + 1;
      }
      ok := true;
    }

    method CreateRootNode(cluster: Cluster, i: nat, call: Call) returns (ok: bool)
      requires Valid() && ct.pc == CreatingNodes(cluster, i) && i < |RootNodes(name, cluster.models)|
      modifies this
      ensures Took(TheTree, [Ct(CreateNode(Effect(call), call.ok))]) && ok == call.ok
      ensures var node := RootNodes(name, cluster.models)[i];
              ct == old(ct).(nodes := if Effect(call) then old(ct.nodes) + {node} else old(ct.nodes),
                             made := if Effect(call) then old(ct.made) + {node} else old(ct.made),
                             pc := if ok then CreatingNodes(cluster, i + 1) else CtIdle)
    {
      Interfere(TheTree, call.before);
      ghost var before := View();
      var node := RootNodes(name, cluster.models)[i];
      if Effect(call) {
        ct := ct.(nodes := ct.nodes + {node}, made := ct.made + {node});
      }
      ok := call.ok;
      ct := ct.(pc := if ok then CreatingNodes(cluster, i + 1) else CtIdle);
      Log(TheTree, before, Ct(CreateNode(Effect(call), call.ok)));
    }

    method RegisterManager(cluster: Cluster)
      requires Valid() && ct.pc == CreatingNodes(cluster, |RootNodes(name, cluster.models)|)
      modifies this
      ensures Took(TheTree, [Ct(Register)]) && ct.pc.CtIdle?
      ensures controllerManagers == old(controllerManagers)[name := old(ct.contexts)]
      ensures managerCancelFuncs == old(managerCancelFuncs)[name := old(ct.contexts)]
      ensures ct == old(ct).(contexts := old(ct.contexts) + 1, pc := CtIdle)
    {
      ghost var before := View();
      OthersOf(controllerManagers, ct.contexts);
      OthersOf(managerCancelFuncs, ct.contexts);
      controllerManagers := controllerManagers[name := ct.contexts];
      managerCancelFuncs := managerCancelFuncs[name := ct.contexts];
      ct := ct.(contexts := ct.contexts + 1, pc := CtIdle);
      RegisterStep(before, cluster);
      Log(TheTree, before, Ct(Register));
    }
  }
}
