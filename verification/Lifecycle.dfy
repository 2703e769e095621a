/**
  The life of one Cluster object under three independent controllers.

  The clusterlink operator, the clusterlink controller-manager and the clustertree cluster
  controller all act on the same Cluster object.  Each owns one finalizer and one cleanup duty.
  This module is the protocol as a state machine: every API call of every controller is one step,
  and steps of different controllers interleave freely.

  The environment is hostile:
  - a read may return any version at least as new as the controller's previous read;
  - an update takes effect only on the version that was read, and its answer may be lost;
  - every add-on operation, clean function or node operation may fail, with or without effect;
  - a controller may return early or crash and restart at any point;
  - users create, edit, delete and re-create the object at any time.
*/
module Lifecycle {
  import opened Options

  // ---------------------------------------------------------------------------------------------
  // The API server
  // ---------------------------------------------------------------------------------------------

  datatype Finalizer = Operator | Starter | Tree | Foreign(owner: string)

  /** A leaf model of the Cluster object; only whether it has a label selector matters here. */
  datatype LeafModel = LeafModel(leafNodeName: string, nodeName: string, hasLabelSelector: bool)

  const KOSMOS_NODE_PREFIX := "kosmos-"
  const MAX_NODE_NAME: nat := 63

  function Decimal(n: nat): string {
    if n < 10 then [('0' as int + n) as char] else Decimal(n / 10) + [('0' as int + n % 10) as char]
  }

  /** The first leaf model decides the mode: one node for the whole cluster, one per leaf node, or one per selector. */
  datatype LeafMode = All | PerNode | Party

  function ModeOf(models: seq<LeafModel>): LeafMode {
    if models == [] then All
    else if models[0].hasLabelSelector then Party
    else if models[0].nodeName != "" then PerNode
    else All
  }

  function NodeName(mode: LeafMode, m: LeafModel, i: nat): string {
    var full := if mode.PerNode? then m.nodeName else KOSMOS_NODE_PREFIX + m.leafNodeName + "-" + Decimal(i);
    if |full| > MAX_NODE_NAME then full[..MAX_NODE_NAME] else full
  }

  /** The names of the nodes created in the root cluster, in order. */
  function RootNodes(name: string, models: seq<LeafModel>): seq<string> {
    var mode := ModeOf(models);
    if mode.All? then [KOSMOS_NODE_PREFIX + name]
    else seq(|models|, i requires 0 <= i < |models| => NodeName(mode, models[i], i))
  }

  /** One stored version of the Cluster object.  `uid` is the version at which it was created. */
  datatype Cluster = Cluster(
    version: nat,
    uid: nat,
    deleting: bool,
    finalizers: set<Finalizer>,
    link: bool,           // Spec.ClusterLinkOptions.Enable
    tree: bool,           // Spec.ClusterTreeOptions.Enable
    models: seq<LeafModel> // Spec.ClusterTreeOptions.LeafModels
  )

  /** Every version ever stored, in order, and whether the last one still exists. */
  datatype Store = Store(history: seq<Cluster>, live: bool) {

    ghost predicate Ok() {
      && (forall i :: 0 <= i < |history| ==> history[i].version == i && history[i].uid <= i)
      && (forall i, j :: 0 <= i <= j < |history| ==>
            && history[i].uid <= history[j].uid
            && (history[i].uid == history[j].uid && history[i].deleting ==>
                  history[j].deleting && history[j].finalizers <= history[i].finalizers))
      && (live ==> |history| > 0)
    }

    function Last(): Cluster
      requires |history| > 0
    {
      history[|history| - 1]
    }

    /** The API server accepts an update of the current version that adds no finalizer once deletion has begun. */
    predicate Admits(c: Cluster) {
      && live
      && |history| > 0
      && c.version == |history| - 1
      && (Last().deleting ==> c.finalizers <= Last().finalizers)
    }

    /** Stores `c` as the next version; a deleting object without finalizers vanishes instead. */
    function Commit(c: Cluster): Store
      requires |history| > 0
    {
      if Last().deleting && c.finalizers == {} then
        this.(live := false)
      else
        Store(history + [c.(version := |history|, uid := Last().uid, deleting := Last().deleting)], live)
    }

    /** An update request; `reach` says whether it arrives at all. */
    function Put(c: Cluster, reach: bool): Store {
      if reach && Admits(c) then Commit(c) else this
    }

    /** `f` has been on the current (or last) incarnation of the object at some point. */
    ghost predicate EverStored(f: Finalizer) {
      exists i :: 0 <= i < |history| && history[i].uid == Last().uid && f in history[i].finalizers
    }

    /** `f` is on the object now. */
    predicate Holds(f: Finalizer) {
      live && |history| > 0 && f in Last().finalizers
    }

    /** `f` was on this incarnation and no longer is. */
    ghost predicate Left(f: Finalizer) {
      EverStored(f) && !Holds(f)
    }
  }

  // ---------------------------------------------------------------------------------------------
  // The controllers
  // ---------------------------------------------------------------------------------------------

  /** The add-on installers run by the operator, in order: global, proxy, agent, elector, manager. */
  const ADDONS: nat := 5

  datatype OpPc =
    | OpIdle
    | Installing(held: Cluster, next: nat)
    | OpAdding(held: Cluster)
    | Uninstalling(held: Cluster, left: nat)
    | OpRemoving(held: Cluster)

  datatype OperatorState = OperatorState(seen: nat, installed: set<nat>, pc: OpPc)

  datatype CmPc =
    | CmIdle
    | Ensuring(held: Cluster)
    | Cleaning(held: Cluster, next: nat, failed: bool)
    | Dropping(held: Cluster)

  /** `cache` is the informer's copy, which the controller-manager edits in place. */
  datatype StarterState = StarterState(
    seen: nat,
    cache: Option<Cluster>,
    start: bool,
    cancelled: bool,
    dirty: set<nat>,      // clean function i has something to remove iff i is in here
    passed: set<nat>,     // the clean functions that succeeded in the current pass
    swept: Option<nat>,   // the version read for the last pass in which all of them did
    pc: CmPc
  )

  datatype CtPc =
    | CtIdle
    | CtAdding(held: Cluster)
    | Clearing(held: Cluster)
    | DeletingNode(held: Cluster)
    | CtRemoving(held: Cluster)
    | CreatingNodes(held: Cluster, next: nat)

  datatype TreeState = TreeState(
    seen: nat,
    manager: Option<nat>,   // ControllerManagers[name]
    cancel: Option<nat>,    // ManagerCancelFuncs[name]
    contexts: nat,          // manager contexts created so far: 0, 1, ..., contexts - 1
    cancelled: set<nat>,
    nodes: set<string>,     // nodes of this cluster in the root cluster
    made: set<string>,      // every node name ever created for it
    pc: CtPc
  )

  datatype State = State(
    name: string,
    cleanFuncs: nat,
    store: Store,
    op: OperatorState,
    cm: StarterState,
    ct: TreeState
  )

  function Init(name: string, cleanFuncs: nat): State {
    State(name, cleanFuncs, Store([], false),
          OperatorState(0, {}, OpIdle),
          StarterState(0, None, false, false, {}, {}, None, CmIdle),
          TreeState(0, None, None, 0, {}, {}, {}, CtIdle))
  }

  // ---------------------------------------------------------------------------------------------
  // Steps
  // ---------------------------------------------------------------------------------------------

  datatype UserEvent =
    | Create(finalizers: set<Finalizer>, link: bool, tree: bool, models: seq<LeafModel>)
    | Edit(finalizers: set<Finalizer>, link: bool, tree: bool, models: seq<LeafModel>)
    | Delete

  datatype OpEvent =
    | OpRead(v: nat)
    | Install(applied: bool, ok: bool)
    | Uninstall(applied: bool, ok: bool)
    | OpWrite(reach: bool)
    | OpAbort

  datatype CmEvent =
    | Deliver(v: nat)
    | CmRead(aliased: bool)
    | Clean(i: nat, applied: bool, ok: bool)
    | CleanEnd(aliased: bool)
    | CmWrite(reach: bool)
    | Produce(i: nat)
    | CmAbort
    | CmCrash

  datatype CtEvent =
    | CtRead(v: nat)
    | CtWrite(reach: bool, ok: bool)
    | Clear
    | DeleteNode(applied: bool, ok: bool)
    | CreateNode(applied: bool, ok: bool)
    | Register
    | CtAbort
    | CtCrash

  datatype Event = User(u: UserEvent) | Op(o: OpEvent) | Cm(m: CmEvent) | Ct(t: CtEvent)

  predicate AllForeign(fs: set<Finalizer>) {
    forall f :: f in fs ==> f.Foreign?
  }

  function Owned(fs: set<Finalizer>): set<Finalizer> {
    set f | f in fs && !f.Foreign?
  }

  function UserStep(st: Store, e: UserEvent): Option<Store> {
    match e
    case Create(fs, link, tree, models) =>
      if st.live || !AllForeign(fs) then None
      else Some(Store(st.history + [Cluster(|st.history|, |st.history|, false, fs, link, tree, models)], true))
    case Edit(fs, link, tree, models) =>
      if !st.live || |st.history| == 0 || !AllForeign(fs) then None
      else
        var all := fs + Owned(st.Last().finalizers);
        var c := st.Last().(finalizers := all, link := link, tree := tree, models := models);
        if st.Admits(c) then Some(st.Commit(c)) else None
    case Delete =>
      if !st.live || |st.history| == 0 || st.Last().deleting then None
      else if st.Last().finalizers == {} then Some(st.(live := false))
      else Some(Store(st.history + [st.Last().(version := |st.history|, deleting := true)], true))
  }

  /** What the operator does with the object it has read. */
  function OpDispatch(c: Cluster): OpPc {
    if c.deleting && |c.finalizers| == 1 then Uninstalling(c, ADDONS)
    else if !c.link then OpIdle
    else Installing(c, 0)
  }

  function OpStep(st: Store, p: OperatorState, e: OpEvent): Option<(Store, OperatorState)> {
    match e
    case OpRead(v) =>
      if p.pc.OpIdle? && p.seen <= v < |st.history| then
        Some((st, p.(seen := v, pc := OpDispatch(st.history[v]))))
      else None
    case Install(applied, ok) =>
      if p.pc.Installing? && p.pc.next < ADDONS && (ok ==> applied) then
        var c := p.pc.held;
        var installed := if applied then p.installed + {p.pc.next} else p.installed;
        var pc :=
          if !ok then OpIdle
          else if p.pc.next + 1 < ADDONS then Installing(c, p.pc.next + 1)
          else if Operator in c.finalizers then OpIdle
          else OpAdding(c.(finalizers := c.finalizers + {Operator}));
        Some((st, p.(installed := installed, pc := pc)))
      else None
    case Uninstall(applied, ok) =>
      if p.pc.Uninstalling? && 0 < p.pc.left && (ok ==> applied) then
        var c := p.pc.held;
        var installed := if applied then p.installed - {p.pc.left - 1} else p.installed;
        var pc :=
          if !ok then OpIdle
          else if 1 < p.pc.left then Uninstalling(c, p.pc.left - 1)
          else if Operator in c.finalizers then OpRemoving(c.(finalizers := c.finalizers - {Operator}))
          else OpIdle;
        Some((st, p.(installed := installed, pc := pc)))
      else None
    case OpWrite(reach) =>
      if p.pc.OpAdding? || p.pc.OpRemoving? then
        Some((st.Put(p.pc.held, reach), p.(pc := OpIdle)))
      else None
    case OpAbort => Some((st, p.(pc := OpIdle)))
  }

  /** The informer's copy after the held object was edited; `aliased` says both are one object. */
  function Poison(cache: Option<Cluster>, edited: Cluster, aliased: bool): Option<Cluster> {
    if aliased && cache.Some? && cache.value.version == edited.version then Some(edited) else cache
  }

  function CmStep(st: Store, n: nat, p: StarterState, e: CmEvent): Option<(Store, StarterState)> {
    match e
    case Deliver(v) =>
      if p.seen <= v < |st.history| then Some((st, p.(seen := v, cache := Some(st.history[v])))) else None
    case CmRead(aliased) =>
      if !p.pc.CmIdle? || p.cache.None? then None
      else
        var c := p.cache.value;
        if c.deleting then Some((st, p.(cancelled := true, passed := {}, pc := Cleaning(c, 0, false))))
        else if p.start then Some((st, p))
        else if Starter in c.finalizers then Some((st, p.(start := true)))
        else
          var c' := c.(finalizers := c.finalizers + {Starter});
          Some((st, p.(start := true, cache := Poison(p.cache, c', aliased), pc := Ensuring(c'))))
    case Clean(i, applied, ok) =>
      if p.pc.Cleaning? && p.pc.next == i < n && (ok ==> applied) then
        var dirty := if applied then p.dirty - {i} else p.dirty;
        var passed := if ok then p.passed + {i} else p.passed;
        Some((st, p.(dirty := dirty, passed := passed, pc := p.pc.(next := i + 1, failed := p.pc.failed || !ok))))
      else None
    case CleanEnd(aliased) =>
      if p.pc.Cleaning? && p.pc.next == n then
        var c := p.pc.held;
        if p.pc.failed then Some((st, p.(pc := CmIdle)))
        else if Starter !in c.finalizers then Some((st, p.(swept := Some(c.version), pc := CmIdle)))
        else
          var c' := c.(finalizers := c.finalizers - {Starter});
          Some((st, p.(swept := Some(c.version), cache := Poison(p.cache, c', aliased), pc := Dropping(c'))))
      else None
    case CmWrite(reach) =>
      if p.pc.Ensuring? || p.pc.Dropping? then
        Some((st.Put(p.pc.held, reach), p.(pc := CmIdle)))
      else None
    case Produce(i) =>
      // the sub-controllers run under the context of the process, not under the one that is cancelled
      if p.start && i < n then Some((st, p.(dirty := p.dirty + {i}))) else None
    case CmAbort => Some((st, p.(pc := CmIdle)))
    case CmCrash => Some((st, p.(cache := None, start := false, cancelled := false, passed := {}, pc := CmIdle)))
  }

  /** The first n context ids. */
  function Below(n: nat): (ids: set<nat>)
    ensures forall i: nat :: i in ids <==> i < n
  {
    if n == 0 then {} else Below(n - 1) + {n - 1}
  }

  function CtStep(st: Store, name: string, p: TreeState, e: CtEvent): Option<(Store, TreeState)> {
    match e
    case CtRead(v) =>
      if p.pc.CtIdle? && p.seen <= v < |st.history| then
        var c := st.history[v];
        var pc := if !c.deleting && Tree !in c.finalizers
                  then CtAdding(c.(finalizers := c.finalizers + {Tree})) else Clearing(c);
        Some((st, p.(seen := v, pc := pc)))
      else None
    case CtWrite(reach, ok) =>
      if p.pc.CtAdding? then
        var st' := st.Put(p.pc.held, reach);
        var pc := if reach && ok && st.Admits(p.pc.held) && st'.live then Clearing(st'.Last()) else CtIdle;
        Some((st', p.(pc := pc)))
      else if p.pc.CtRemoving? then
        Some((st.Put(p.pc.held, reach), p.(pc := CtIdle)))
      else None
    case Clear =>
      if p.pc.Clearing? then
        var c := p.pc.held;
        var cancelled := if p.cancel.Some? then p.cancelled + {p.cancel.value} else p.cancelled;
        var pc := if c.deleting then DeletingNode(c) else if c.tree then CreatingNodes(c, 0) else CtIdle;
        Some((st, p.(manager := None, cancel := None, cancelled := cancelled, pc := pc)))
      else None
    case DeleteNode(applied, ok) =>
      if p.pc.DeletingNode? && (ok ==> applied) then
        var c := p.pc.held;
        var nodes := if applied then p.nodes - {name} else p.nodes;
        var pc := if ok && Tree in c.finalizers then CtRemoving(c.(finalizers := c.finalizers - {Tree})) else CtIdle;
        Some((st, p.(nodes := nodes, pc := pc)))
      else None
    case CreateNode(applied, ok) =>
      if p.pc.CreatingNodes? && p.pc.next < |RootNodes(name, p.pc.held.models)| && (ok ==> applied) then
        var node := RootNodes(name, p.pc.held.models)[p.pc.next];
        var p' := if applied then p.(nodes := p.nodes + {node}, made := p.made + {node}) else p;
        Some((st, p'.(pc := if ok then CreatingNodes(p.pc.held, p.pc.next + 1) else CtIdle)))
      else None
    case Register =>
      if p.pc.CreatingNodes? && p.pc.next == |RootNodes(name, p.pc.held.models)| then
        Some((st, p.(manager := Some(p.contexts), cancel := Some(p.contexts),
                     contexts := p.contexts + 1, pc := CtIdle)))
      else None
    case CtAbort => Some((st, p.(pc := CtIdle)))
    case CtCrash =>
      Some((st, p.(manager := None, cancel := None, cancelled := Below(p.contexts), pc := CtIdle)))
  }

  /** One step of the whole system, or None where the event is not possible. */
  function Step(s: State, e: Event): Option<State> {
    match e
    case User(u) =>
      (match UserStep(s.store, u)
       case None => None
       case Some(st) => Some(s.(store := st)))
    case Op(o) =>
      (match OpStep(s.store, s.op, o)
       case None => None
       case Some(r) => Some(s.(store := r.0, op := r.1)))
    case Cm(m) =>
      (match CmStep(s.store, s.cleanFuncs, s.cm, m)
       case None => None
       case Some(r) => Some(s.(store := r.0, cm := r.1)))
    case Ct(t) =>
      (match CtStep(s.store, s.name, s.ct, t)
       case None => None
       case Some(r) => Some(s.(store := r.0, ct := r.1)))
  }

  /** A whole run; None where some event of it is not possible. */
  function Replay(s: State, run: seq<Event>): Option<State> {
    if run == [] then Some(s)
    else
      match Replay(s, run[..|run| - 1])
      case None => None
      case Some(t) => Step(t, run[|run| - 1])
  }
}
