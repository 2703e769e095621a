/**
  Electors of any clusters at work at the same time, and other code with them.  A pass is a listing
  and then one update after the other; anything may happen in between.  An update is accepted only if
  the node is still stored in the version that was listed.
*/
module ElectionRuns {
  import opened Election

  /** Versions are handed out by the API server, each only once. */
  datatype Stored = Stored(node: ClusterNode, version: nat)
  datatype Store = Store(items: map<string, Stored>, revision: nat)

  /** An update that a pass still has to send: the node as listed, in which version, and as repaired. */
  datatype Pending = Pending(listed: ClusterNode, version: nat, repaired: ClusterNode)

  datatype Elector = Elector(leader: Leader, todo: seq<Pending>)

  datatype State = State(store: Store, electors: seq<Elector>)

  datatype Step =
    | List(i: nat, todo: seq<Pending>)          // elector i lists the nodes and prepares its updates
    | Update(i: nat, applied: bool, ok: bool)   // elector i sends its next update
    | Put(node: ClusterNode)                    // other code creates or changes a node
    | Remove(name: string)                      // other code deletes a node

  function NodesIn(st: Store): Nodes {
    map k | k in st.items :: st.items[k].node
  }

  function Stores(st: Store, n: ClusterNode): Store {
    Store(st.items[n.name := Stored(n, st.revision + 1)], st.revision + 1)
  }

  predicate Admits(st: Store, p: Pending) {
    p.listed.name in st.items && st.items[p.listed.name].version == p.version
  }

  /** The updates for the wrong nodes of the store, in any order. */
  ghost predicate IsPlan(st: Store, e: Leader, todo: seq<Pending>) {
    && (forall j | 0 <= j < |todo| :: Admits(st, todo[j]) && st.items[todo[j].listed.name].node == todo[j].listed)
    && (forall j | 0 <= j < |todo| :: Wrong(e, todo[j].listed) && Repaired(e, todo[j].listed, todo[j].repaired))
    && (forall k | k in WrongNames(e, NodesIn(st)) :: exists j | 0 <= j < |todo| :: todo[j].listed.name == k)
  }

  ghost predicate Enabled(s: State, step: Step) {
    match step
    case List(i, todo) => i < |s.electors| && s.electors[i].todo == [] && IsPlan(s.store, s.electors[i].leader, todo)
    case Update(i, applied, ok) => i < |s.electors| && s.electors[i].todo != [] && (ok ==> applied)
    case Put(_) => true
    case Remove(_) => true
  }

  /** Whether the step is an update that the store accepts. */
  predicate Accepts(s: State, step: Step) {
    step.Update? && step.i < |s.electors| && s.electors[step.i].todo != [] && step.applied
    && Admits(s.store, s.electors[step.i].todo[0])
  }

  /** A conflict, a lost request or a lost answer ends the pass. */
  function Next(s: State, step: Step): State
    requires step.List? || step.Update? ==> step.i < |s.electors|
    requires step.Update? ==> s.electors[step.i].todo != []
  {
    match step
    case List(i, todo) => s.(electors := s.electors[i := s.electors[i].(todo := todo)])
    case Update(i, _, ok) =>
      var todo := s.electors[i].todo;
      var store := if Accepts(s, step) then Stores(s.store, todo[0].repaired) else s.store;
      State(store, s.electors[i := s.electors[i].(todo := if Accepts(s, step) && ok then todo[1..] else [])])
    case Put(node) => s.(store := Stores(s.store, node))
    case Remove(name) => s.(store := s.store.(items := s.store.items - {name}))
  }

  // ---------------------------------------------------------------------------------------------
  // What every step keeps
  // ---------------------------------------------------------------------------------------------

  ghost predicate StoreOk(st: Store) {
    forall k | k in st.items :: st.items[k].node.name == k && st.items[k].version <= st.revision
  }

  /** The update puts a wrong node right, and a node that is still in its version is the node that was listed. */
  ghost predicate Sound(st: Store, e: Leader, p: Pending) {
    && Wrong(e, p.listed) && Repaired(e, p.listed, p.repaired)
    && p.version <= st.revision
    && (Admits(st, p) ==> st.items[p.listed.name].node == p.listed)
  }

  ghost predicate AllSound(st: Store, e: Elector) {
    forall j | 0 <= j < |e.todo| :: Sound(st, e.leader, e.todo[j])
  }

  ghost predicate Inv(s: State) {
    StoreOk(s.store) && forall i | 0 <= i < |s.electors| :: AllSound(s.store, s.electors[i])
  }

  /** A new version disturbs no prepared update but the one that it makes out of date. */
  lemma StoringKeepsSound(st: Store, n: ClusterNode, e: Leader, p: Pending)
    requires Sound(st, e, p)
    ensures Sound(Stores(st, n), e, p)
  {
  }

  lemma StepKeeps(s: State, step: Step)
    requires Inv(s) && Enabled(s, step)
    ensures Inv(Next(s, step))
  {
    var s' := Next(s, step);
    forall i | 0 <= i < |s'.electors| ensures AllSound(s'.store, s'.electors[i]) {
      assert AllSound(s.store, s.electors[i]);
      forall j | 0 <= j < |s'.electors[i].todo| ensures Sound(s'.store, s'.electors[i].leader, s'.electors[i].todo[j]) {
        var p := s'.electors[i].todo[j];
        if step.List? && step.i == i {
          assert Sound(s.store, s.electors[i].leader, p);
        } else {
          SoundBefore(s, step, i, j);
          if step.Put? {
            StoringKeepsSound(s.store, step.node, s.electors[i].leader, p);
          } else if Accepts(s, step) {
            StoringKeepsSound(s.store, s.electors[step.i].todo[0].repaired, s.electors[i].leader, p);
          }
        }
      }
    }
  }

  lemma SoundBefore(s: State, step: Step, i: nat, j: nat)
    requires Inv(s) && Enabled(s, step) && i < |s.electors| && !(step.List? && step.i == i)
    requires j < |Next(s, step).electors[i].todo|
    ensures Next(s, step).electors[i].leader == s.electors[i].leader
    ensures Sound(s.store, s.electors[i].leader, Next(s, step).electors[i].todo[j])
  {
    assert AllSound(s.store, s.electors[i]);
    if step.Update? && step.i == i {
      assert Next(s, step).electors[i].todo[j] == s.electors[i].todo[j + 1];
    }
  }

  ghost predicate Run(s: State, steps: seq<Step>)
    decreases |steps|
  {
    steps != [] ==> Enabled(s, steps[0]) && Run(Next(s, steps[0]), steps[1..])
  }

  ghost function After(s: State, steps: seq<Step>): State
    requires Run(s, steps)
    decreases |steps|
  {
    if steps == [] then s else After(Next(s, steps[0]), steps[1..])
  }

  lemma {:induction false} RunKeeps(s: State, steps: seq<Step>)
    requires Inv(s) && Run(s, steps)
    ensures Inv(After(s, steps))
    decreases |steps|
  {
    if steps != [] {
      StepKeeps(s, steps[0]);
      RunKeeps(Next(s, steps[0]), steps[1..]);
    }
  }

  // ---------------------------------------------------------------------------------------------
  // What an accepted update does
  // ---------------------------------------------------------------------------------------------

  /**
    Whatever happened since the listing, an accepted update takes exactly its own node from the wrong
    ones, unless the node is stubborn; no elector of another cluster notices.
  */
  lemma AcceptedUpdateRepairs(s: State, step: Step)
    requires Inv(s) && Accepts(s, step)
    ensures var e, k := s.electors[step.i].leader, s.electors[step.i].todo[0].listed.name;
            var before, after := NodesIn(s.store), NodesIn(Next(s, step).store);
            && k in WrongNames(e, before)
            && WrongNames(e, after)
                == (if k in Stubborn(e, before) then WrongNames(e, before) else WrongNames(e, before) - {k})
            && (forall e': Leader | e'.clusterName != e.clusterName :: WrongNames(e', after) == WrongNames(e', before))
  {
    var e, p := s.electors[step.i].leader, s.electors[step.i].todo[0];
    assert Sound(s.store, e, p);
    var before := NodesIn(s.store);
    assert NodesIn(Stores(s.store, p.repaired)) == before[p.listed.name := p.repaired];
    UpdateLowersWrong(e, before, p.listed.name, p.repaired);
  }

  /** Any other step of an elector changes no node. */
  lemma OtherStepsChangeNothing(s: State, step: Step)
    requires Enabled(s, step) && (step.List? || (step.Update? && !Accepts(s, step)))
    ensures Next(s, step).store == s.store
  {
  }

  // ---------------------------------------------------------------------------------------------
  // Whole runs
  // ---------------------------------------------------------------------------------------------

  /** All electors of e's cluster act for e. */
  ghost predicate Agree(s: State, e: Leader) {
    forall i | 0 <= i < |s.electors| && s.electors[i].leader.clusterName == e.clusterName :: s.electors[i].leader == e
  }

  /** An accepted update of one of e's electors to a node that is not stubborn. */
  ghost predicate Repairs(s: State, step: Step, e: Leader) {
    && Accepts(s, step) && s.electors[step.i].leader == e
    && s.electors[step.i].todo[0].listed.name !in Stubborn(e, NodesIn(s.store))
  }

  ghost function RepairCount(s: State, steps: seq<Step>, e: Leader): nat
    requires Run(s, steps)
    decreases |steps|
  {
    if steps == [] then 0
    else (if Repairs(s, steps[0], e) then 1 else 0) + RepairCount(Next(s, steps[0]), steps[1..], e)
  }

  lemma StepAccounts(s: State, step: Step, e: Leader)
    requires Inv(s) && Enabled(s, step) && Agree(s, e) && (step.List? || step.Update?)
    ensures var before, after := WrongNames(e, NodesIn(s.store)), WrongNames(e, NodesIn(Next(s, step).store));
            after <= before && |before| == |after| + (if Repairs(s, step, e) then 1 else 0)
    ensures Agree(Next(s, step), e)
  {
    if Accepts(s, step) {
      AcceptedUpdateRepairs(s, step);
    } else {
      OtherStepsChangeNothing(s, step);
    }
  }

  /**
    Over every run of electors alone, in any interleaving and with any conflicts and lost answers, the
    wrong nodes of a cluster go down by exactly one with every repair and never come back.
  */
  lemma {:induction false} WrongNodesAreAccounted(s: State, steps: seq<Step>, e: Leader)
    requires Inv(s) && Run(s, steps) && Agree(s, e)
    requires forall j | 0 <= j < |steps| :: steps[j].List? || steps[j].Update?
    ensures var before, after := WrongNames(e, NodesIn(s.store)), WrongNames(e, NodesIn(After(s, steps).store));
            after <= before && |before| == |after| + RepairCount(s, steps, e)
    decreases |steps|
  {
    if steps != [] {
      StepKeeps(s, steps[0]);
      StepAccounts(s, steps[0], e);
      WrongNodesAreAccounted(Next(s, steps[0]), steps[1..], e);
    }
  }
}
