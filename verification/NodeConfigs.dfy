/**
  Convergence of the stored NodeConfig objects to the computed network configuration.
*/
module NodeConfigs {
  import opened Options

  /** The entries of the five lists are kept as their texts. */
  datatype Spec = Spec(devices: seq<string>, routes: seq<string>, iptables: seq<string>, fdbs: seq<string>,
                       arps: seq<string>)

  const EMPTY_SPEC := Spec([], [], [], [], [])

  const PREV := "prev"

  datatype NodeConfig = NodeConfig(spec: Spec, annotations: map<string, string>)

  type Store = map<string, NodeConfig>

  /**
    The names whose deletion, reading or writing fails during a pass.  A failed write to an unwritable
    name has no effect, one to an unanswered name has.  A deletion that fails although it took effect is
    like one that succeeds, because failed deletions are skipped; `undeletable` are those without effect.
  */
  datatype Faults = Faults(undeletable: set<string>, unreadable: set<string>, unwritable: set<string>,
                           unanswered: set<string>)

  /** The requests that a pass sends to change the stored objects. */
  datatype Calls = Calls(deletes: set<string>, writes: set<string>)

  const NO_CALLS := Calls({}, {})

  datatype OperationResult = Unchanged | Created | Updated | Error

  datatype Result = Done | RequeueLater | Failed

  // ---------------------------------------------------------------------------------------------
  // One pass
  // ---------------------------------------------------------------------------------------------

  /** The object that the mutate function makes of what is stored under `name`, or of the empty object. */
  function Desired(marshal: Spec -> string, store: Store, name: string, spec: Spec): NodeConfig {
    NodeConfig(spec, map[PREV := marshal(if name in store then store[name].spec else EMPTY_SPEC)])
  }

  /** Whether what is stored under `name` is already what the mutate function would make of it. */
  predicate UpToDate(marshal: Spec -> string, store: Store, name: string, spec: Spec) {
    name in store && store[name] == Desired(marshal, store, name, spec)
  }

  predicate Fails(marshal: Spec -> string, store: Store, name: string, spec: Spec, faults: Faults) {
    name in faults.unreadable
        || (!UpToDate(marshal, store, name, spec) && name in faults.unwritable + faults.unanswered)
  }

  /** A write takes effect although it fails. */
  predicate Lands(marshal: Spec -> string, store: Store, name: string, spec: Spec, faults: Faults) {
    && name !in faults.unreadable && !UpToDate(marshal, store, name, spec)
    && name in faults.unanswered && name !in faults.unwritable
  }

  function Cleared(store: Store, computed: map<string, Spec>, undeletable: set<string>): Store {
    map n | n in store && (n in computed || n in undeletable) :: store[n]
  }

  function Applied(marshal: Spec -> string, store: Store, computed: map<string, Spec>, done: set<string>): Store
    requires done <= computed.Keys
  {
    map n | n in store.Keys + done :: if n in done then Desired(marshal, store, n, computed[n]) else store[n]
  }

  /** The names whose objects have to be written. */
  function Outdated(marshal: Spec -> string, store: Store, computed: map<string, Spec>,
                    names: set<string>): set<string> {
    set n | n in names && n in computed && !UpToDate(marshal, store, n, computed[n])
  }

  /**
    A pass: the computed names it got through, those among its names that now hold what it wanted, its
    result and the store it leaves.
  */
  datatype Step = Step(faults: Faults, done: set<string>, landed: set<string>, result: Result, after: Store)

  /** The pass took the names in any order and stopped at the first failure, which may have taken effect. */
  ghost predicate Pass(marshal: Spec -> string, before: Store, computed: map<string, Spec>, p: Step) {
    && p.done <= p.landed <= computed.Keys
    && p.after == Applied(marshal, Cleared(before, computed, p.faults.undeletable), computed, p.landed)
    && (forall n | n in p.done :: !Fails(marshal, before, n, computed[n], p.faults))
    && (p.landed == p.done || OneMoreLanded(marshal, before, computed, p))
    && (p.result.Done? <==> p.done == computed.Keys)
    && (p.result.Failed? <==>
        exists n :: n in computed && n !in p.done && Fails(marshal, before, n, computed[n], p.faults))
    && !p.result.RequeueLater?
  }

  /** The write at which the pass stopped took effect. */
  ghost predicate OneMoreLanded(marshal: Spec -> string, before: Store, computed: map<string, Spec>, p: Step) {
    exists n :: n in computed && n !in p.done && p.landed == p.done + {n}
        && Lands(marshal, before, n, computed[n], p.faults)
  }

  /** The next name is stored as before the pass, so a failure and the new object can be told from there. */
  lemma ApplyNext(marshal: Spec -> string, before: Store, computed: map<string, Spec>, faults: Faults,
                  done: set<string>, name: string)
    requires done <= computed.Keys && name in computed && name !in done
    ensures var cleared := Cleared(before, computed, faults.undeletable);
            var store := Applied(marshal, cleared, computed, done);
            && (UpToDate(marshal, store, name, computed[name]) <==> UpToDate(marshal, before, name, computed[name]))
            && (Fails(marshal, store, name, computed[name], faults) <==>
                Fails(marshal, before, name, computed[name], faults))
            && (Lands(marshal, store, name, computed[name], faults) <==>
                Lands(marshal, before, name, computed[name], faults))
            && store[name := Desired(marshal, store, name, computed[name])]
                == Applied(marshal, cleared, computed, done + {name})
  {
  }

  class NetworkController {
    var store: Store
    const marshal: Spec -> string

    /** Reads the object, mutates it and writes it back unless nothing changed. */
    method CreateOrUpdate(name: string, config: Spec, faults: Faults) returns (result: OperationResult)
      modifies this
      ensures result.Error? <==> Fails(marshal, old(store), name, config, faults)
      ensures !result.Error? ==> (result.Unchanged? <==> UpToDate(marshal, old(store), name, config))
      ensures result.Created? ==> name !in old(store)
      ensures result.Updated? ==> name in old(store)
      ensures store == if result.Error? && !Lands(marshal, old(store), name, config, faults) then old(store)
                       else old(store)[name := Desired(marshal, old(store), name, config)]
    {
      if name in faults.unreadable {
        return Error;
      }
      if name !in store {
        var created := NodeConfig(config, map[PREV := marshal(EMPTY_SPEC)]);
        if name in faults.unwritable {
          return Error;
        }
        store := store[name := created];
        return if name in faults.unanswered then Error else Created;
      }
      var existing := store[name];
      var obj := NodeConfig(config, map[PREV := marshal(existing.spec)]);
      if existing == obj {
        return Unchanged;
      }
      if name in faults.unwritable {
        return Error;
      }
      store := store[name := obj];
      return if name in faults.unanswered then Error else Updated;
    }

    /** Deletes the stored objects that were not computed; a failed deletion is skipped. */
    method ClearNodeConfigs(computed: map<string, Spec>, faults: Faults) returns (deletes: set<string>)
      modifies this
      ensures store == Cleared(old(store), computed, faults.undeletable)
      ensures deletes == old(store).Keys - computed.Keys
    {
      var items := store.Keys;
      deletes := {};
      while items != {}
        invariant items <= old(store).Keys
        invariant deletes == old(store).Keys - items - computed.Keys
        invariant store == Cleared(old(store), computed, faults.undeletable + items)
      {
        var name :| name in items;
        if name !in computed {
          deletes := deletes + {name};
          if name !in faults.undeletable {
            store := store - {name};
          }
        }
        items := items - {name};
      }
      assert faults.undeletable + items == faults.undeletable;
    }

    /** One pass of the controller; `computed` is None if a list or the calculation failed. */
    method Reconcile(computed: Option<map<string, Spec>>, faults: Faults)
      returns (result: Result, calls: Calls, ghost pass: Step)
      modifies this
      ensures computed.None? ==> result == RequeueLater && calls == NO_CALLS && store == old(store)
      ensures computed.Some? ==> pass.faults == faults && pass.result == result && pass.after == store
      ensures computed.Some? ==> Pass(marshal, old(store), computed.value, pass)
      ensures computed.Some? ==> calls.deletes == old(store).Keys - computed.value.Keys
      ensures computed.Some? && result.Done? ==>
                calls.writes == Outdated(marshal, old(store), computed.value, computed.value.Keys)
      ensures computed.Some? && result.Failed? ==>
                && Outdated(marshal, old(store), computed.value, pass.landed) <= calls.writes
                && calls.writes <= Outdated(marshal, old(store), computed.value, computed.value.Keys)
    {
      pass := Step(faults, {}, {}, RequeueLater, store);
      if computed.None? {
        return RequeueLater, NO_CALLS, pass;
      }
      var nodeConfigs := computed.value;
      var deletes := ClearNodeConfigs(nodeConfigs, faults);
      ghost var before, cleared := old(store), store;
      ghost var done: set<string> := {};
      var writes: set<string> := {};
      var todo := nodeConfigs.Keys;
      while todo != {}
        invariant todo <= nodeConfigs.Keys && done == nodeConfigs.Keys - todo
        invariant store == Applied(marshal, cleared, nodeConfigs, done)
        invariant forall n | n in done :: !Fails(marshal, before, n, nodeConfigs[n], faults)
        invariant writes == Outdated(marshal, before, nodeConfigs, done)
      {
        var name :| name in todo;
        ApplyNext(marshal, before, nodeConfigs, faults, done, name);
        var r := CreateOrUpdate(name, nodeConfigs[name], faults);
        if !r.Unchanged? && name !in faults.unreadable {
          writes := writes + {name};
        }
        if r.Error? {
          ghost var landed := if Lands(marshal, before, name, nodeConfigs[name], faults) then done + {name} else done;
          pass := Step(faults, done, landed, Failed, store);
          return Failed, Calls(deletes, writes), pass;
        }
        todo := todo - {name};
        done := done + {name};
      }
      pass := Step(faults, done, done, Done, store);
      return Done, Calls(deletes, writes), pass;
    }
  }

  // ---------------------------------------------------------------------------------------------
  // What the passes lead to
  // ---------------------------------------------------------------------------------------------

  /** The store in which every computed object is final and nothing else is left. */
  function Settled(marshal: Spec -> string, computed: map<string, Spec>): Store {
    map n | n in computed :: NodeConfig(computed[n], map[PREV := marshal(computed[n])])
  }

  /** How many more writes the object can take: to its specification, and to its annotation. */
  function Rank(marshal: Spec -> string, store: Store, name: string, spec: Spec): nat {
    if name !in store || store[name].spec != spec then 2
    else if store[name].annotations != map[PREV := marshal(spec)] then 1
    else 0
  }

  /** Every pass, whatever fails in it, lowers the rank of what landed and keeps every other rank. */
  lemma PassLowersRank(marshal: Spec -> string, before: Store, computed: map<string, Spec>, p: Step, name: string)
    requires Pass(marshal, before, computed, p) && name in computed
    ensures var rank := Rank(marshal, before, name, computed[name]);
            var rank' := Rank(marshal, p.after, name, computed[name]);
            if name in p.landed && rank > 0 then rank' < rank else rank' == rank
  {
    var cleared := Cleared(before, computed, p.faults.undeletable);
    assert name in cleared <==> name in before;
  }

  /** A complete pass in which every deletion of a stored object takes effect. */
  ghost predicate CompletePass(marshal: Spec -> string, before: Store, computed: map<string, Spec>, p: Step) {
    Pass(marshal, before, computed, p) && p.result.Done? && p.faults.undeletable * before.Keys <= computed.Keys
  }

  /** One complete pass: exactly the computed names, each with its computed specification. */
  lemma CompletePassSettlesSpecs(marshal: Spec -> string, before: Store, computed: map<string, Spec>, p: Step)
    requires CompletePass(marshal, before, computed, p)
    ensures p.after.Keys == computed.Keys
    ensures forall n | n in computed :: p.after[n].spec == computed[n]
  {
    assert p.landed == computed.Keys;
    assert p.after.Keys == computed.Keys;
  }

  /** Two such passes reach the settled store from any store ... */
  lemma TwoCompletePassesSettle(marshal: Spec -> string, before: Store, computed: map<string, Spec>, p: Step, q: Step)
    requires CompletePass(marshal, before, computed, p) && Pass(marshal, p.after, computed, q) && q.result.Done?
    ensures q.after == Settled(marshal, computed)
  {
    CompletePassSettlesSpecs(marshal, before, computed, p);
    CompletePassSettlesSpecs(marshal, p.after, computed, q);
    forall n | n in computed ensures q.after[n] == Settled(marshal, computed)[n] {
      PassLowersRank(marshal, before, computed, p, n);
      PassLowersRank(marshal, p.after, computed, q, n);
    }
  }

  /** ... on which alone a pass has nothing to delete and nothing to write ... */
  lemma QuietIffSettled(marshal: Spec -> string, store: Store, computed: map<string, Spec>)
    ensures store.Keys <= computed.Keys && (forall n | n in computed :: UpToDate(marshal, store, n, computed[n]))
            <==> store == Settled(marshal, computed)
  {
    if store.Keys <= computed.Keys && (forall n | n in computed :: UpToDate(marshal, store, n, computed[n])) {
      forall n | n in computed ensures n in store && store[n] == Settled(marshal, computed)[n] {
        assert UpToDate(marshal, store, n, computed[n]);
      }
      assert store.Keys == computed.Keys;
    }
  }

  /** ... and which no pass leaves. */
  lemma SettledStays(marshal: Spec -> string, computed: map<string, Spec>, p: Step)
    requires Pass(marshal, Settled(marshal, computed), computed, p)
    ensures p.after == Settled(marshal, computed)
  {
    var before := Settled(marshal, computed);
    assert Cleared(before, computed, p.faults.undeletable) == before;
    forall n | n in p.landed ensures Desired(marshal, before, n, computed[n]) == before[n] {
      assert n in computed;
    }
  }

  // ---------------------------------------------------------------------------------------------
  // Whole runs
  // ---------------------------------------------------------------------------------------------

  ghost predicate Run(marshal: Spec -> string, before: Store, computed: map<string, Spec>, passes: seq<Step>)
    decreases |passes|
  {
    passes != [] ==>
      && Pass(marshal, before, computed, passes[0])
      && Run(marshal, passes[0].after, computed, passes[1..])
  }

  function Last(before: Store, passes: seq<Step>): Store {
    if passes == [] then before else passes[|passes| - 1].after
  }

  /** The passes that stored something new under `name`. */
  function Writes(marshal: Spec -> string, before: Store, spec: Spec, passes: seq<Step>, name: string): nat
    decreases |passes|
  {
    if passes == [] then 0
    else (if name in passes[0].landed && !UpToDate(marshal, before, name, spec) then 1 else 0)
         + Writes(marshal, passes[0].after, spec, passes[1..], name)
  }

  /** The passes after which `name` holds what they wanted. */
  function Visits(passes: seq<Step>, name: string): nat {
    if passes == [] then 0 else (if name in passes[0].landed then 1 else 0) + Visits(passes[1..], name)
  }

  /**
    Over a whole run, with any failures in any pass and whether or not failed writes took effect, an
    object is written at most twice, and once two passes landed on it, it is final.
  */
  lemma {:induction false} WrittenAtMostTwice(
      marshal: Spec -> string, before: Store, computed: map<string, Spec>, passes: seq<Step>, name: string)
    requires Run(marshal, before, computed, passes) && name in computed
    ensures Writes(marshal, before, computed[name], passes, name) <= Rank(marshal, before, name, computed[name]) <= 2
    ensures Visits(passes, name) >= Rank(marshal, before, name, computed[name]) ==>
              UpToDate(marshal, Last(before, passes), name, computed[name])
    decreases |passes|
  {
    if passes != [] {
      PassLowersRank(marshal, before, computed, passes[0], name);
      WrittenAtMostTwice(marshal, passes[0].after, computed, passes[1..], name);
      assert Last(before, passes) == Last(passes[0].after, passes[1..]);
    }
  }

  /** An object on which some pass landed holds its specification from then on. */
  lemma {:induction false} SpecStays(
      marshal: Spec -> string, before: Store, computed: map<string, Spec>, passes: seq<Step>, name: string)
    requires Run(marshal, before, computed, passes) && name in computed
    requires Visits(passes, name) >= 1 || (name in before && before[name].spec == computed[name])
    ensures name in Last(before, passes) && Last(before, passes)[name].spec == computed[name]
    decreases |passes|
  {
    if passes != [] {
      PassLowersRank(marshal, before, computed, passes[0], name);
      SpecStays(marshal, passes[0].after, computed, passes[1..], name);
      assert Last(before, passes) == Last(passes[0].after, passes[1..]);
    }
  }
}
