/**
  The environment of a container: `envFrom` sources, `env` entries and service variables merged into
  one list of variables.

  The code merges through a map that the expansion of later entries reads while it is being filled,
  and iterates over Go maps, whose order is arbitrary.  `Visible` says, without any map, which value
  a name has for the i-th entry.
*/
module Environment {
  import opened Options
  import opened Expansion

  type Vars = map<Bytes, Bytes>

  /** A ConfigMap or Secret reference of `envFrom`; `data` is None if it could not be fetched. */
  datatype EnvFromSource = EnvFromSource(prefix: Bytes, optional: bool, data: Option<Vars>) | NoSource

  /** Where the value of an `env` entry comes from. */
  datatype ValueFrom =
    | KeyRef(optional: bool, data: Option<Vars>, key: Bytes)  // key of a ConfigMap or Secret
    | FieldRef(field: Option<Bytes>)                          // None: the field cannot be extracted
    | OtherRef                                                // resource fields and unknown references

  datatype EnvVar = EnvVar(name: Bytes, value: Bytes, valueFrom: Option<ValueFrom>)

  datatype Outcome = Resolved(value: Bytes) | Skipped | Failed

  // ---------------------------------------------------------------------------------------------
  // Meaning
  // ---------------------------------------------------------------------------------------------

  function Referenced(r: ValueFrom): Outcome {
    match r
    case KeyRef(optional, data, key) =>
      if data.Some? && key in data.value then Resolved(data.value[key])
      else if optional then Skipped
      else Failed
    case FieldRef(field) => if field.Some? then Resolved(field.value) else Failed
    case OtherRef => Skipped
  }

  function EntryOutcome(e: EnvVar, mapping: Bytes -> Bytes): Outcome {
    if e.valueFrom.Some? then Referenced(e.valueFrom.value) else Resolved(Expanded(e.value, mapping))
  }

  /** Whether an entry gives its name a value does not depend on other entries. */
  predicate Resolves(e: EnvVar) {
    e.valueFrom.None? || Referenced(e.valueFrom.value).Resolved?
  }

  predicate Fails(e: EnvVar) {
    e.valueFrom.Some? && Referenced(e.valueFrom.value).Failed?
  }

  /** The name `n` is a valid variable name made of the source's prefix and one of its keys. */
  predicate Defines(valid: Bytes -> bool, s: EnvFromSource, n: Bytes) {
    && s.EnvFromSource? && s.data.Some?
    && |s.prefix| <= |n| && n[..|s.prefix|] == s.prefix
    && n[|s.prefix|..] in s.data.value
    && valid(n)
  }

  function Defined(valid: Bytes -> bool, s: EnvFromSource, n: Bytes): Bytes
    requires Defines(valid, s, n)
  {
    s.data.value[n[|s.prefix|..]]
  }

  /** The last source that defines `n`, among the first k. */
  function LastSource(valid: Bytes -> bool, sources: seq<EnvFromSource>, k: nat, n: Bytes): (r: Option<nat>)
    requires k <= |sources|
    ensures r.Some? ==> r.value < k && Defines(valid, sources[r.value], n)
    ensures forall j :: 0 <= j < k && Defines(valid, sources[j], n) ==> r.Some? && j <= r.value
  {
    if k == 0 then None
    else if Defines(valid, sources[k - 1], n) then Some(k - 1)
    else LastSource(valid, sources, k - 1, n)
  }

  /** The last entry among the first i that gives `n` a value. */
  function LastEntry(envs: seq<EnvVar>, i: nat, n: Bytes): (r: Option<nat>)
    requires i <= |envs|
    ensures r.Some? ==> r.value < i && envs[r.value].name == n && Resolves(envs[r.value])
    ensures forall j :: 0 <= j < i && envs[j].name == n && Resolves(envs[j]) ==> r.Some? && j <= r.value
  {
    if i == 0 then None
    else if envs[i - 1].name == n && Resolves(envs[i - 1]) then Some(i - 1)
    else LastEntry(envs, i - 1, n)
  }

  datatype Inputs = Inputs(sources: seq<EnvFromSource>, envs: seq<EnvVar>, services: Vars)

  /** The value `envFrom` gives to `n`: that of the last source defining it. */
  function FromSources(valid: Bytes -> bool, sources: seq<EnvFromSource>, n: Bytes): Option<Bytes> {
    match LastSource(valid, sources, |sources|, n)
    case Some(k) => Some(Defined(valid, sources[k], n))
    case None => None
  }

  /** The value of `n` for the i-th entry: from the last earlier entry, else `envFrom`, else the services. */
  ghost function Visible(valid: Bytes -> bool, x: Inputs, i: nat, n: Bytes): Option<Bytes>
    requires i <= |x.envs|
    decreases i, 0
  {
    match LastEntry(x.envs, i, n)
    case Some(j) => Some(EntryValue(valid, x, j))
    case None =>
      var f := FromSources(valid, x.sources, n);
      if f.Some? then f
      else if n in x.services then Some(x.services[n])
      else None
  }

  /** The value of the i-th entry: a reference, or its text with every `$(X)` replaced by what is visible to it. */
  ghost function EntryValue(valid: Bytes -> bool, x: Inputs, i: nat): Bytes
    requires i < |x.envs| && Resolves(x.envs[i])
    decreases i, 2
  {
    if x.envs[i].valueFrom.Some? then Referenced(x.envs[i].valueFrom.value).value
    else Expanded(x.envs[i].value, n => Seen(valid, x, i, n))
  }

  ghost function Seen(valid: Bytes -> bool, x: Inputs, i: nat, n: Bytes): Bytes
    requires i < |x.envs|
    decreases i, 1
  {
    var v := Visible(valid, x, i, n);
    if v.Some? then v.value else SyntaxWrap(n)
  }

  /** Expansion depends on the mapping only through its values. */
  lemma {:induction false} ExpandedPointwise(s: Bytes, f: Bytes -> Bytes, g: Bytes -> Bytes)
    requires forall n :: f(n) == g(n)
    ensures Expanded(s, f) == Expanded(s, g)
    decreases |s|
  {
    if s != [] {
      ExpandedPointwise(Next(s).1, f, g);
    }
  }

  // ---------------------------------------------------------------------------------------------
  // envFrom
  // ---------------------------------------------------------------------------------------------

  /** `vars` holds exactly what the first k sources define. */
  ghost predicate HoldsSources(valid: Bytes -> bool, sources: seq<EnvFromSource>, k: nat, vars: Vars)
    requires k <= |sources|
  {
    forall n ::
      var j := LastSource(valid, sources, k, n);
      && (n in vars <==> j.Some?)
      && (j.Some? ==> n in vars && vars[n] == Defined(valid, sources[j.value], n))
  }

  predicate Unreadable(s: EnvFromSource) {
    s.EnvFromSource? && s.data.None? && !s.optional
  }

  /** Adds one source; the keys come in an arbitrary order. */
  method AddSource(valid: Bytes -> bool, s: EnvFromSource, vars: Vars) returns (res: Vars)
    requires s.EnvFromSource? && s.data.Some?
    ensures forall n ::
              && (n in res <==> n in vars || Defines(valid, s, n))
              && (Defines(valid, s, n) ==> n in res && res[n] == Defined(valid, s, n))
              && (n in vars && !Defines(valid, s, n) ==> n in res && res[n] == vars[n])
  {
    res := vars;
    var data := s.data.value;
    var todo := data.Keys;
    while todo != {}
      invariant todo <= data.Keys
      invariant forall n ::
          var done := Defines(valid, s, n) && n[|s.prefix|..] !in todo;
          && (n in res <==> n in vars || done)
          && (done ==> n in res && res[n] == Defined(valid, s, n))
          && (n in vars && !done ==> n in res && res[n] == vars[n])
      decreases todo
    {
      var key :| key in todo;
      var name := if |s.prefix| > 0 then s.prefix + key else key;
      assert name[..|s.prefix|] == s.prefix && name[|s.prefix|..] == key;
      assert forall n: Bytes :: |s.prefix| <= |n| && n[..|s.prefix|] == s.prefix && n[|s.prefix|..] == key ==>
          n == n[..|s.prefix|] + n[|s.prefix|..] == name;
      if valid(name) {
        res := res[name := data[key]];
      }
      todo := todo - {key};
    }
  }

  /** The map from `envFrom`: None exactly if some mandatory source cannot be read. */
  method MakeEnvironmentMapBasedOnEnvFrom(valid: Bytes -> bool, sources: seq<EnvFromSource>) returns (res: Option<Vars>)
    ensures res.None? <==> exists s :: s in sources && Unreadable(s)
    ensures res.Some? ==> HoldsSources(valid, sources, |sources|, res.value)
  {
    var vars: Vars := map[];
    for k := 0 to |sources|
      invariant forall j :: 0 <= j < k ==> !Unreadable(sources[j])
      invariant HoldsSources(valid, sources, k, vars)
    {
      var s := sources[k];
      if s.EnvFromSource? {
        if s.data.None? {
          if !s.optional {
            assert sources[k] in sources && Unreadable(sources[k]);
            return None;
          }
        } else {
          vars := AddSource(valid, s, vars);
        }
      }
    }
    res := Some(vars);
  }

  // ---------------------------------------------------------------------------------------------
  // env entries and services
  // ---------------------------------------------------------------------------------------------

  /** `vars` holds exactly the names with a value from the first i entries or from `envFrom`. */
  ghost predicate HoldsEntries(valid: Bytes -> bool, x: Inputs, i: nat, vars: Vars)
    requires i <= |x.envs|
  {
    forall n ::
      && (n in vars <==> LastEntry(x.envs, i, n).Some? || FromSources(valid, x.sources, n).Some?)
      && (n in vars ==> Visible(valid, x, i, n) == Some(vars[n]))
  }

  /** The mapping closure over the current map and the services is what the entry sees. */
  lemma MappingIsSeen(valid: Bytes -> bool, x: Inputs, i: nat, vars: Vars, n: Bytes)
    requires i < |x.envs| && HoldsEntries(valid, x, i, vars)
    ensures MappingFor([vars, x.services], n) == Seen(valid, x, i, n)
  {
    MappingIsFirstMatch([vars, x.services], n, if n in vars then 0 else if n in x.services then 1 else 2);
    assert n in [vars, x.services][0] <==> n in vars;
    assert n in [vars, x.services][1] <==> n in x.services;
  }

  method GetEnvironmentVariableValue(e: EnvVar, mapping: Bytes -> Bytes) returns (r: Outcome)
    ensures r == EntryOutcome(e, mapping)
  {
    if e.valueFrom.Some? {
      r := Referenced(e.valueFrom.value);
    } else {
      var v := Expand(e.value, mapping);
      r := Resolved(v);
    }
  }

  /** The entries that fail, in order. */
  function FailedEntries(envs: seq<EnvVar>): seq<EnvVar> {
    if envs == [] then []
    else FailedEntries(envs[..|envs| - 1]) + (if Fails(envs[|envs| - 1]) then [envs[|envs| - 1]] else [])
  }

  /** The i-th entry seen through the closure has its declared value. */
  lemma EntryStep(valid: Bytes -> bool, x: Inputs, i: nat, vars: Vars, mapping: Bytes -> Bytes)
    requires i < |x.envs| && HoldsEntries(valid, x, i, vars)
    requires forall n :: mapping(n) == MappingFor([vars, x.services], n)
    ensures var r := EntryOutcome(x.envs[i], mapping);
            && (r.Resolved? <==> Resolves(x.envs[i]))
            && (r.Resolved? ==> r.value == EntryValue(valid, x, i))
  {
    forall n ensures mapping(n) == Seen(valid, x, i, n) {
      MappingIsSeen(valid, x, i, vars, n);
    }
    ExpandedPointwise(x.envs[i].value, mapping, n => Seen(valid, x, i, n));
  }

  lemma EntriesAdvance(valid: Bytes -> bool, x: Inputs, i: nat, vars: Vars, vars': Vars)
    requires i < |x.envs| && HoldsEntries(valid, x, i, vars)
    requires vars' == if Resolves(x.envs[i]) then vars[x.envs[i].name := EntryValue(valid, x, i)] else vars
    ensures HoldsEntries(valid, x, i + 1, vars')
  {
    forall n
      ensures n in vars' <==> LastEntry(x.envs, i + 1, n).Some? || FromSources(valid, x.sources, n).Some?
      ensures n in vars' ==> Visible(valid, x, i + 1, n) == Some(vars'[n])
    {
      if !(x.envs[i].name == n && Resolves(x.envs[i])) {
        assert Visible(valid, x, i + 1, n) == Visible(valid, x, i, n);
      }
    }
  }

  /** `vars` is the whole environment: every name that has a value, with the value it has after all entries. */
  ghost predicate IsEnvironment(valid: Bytes -> bool, x: Inputs, vars: Vars) {
    forall n ::
      && (n in vars <==> Visible(valid, x, |x.envs|, n).Some?)
      && (n in vars ==> Visible(valid, x, |x.envs|, n) == Some(vars[n]))
  }

  method MakeEnvironmentMap(valid: Bytes -> bool, x: Inputs, vars: Vars) returns (res: Vars, failed: seq<EnvVar>)
    requires HoldsSources(valid, x.sources, |x.sources|, vars)
    ensures IsEnvironment(valid, x, res)
    ensures failed == FailedEntries(x.envs)
  {
    res, failed := vars, [];
    for i := 0 to |x.envs|
      invariant HoldsEntries(valid, x, i, res)
      invariant failed == FailedEntries(x.envs[..i])
    {
      var e := x.envs[i];
      var current := res;
      var mapping := (n: Bytes) => MappingFor([current, x.services], n);
      var r := GetEnvironmentVariableValue(e, mapping);
      EntryStep(valid, x, i, current, mapping);
      if r.Failed? {
        failed := failed + [e];
      }
      if r.Resolved? {
        res := res[e.name := r.value];
      }
      EntriesAdvance(valid, x, i, current, res);
      assert x.envs[..i + 1][..i] == x.envs[..i];
    }
    assert x.envs[..|x.envs|] == x.envs;
    res := AppendServices(x.services, res);
  }

  /** Adds the service variables that no one else defines, in an arbitrary order. */
  method AppendServices(services: Vars, vars: Vars) returns (res: Vars)
    ensures res == services + vars
  {
    res := vars;
    var todo := services.Keys;
    while todo != {}
      invariant todo <= services.Keys
      invariant res == (services - todo) + vars
      decreases todo
    {
      var k :| k in todo;
      if k !in res {
        res := res[k := services[k]];
      }
      todo := todo - {k};
    }
    assert services - {} == services;
  }

  // ---------------------------------------------------------------------------------------------
  // The container
  // ---------------------------------------------------------------------------------------------

  function Variable(n: Bytes, v: Bytes): EnvVar {
    EnvVar(n, v, None)
  }

  /** The list holds every variable of the map exactly once, and nothing else. */
  ghost predicate Lists(list: seq<EnvVar>, vars: Vars) {
    && (forall i :: 0 <= i < |list| ==> list[i].name in vars && list[i] == Variable(list[i].name, vars[list[i].name]))
    && (forall n :: n in vars ==> exists i :: 0 <= i < |list| && list[i].name == n)
    && DistinctNames(list)
  }

  ghost predicate DistinctNames(list: seq<EnvVar>) {
    forall i, j :: 0 <= i < j < |list| ==> list[i].name != list[j].name
  }

  method ListVariables(vars: Vars) returns (list: seq<EnvVar>)
    ensures Lists(list, vars)
  {
    list := [];
    var todo := vars.Keys;
    while todo != {}
      invariant todo <= vars.Keys
      invariant Lists(list, vars - todo)
      decreases todo
    {
      var k :| k in todo;
      ghost var before := list;
      list := list + [Variable(k, vars[k])];
      assert forall i :: 0 <= i < |before| ==> list[i] == before[i];
      forall n | n in vars - (todo - {k})
        ensures exists i :: 0 <= i < |list| && list[i].name == n
      {
        if n == k {
          assert list[|before|].name == n;
        } else {
          assert n in vars - todo;
          var i :| 0 <= i < |before| && before[i].name == n;
          assert list[i].name == n;
        }
      }
      todo := todo - {k};
    }
    assert vars - {} == vars;
  }

  // ---------------------------------------------------------------------------------------------
  // Laws
  // ---------------------------------------------------------------------------------------------

  /** A name takes its last resolving entry, else the last source that defines it, else the service variable. */
  lemma Precedence(valid: Bytes -> bool, x: Inputs, vars: Vars, n: Bytes)
    requires IsEnvironment(valid, x, vars)
    ensures match LastEntry(x.envs, |x.envs|, n)
            case Some(j) => n in vars && vars[n] == EntryValue(valid, x, j)
            case None =>
              match LastSource(valid, x.sources, |x.sources|, n)
              case Some(k) => n in vars && vars[n] == Defined(valid, x.sources[k], n)
              case None => (n in vars <==> n in x.services) && (n in vars ==> vars[n] == x.services[n])
  {
    assert n in vars <==> Visible(valid, x, |x.envs|, n).Some?;
  }

  /** No iteration order can make a difference: the environment is determined by the inputs. */
  lemma EnvironmentIsUnique(valid: Bytes -> bool, x: Inputs, vars: Vars, vars': Vars)
    requires IsEnvironment(valid, x, vars) && IsEnvironment(valid, x, vars')
    ensures vars == vars'
  {
    forall n ensures n in vars <==> n in vars' {
      assert n in vars <==> Visible(valid, x, |x.envs|, n).Some?;
    }
    assert vars.Keys == vars'.Keys;
    forall n | n in vars ensures vars[n] == vars'[n] {
      assert Visible(valid, x, |x.envs|, n) == Some(vars[n]);
    }
  }

  lemma {:induction false} LastEntryLocal(envs: seq<EnvVar>, envs': seq<EnvVar>, i: nat, n: Bytes)
    requires i <= |envs| && i <= |envs'| && envs[..i] == envs'[..i]
    ensures LastEntry(envs, i, n) == LastEntry(envs', i, n)
  {
    if i > 0 {
      assert envs[i - 1] == envs[..i][i - 1] == envs'[i - 1];
      assert envs[..i - 1] == envs[..i][..i - 1] == envs'[..i - 1];
      LastEntryLocal(envs, envs', i - 1, n);
    }
  }

  /** What an entry sees, and so its value, depends on no later entry. */
  lemma {:induction false} EntrySeesOnlyEarlier(valid: Bytes -> bool, x: Inputs, x': Inputs, i: nat)
    requires i < |x.envs| && i < |x'.envs| && x.envs[..i + 1] == x'.envs[..i + 1]
    requires x.sources == x'.sources && x.services == x'.services
    requires Resolves(x.envs[i])
    ensures x'.envs[i] == x.envs[i]
    ensures EntryValue(valid, x, i) == EntryValue(valid, x', i)
    decreases i
  {
    assert x.envs[i] == x.envs[..i + 1][i] == x'.envs[i];
    forall n ensures Seen(valid, x, i, n) == Seen(valid, x', i, n) {
      assert x.envs[..i] == x.envs[..i + 1][..i] == x'.envs[..i];
      LastEntryLocal(x.envs, x'.envs, i, n);
      match LastEntry(x.envs, i, n)
      case None =>
      case Some(j) =>
        assert x.envs[..j + 1] == x.envs[..i][..j + 1] == x'.envs[..j + 1];
        EntrySeesOnlyEarlier(valid, x, x', j);
    }
    ExpandedPointwise(x.envs[i].value, n => Seen(valid, x, i, n), n => Seen(valid, x', i, n));
  }

  /** What a successful call leaves in `env`. */
  ghost predicate Populated(valid: Bytes -> bool, x: Inputs, env: seq<EnvVar>) {
    exists vars, list :: IsEnvironment(valid, x, vars) && Lists(list, vars) && env == list + FailedEntries(x.envs)
  }

  /**
    The failing entries have names of their own: no other failing entry, no resolving entry, no
    source and no service has them.
  */
  ghost predicate FailuresStandAlone(valid: Bytes -> bool, x: Inputs) {
    && FailingNamesDiffer(x.envs)
    && (forall i | 0 <= i < |x.envs| && Fails(x.envs[i]) :: NobodyGives(valid, x, x.envs[i].name))
  }

  ghost predicate FailingNamesDiffer(envs: seq<EnvVar>) {
    forall i, j | 0 <= i < j < |envs| && Fails(envs[i]) && Fails(envs[j]) :: envs[i].name != envs[j].name
  }

  ghost predicate NobodyGives(valid: Bytes -> bool, x: Inputs, n: Bytes) {
    && (forall j | 0 <= j < |x.envs| && x.envs[j].name == n :: !Resolves(x.envs[j]))
    && (forall k | 0 <= k < |x.sources| :: !Defines(valid, x.sources[k], n))
    && n !in x.services
  }

  lemma NobodyGivesIff(valid: Bytes -> bool, x: Inputs, vars: Vars, n: Bytes)
    requires IsEnvironment(valid, x, vars)
    ensures n !in vars <==> NobodyGives(valid, x, n)
  {
    Precedence(valid, x, vars, n);
  }

  lemma {:induction false} FailedMembers(envs: seq<EnvVar>)
    ensures forall e :: e in FailedEntries(envs) <==> e in envs && Fails(e)
  {
    if envs != [] {
      var init, last := envs[..|envs| - 1], envs[|envs| - 1];
      FailedMembers(init);
      assert forall e :: e in envs <==> e in init || e == last;
    }
  }

  lemma {:induction false} FailedDistinct(envs: seq<EnvVar>)
    ensures DistinctNames(FailedEntries(envs)) <==> FailingNamesDiffer(envs)
  {
    if envs != [] {
      var init, last := envs[..|envs| - 1], envs[|envs| - 1];
      FailedDistinct(init);
      FailedMembers(init);
      DifferAppend(init, last);
      assert envs == init + [last];
      if Fails(last) {
        assert FailedEntries(envs) == FailedEntries(init) + [last];
        DistinctAppend(FailedEntries(init), last);
      } else {
        assert FailedEntries(envs) == FailedEntries(init);
      }
    }
  }

  lemma DistinctAppend(list: seq<EnvVar>, e: EnvVar)
    ensures DistinctNames(list + [e]) <==> DistinctNames(list) && forall f | f in list :: f.name != e.name
  {
    var all := list + [e];
    assert all[|list|] == e;
    forall i | 0 <= i < |list| ensures all[i] == list[i] {
    }
    if DistinctNames(all) {
      forall f | f in list ensures f.name != e.name {
        var i :| 0 <= i < |list| && list[i] == f;
        assert all[i].name != all[|list|].name;
      }
      forall i, j | 0 <= i < j < |list| ensures list[i].name != list[j].name {
        assert all[i].name != all[j].name;
      }
    }
  }

  lemma DifferAppend(envs: seq<EnvVar>, e: EnvVar)
    ensures FailingNamesDiffer(envs + [e]) <==>
              FailingNamesDiffer(envs) && (Fails(e) ==> forall f | f in envs && Fails(f) :: f.name != e.name)
  {
    var all := envs + [e];
    assert all[|envs|] == e;
    forall i | 0 <= i < |envs| ensures all[i] == envs[i] {
    }
    if FailingNamesDiffer(all) {
      forall f | f in envs && Fails(f) && Fails(e) ensures f.name != e.name {
        var i :| 0 <= i < |envs| && envs[i] == f;
        assert all[i].name != all[|envs|].name;
      }
      forall i, j | 0 <= i < j < |envs| && Fails(envs[i]) && Fails(envs[j]) ensures envs[i].name != envs[j].name {
        assert all[i].name != all[j].name;
      }
    }
  }

  lemma ConcatDistinct(list: seq<EnvVar>, vars: Vars, failed: seq<EnvVar>)
    requires Lists(list, vars)
    ensures DistinctNames(list + failed) <==>
              DistinctNames(failed) && forall i :: 0 <= i < |failed| ==> failed[i].name !in vars
  {
    var all := list + failed;
    assert forall i :: 0 <= i < |failed| ==> all[|list| + i] == failed[i];
    if DistinctNames(all) {
      forall i | 0 <= i < |failed| ensures failed[i].name !in vars {
        assert forall j :: 0 <= j < |list| ==> list[j].name == all[j].name != all[|list| + i].name;
      }
      forall i, j | 0 <= i < j < |failed| ensures failed[i].name != failed[j].name {
        assert all[|list| + i].name != all[|list| + j].name;
      }
    }
  }

  /**
    The failed entries are appended as they are, so the result can name a variable twice.  Its names
    are distinct exactly if the failing entries have names of their own.
  */
  lemma NamesDistinctIff(valid: Bytes -> bool, x: Inputs, env: seq<EnvVar>)
    requires Populated(valid, x, env)
    ensures DistinctNames(env) <==> FailuresStandAlone(valid, x)
  {
    var vars, list :| IsEnvironment(valid, x, vars) && Lists(list, vars) && env == list + FailedEntries(x.envs);
    var failed := FailedEntries(x.envs);
    ConcatDistinct(list, vars, failed);
    FailedDistinct(x.envs);
    FailedMembers(x.envs);
    if FailuresStandAlone(valid, x) {
      forall i | 0 <= i < |failed| ensures failed[i].name !in vars {
        assert failed[i] in failed;
        NobodyGivesIff(valid, x, vars, failed[i].name);
      }
    }
    if DistinctNames(env) {
      forall i | 0 <= i < |x.envs| && Fails(x.envs[i]) ensures NobodyGives(valid, x, x.envs[i].name) {
        assert x.envs[i] in failed;
        NobodyGivesIff(valid, x, vars, x.envs[i].name);
      }
    }
  }

  /** A reference that fails and a later one of the same name that does not: the name comes out twice. */
  lemma RepeatedName(valid: Bytes -> bool, n: Bytes, v: Bytes) returns (x: Inputs, env: seq<EnvVar>)
    ensures Populated(valid, x, env) && !DistinctNames(env)
  {
    var bad, good := EnvVar(n, [], Some(FieldRef(None))), EnvVar(n, [], Some(FieldRef(Some(v))));
    x := Inputs([], [bad, good], map[]);
    var vars: Vars := map[n := v];
    forall m
      ensures m in vars <==> Visible(valid, x, 2, m).Some?
      ensures m in vars ==> Visible(valid, x, 2, m) == Some(vars[m])
    {
      assert LastEntry(x.envs, 2, m) == if m == n then Some(1) else None;
    }
    env := [Variable(n, v), bad];
    assert FailedEntries(x.envs) == [bad] by {
      assert x.envs[..1] == [bad] && [bad][..0] == [];
      assert FailedEntries([bad]) == FailedEntries([]) + [bad];
    }
    var list := [Variable(n, v)];
    assert list[0].name == n;
    assert Lists(list, vars) && env == list + FailedEntries(x.envs);
    assert env[0].name == env[1].name;
  }

  class Container {
    var env: seq<EnvVar>
    var envFrom: seq<EnvFromSource>

    /**
      Replaces `env` and `envFrom` by the resolved environment followed by the entries that failed.
      On an error the container is left as it was.
    */
    method PopulateContainerEnvironment(valid: Bytes -> bool, services: Option<Vars>) returns (ok: bool)
      modifies this
      ensures ok <==> services.Some? && forall s :: s in old(envFrom) ==> !Unreadable(s)
      ensures !ok ==> env == old(env) && envFrom == old(envFrom)
      ensures ok ==> envFrom == [] && Populated(valid, Inputs(old(envFrom), old(env), services.value), env)
      ensures ok ==> (DistinctNames(env) <==> FailuresStandAlone(valid, Inputs(old(envFrom), old(env), services.value)))
    {
      var fromSources := MakeEnvironmentMapBasedOnEnvFrom(valid, envFrom);
      if fromSources.None? || services.None? {
        return false;
      }
      ghost var x := Inputs(envFrom, env, services.value);
      var res, failed := MakeEnvironmentMap(valid, Inputs(envFrom, env, services.value), fromSources.value);
      envFrom := [];
      var list := ListVariables(res);
      env := list + failed;
      NamesDistinctIff(valid, x, env);
      ok := true;
    }
  }
}
