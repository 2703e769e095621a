/**
  Gateway election: the elected node of a cluster marks its own ClusterNodes with the gateway role
  and takes the role from all others of that cluster.
*/
module Election {
  import opened Sequences

  const GATEWAY := "gateway"

  datatype ClusterNode = ClusterNode(name: string, clusterName: string, nodeName: string, roles: seq<string>)

  function ToLower(c: char): char {
    if 'A' <= c <= 'Z' then ((c as int) + 32) as char else c
  }

  /** Equality up to the case of ASCII letters. */
  predicate EqualFold(s: string, t: string) {
    |s| == |t| && forall i :: 0 <= i < |s| ==> ToLower(s[i]) == ToLower(t[i])
  }

  function RoleSet(n: ClusterNode): set<string> {
    SetOf(n.roles)
  }

  predicate IsGateway(n: ClusterNode) {
    exists r :: r in n.roles && EqualFold(GATEWAY, r)
  }

  /** The role in another spelling than the constant. */
  predicate Misspelt(n: ClusterNode) {
    exists r :: r in n.roles && EqualFold(GATEWAY, r) && r != GATEWAY
  }

  // ---------------------------------------------------------------------------------------------
  // Roles
  // ---------------------------------------------------------------------------------------------

  /** The elements of a set in an arbitrary order. */
  method UnsortedList(s: set<string>) returns (l: seq<string>)
    ensures SetOf(l) == s && |l| == |s|
  {
    l := [];
    var todo := s;
    while todo != {}
      invariant todo <= s && SetOf(l) == s - todo && |l| + |todo| == |s|
      decreases todo
    {
      var r :| r in todo;
      ghost var before := l;
      l := l + [r];
      assert SetOf(l) == SetOf(before) + {r};
      todo := todo - {r};
    }
  }

  method AddRole(n: ClusterNode, role: string) returns (n': ClusterNode)
    ensures n' == n.(roles := n'.roles) && RoleSet(n') == RoleSet(n) + {role}
  {
    var roleSet := {};
    for i := 0 to |n.roles|
      invariant roleSet == SetOf(n.roles[..i])
    {
      roleSet := roleSet + {n.roles[i]};
    }
    roleSet := roleSet + {role};
    var roles := UnsortedList(roleSet);
    assert n.roles[..|n.roles|] == n.roles;
    n' := n.(roles := roles);
  }

  method RemoveRole(n: ClusterNode, role: string) returns (n': ClusterNode)
    ensures n' == n.(roles := n'.roles) && RoleSet(n') == RoleSet(n) - {role}
  {
    var roleSet := {};
    for i := 0 to |n.roles|
      invariant roleSet == SetOf(n.roles[..i])
    {
      roleSet := roleSet + {n.roles[i]};
    }
    roleSet := roleSet - {role};
    var roles := UnsortedList(roleSet);
    assert n.roles[..|n.roles|] == n.roles;
    n' := n.(roles := roles);
  }

  // ---------------------------------------------------------------------------------------------
  // What a pass should do
  // ---------------------------------------------------------------------------------------------

  datatype Leader = Leader(clusterName: string, nodeName: string)

  predicate ShouldBeGateway(e: Leader, n: ClusterNode) {
    n.nodeName == e.nodeName
  }

  predicate Wrong(e: Leader, n: ClusterNode) {
    n.clusterName == e.clusterName && IsGateway(n) != ShouldBeGateway(e, n)
  }

  /** `n'` is `n` with the gateway role added or removed as it should be; other roles stay. */
  ghost predicate Repaired(e: Leader, n: ClusterNode, n': ClusterNode) {
    && n' == n.(roles := n'.roles)
    && RoleSet(n') == if ShouldBeGateway(e, n) then RoleSet(n) + {GATEWAY} else RoleSet(n) - {GATEWAY}
  }

  /** A repaired node is right, unless it must lose the role but bears it in another spelling. */
  lemma RepairedIsRight(e: Leader, n: ClusterNode, n': ClusterNode)
    requires Wrong(e, n) && Repaired(e, n, n')
    ensures Wrong(e, n') <==> !ShouldBeGateway(e, n) && Misspelt(n)
    ensures forall r :: r != GATEWAY ==> (r in n'.roles <==> r in n.roles)
  {
    assert forall r :: r in n'.roles <==> r in RoleSet(n');
    assert forall r :: r in n.roles <==> r in RoleSet(n);
    assert EqualFold(GATEWAY, GATEWAY);
    if ShouldBeGateway(e, n) {
      assert GATEWAY in n'.roles;
    } else if Misspelt(n) {
      var r :| r in n.roles && EqualFold(GATEWAY, r) && r != GATEWAY;
      assert r in n'.roles;
    }
  }

  function WrongOnes(e: Leader, nodes: seq<ClusterNode>): seq<ClusterNode> {
    if nodes == [] then []
    else
      var last := nodes[|nodes| - 1];
      WrongOnes(e, nodes[..|nodes| - 1]) + (if Wrong(e, last) then [last] else [])
  }

  ghost predicate AllRepaired(e: Leader, from: seq<ClusterNode>, to: seq<ClusterNode>) {
    |from| == |to| && forall i :: 0 <= i < |from| ==> Repaired(e, from[i], to[i])
  }

  /** Exactly the wrong nodes, in list order, each repaired. */
  method GenModifyNode(e: Leader, clusterNodes: seq<ClusterNode>) returns (modifyNodes: seq<ClusterNode>)
    ensures AllRepaired(e, WrongOnes(e, clusterNodes), modifyNodes)
  {
    modifyNodes := [];
    for i := 0 to |clusterNodes|
      invariant AllRepaired(e, WrongOnes(e, clusterNodes[..i]), modifyNodes)
    {
      var n := clusterNodes[i];
      assert clusterNodes[..i + 1][..i] == clusterNodes[..i];
      var isGateway := IsGateway(n);
      var isCurrentNode := n.nodeName == e.nodeName;
      if n.clusterName == e.clusterName {
        if !isCurrentNode && isGateway {
          var n' := RemoveRole(n, GATEWAY);
          modifyNodes := modifyNodes + [n'];
        } else if isCurrentNode && !isGateway {
          var n' := AddRole(n, GATEWAY);
          modifyNodes := modifyNodes + [n'];
        }
      }
    }
    assert clusterNodes[..|clusterNodes|] == clusterNodes;
  }

  // ---------------------------------------------------------------------------------------------
  // The stored ClusterNodes
  // ---------------------------------------------------------------------------------------------

  type Nodes = map<string, ClusterNode>

  ghost predicate Keyed(nodes: Nodes) {
    forall k :: k in nodes ==> nodes[k].name == k
  }

  ghost function WrongNames(e: Leader, nodes: Nodes): set<string> {
    set k | k in nodes && Wrong(e, nodes[k])
  }

  /** Wrong nodes no pass can put right: they must lose the role but bear it in another spelling. */
  ghost function Stubborn(e: Leader, nodes: Nodes): set<string> {
    set k | k in nodes && Wrong(e, nodes[k]) && !ShouldBeGateway(e, nodes[k]) && Misspelt(nodes[k])
  }

  /** One successful update: at most its node leaves the wrong ones, none joins them, and no other elector notices. */
  lemma UpdateLowersWrong(e: Leader, nodes: Nodes, k: string, n': ClusterNode)
    requires Keyed(nodes) && k in nodes && Wrong(e, nodes[k]) && Repaired(e, nodes[k], n')
    ensures Keyed(nodes[k := n'])
    ensures k !in Stubborn(e, nodes) ==> WrongNames(e, nodes[k := n']) == WrongNames(e, nodes) - {k}
    ensures k in Stubborn(e, nodes) ==> WrongNames(e, nodes[k := n']) == WrongNames(e, nodes)
    ensures forall e': Leader :: e'.clusterName != e.clusterName ==>
            WrongNames(e', nodes[k := n']) == WrongNames(e', nodes)
  {
    RepairedIsRight(e, nodes[k], n');
  }

  /** A listing of the stored nodes in some order. */
  ghost predicate Lists(nodes: Nodes, list: seq<ClusterNode>) {
    && (forall i :: 0 <= i < |list| ==> list[i].name in nodes && nodes[list[i].name] == list[i])
    && (forall i, j :: 0 <= i < j < |list| ==> list[i].name != list[j].name)
    && (forall k :: k in nodes ==> exists i :: 0 <= i < |list| && list[i].name == k)
  }

  method List(nodes: Nodes) returns (list: seq<ClusterNode>)
    requires Keyed(nodes)
    ensures Lists(nodes, list)
  {
    list := [];
    var todo := nodes.Keys;
    while todo != {}
      invariant todo <= nodes.Keys
      invariant forall i :: 0 <= i < |list| ==> list[i].name in nodes.Keys - todo && nodes[list[i].name] == list[i]
      invariant forall i, j :: 0 <= i < j < |list| ==> list[i].name != list[j].name
      invariant forall k :: k in nodes.Keys - todo ==> nodes[k] in list
      decreases todo
    {
      var k :| k in todo;
      ghost var before := list;
      list := list + [nodes[k]];
      assert forall n :: n in before ==> n in list;
      assert list[|before|] == nodes[k];
      todo := todo - {k};
    }
    forall k | k in nodes ensures exists i :: 0 <= i < |list| && list[i].name == k {
      assert nodes[k] in list;
    }
  }

  /** The wrong nodes of a listing are the wrong stored nodes, each once. */
  lemma {:induction false} WrongOnesOf(e: Leader, list: seq<ClusterNode>)
    requires forall i, j :: 0 <= i < j < |list| ==> list[i].name != list[j].name
    ensures var ws := WrongOnes(e, list);
            && (forall i, j :: 0 <= i < j < |ws| ==> ws[i].name != ws[j].name)
            && (forall n :: n in ws <==> n in list && Wrong(e, n))
  {
    if list != [] {
      var init, last := list[..|list| - 1], list[|list| - 1];
      WrongOnesOf(e, init);
      assert forall n :: n in list <==> n in init || n == last;
      assert forall n :: n in init ==> n.name != last.name;
      var ws := WrongOnes(e, init);
      assert forall i :: 0 <= i < |ws| ==> ws[i] in init;
    }
  }

  ghost function Names(ns: seq<ClusterNode>): set<string> {
    set n | n in ns :: n.name
  }

  lemma WrongOnesNames(e: Leader, nodes: Nodes, list: seq<ClusterNode>)
    requires Keyed(nodes) && Lists(nodes, list)
    ensures Names(WrongOnes(e, list)) == WrongNames(e, nodes) && |WrongNames(e, nodes)| == |WrongOnes(e, list)|
    ensures forall n :: n in WrongOnes(e, list) ==> n.name in nodes && nodes[n.name] == n
  {
    WrongOnesOf(e, list);
    forall k | k in WrongNames(e, nodes) ensures k in Names(WrongOnes(e, list)) {
      var i :| 0 <= i < |list| && list[i].name == k;
      assert list[i] in WrongOnes(e, list);
    }
    NamesCount(WrongOnes(e, list));
  }

  /** `after` is `before` with exactly the nodes in `done` repaired. */
  ghost predicate PartlyRepaired(e: Leader, before: Nodes, after: Nodes, done: set<string>) {
    && done <= WrongNames(e, before)
    && after.Keys == before.Keys
    && (forall k :: k in done ==> Repaired(e, before[k], after[k]))
    && (forall k :: k in before && k !in done ==> after[k] == before[k])
  }

  /** What an interrupted pass leaves wrong. */
  lemma PartialPass(e: Leader, before: Nodes, after: Nodes, done: set<string>)
    requires Keyed(before) && PartlyRepaired(e, before, after, done)
    ensures Keyed(after)
    ensures WrongNames(e, after) == WrongNames(e, before) - (done - Stubborn(e, before))
    ensures forall e': Leader :: e'.clusterName != e.clusterName ==> WrongNames(e', after) == WrongNames(e', before)
    ensures forall k, r :: k in before && r != GATEWAY ==> (r in after[k].roles <==> r in before[k].roles)
  {
    forall k | k in done
      ensures Wrong(e, after[k]) <==> k in Stubborn(e, before)
      ensures forall r :: r != GATEWAY ==> (r in after[k].roles <==> r in before[k].roles)
    {
      RepairedIsRight(e, before[k], after[k]);
    }
    forall e': Leader | e'.clusterName != e.clusterName ensures WrongNames(e', after) == WrongNames(e', before) {
      forall k | k in before ensures Wrong(e', after[k]) <==> Wrong(e', before[k]) {
        if k in done {
          assert after[k].clusterName == before[k].clusterName == e.clusterName;
        }
      }
    }
  }

  lemma RepairOne(e: Leader, before: Nodes, now: Nodes, done: set<string>, k: string, n': ClusterNode)
    requires PartlyRepaired(e, before, now, done)
    requires k in WrongNames(e, before) && Repaired(e, before[k], n')
    ensures PartlyRepaired(e, before, now[k := n'], done + {k})
  {
  }

  /** `ws` are the wrong nodes of the store, each once. */
  ghost predicate AreTheWrong(e: Leader, nodes: Nodes, ws: seq<ClusterNode>) {
    && Names(ws) == WrongNames(e, nodes)
    && (forall j :: 0 <= j < |ws| ==> ws[j].name in nodes && nodes[ws[j].name] == ws[j])
  }

  lemma NamesGrow(ws: seq<ClusterNode>, i: nat)
    requires i < |ws|
    ensures Names(ws[..i + 1]) == Names(ws[..i]) + {ws[i].name} && ws[i].name in Names(ws)
  {
    assert ws[..i + 1] == ws[..i] + [ws[i]];
    assert ws[i] in ws;
  }

  lemma RepairNext(e: Leader, before: Nodes, now: Nodes, ws: seq<ClusterNode>, ms: seq<ClusterNode>, i: nat)
    requires AreTheWrong(e, before, ws) && AllRepaired(e, ws, ms) && i < |ws|
    requires PartlyRepaired(e, before, now, Names(ws[..i]))
    ensures PartlyRepaired(e, before, now[ms[i].name := ms[i]], Names(ws[..i + 1]))
  {
    NamesGrow(ws, i);
    RepairOne(e, before, now, Names(ws[..i]), ws[i].name, ms[i]);
  }

  lemma ListedWrong(e: Leader, nodes: Nodes, list: seq<ClusterNode>)
    requires Keyed(nodes) && Lists(nodes, list)
    ensures AreTheWrong(e, nodes, WrongOnes(e, list)) && |WrongNames(e, nodes)| == |WrongOnes(e, list)|
  {
    WrongOnesNames(e, nodes, list);
    var ws := WrongOnes(e, list);
    assert forall j :: 0 <= j < |ws| ==> ws[j] in ws;
  }

  lemma PassOutcome(e: Leader, before: Nodes, after: Nodes, done: set<string>)
    requires Keyed(before) && PartlyRepaired(e, before, after, done)
    ensures Keyed(after)
    ensures done == WrongNames(e, before) ==> WrongNames(e, after) == Stubborn(e, before)
    ensures WrongNames(e, before) == {} ==> after == before
  {
    PartialPass(e, before, after, done);
    if done == WrongNames(e, before) {
      assert done - (done - Stubborn(e, before)) == Stubborn(e, before);
    }
  }

  /** What becomes of an update: accepted, accepted with its answer lost, or refused. */
  datatype Answer = Accepted | Lost | Refused

  ghost predicate AllAccepted(answers: nat -> Answer, n: nat) {
    forall i: nat :: i < n ==> answers(i).Accepted?
  }

  lemma {:induction false} NamesCount(ws: seq<ClusterNode>)
    requires forall i, j :: 0 <= i < j < |ws| ==> ws[i].name != ws[j].name
    ensures |Names(ws)| == |ws|
  {
    if ws != [] {
      var init, last := ws[..|ws| - 1], ws[|ws| - 1];
      NamesCount(init);
      NamesGrow(ws, |init|);
      assert ws[..|init| + 1] == ws;
      assert last.name !in Names(init);
      assert |Names(init) + {last.name}| == |Names(init)| + 1;
    }
  }

  class ClusterNodeStore {
    var nodes: Nodes

    /**
      One pass of the elector.  `done` are the nodes updated before the pass ended or an update failed;
      an update may fail although it took effect.  A complete pass updates every wrong node, so only the
      stubborn ones stay wrong.
    */
    method EnsureGateWayRole(e: Leader, listOk: bool, clusterOk: bool, answers: nat -> Answer)
      returns (err: bool, ghost done: set<string>)
      requires Keyed(nodes)
      modifies this
      ensures Keyed(nodes) && PartlyRepaired(e, old(nodes), nodes, done)
      ensures err <==> !listOk || !clusterOk || !AllAccepted(answers, |WrongNames(e, old(nodes))|)
      ensures !err ==> done == WrongNames(e, old(nodes)) && WrongNames(e, nodes) == Stubborn(e, old(nodes))
      ensures WrongNames(e, old(nodes)) == {} ==> nodes == old(nodes)
    {
      done := {};
      if !listOk || !clusterOk {
        return true, {};
      }
      var list := List(nodes);
      var modifyNodes := GenModifyNode(e, list);
      ghost var ws := WrongOnes(e, list);
      ListedWrong(e, nodes, list);
      err, done := ApplyUpdates(e, ws, modifyNodes, answers);
      PassOutcome(e, old(nodes), nodes, done);
    }

    method ApplyUpdates(e: Leader, ghost ws: seq<ClusterNode>, modifyNodes: seq<ClusterNode>, answers: nat -> Answer)
      returns (err: bool, ghost done: set<string>)
      requires AreTheWrong(e, nodes, ws) && AllRepaired(e, ws, modifyNodes)
      modifies this
      ensures PartlyRepaired(e, old(nodes), nodes, done)
      ensures !err ==> done == WrongNames(e, old(nodes))
      ensures err <==> !AllAccepted(answers, |ws|)
    {
      ghost var before := nodes;
      done := {};
      for i := 0 to |modifyNodes|
        invariant AllAccepted(answers, i)
        invariant done == Names(ws[..i])
        invariant PartlyRepaired(e, before, nodes, done)
      {
        if answers(i).Refused? {
          return true, done;
        }
        var node := modifyNodes[i];
        RepairNext(e, before, nodes, ws, modifyNodes, i);
        nodes := nodes[node.name := node];
        done := Names(ws[..i + 1]);
        if answers(i).Lost? {
          return true, done;
        }
      }
      assert ws[..|ws|] == ws;
      err := false;
    }
  }

  /**
    After a complete pass exactly the leader's nodes of the cluster are gateways, if and only if no
    stubborn node was there.
  */
  lemma ConvergedIff(e: Leader, before: Nodes, after: Nodes)
    requires Keyed(before) && PartlyRepaired(e, before, after, WrongNames(e, before))
    ensures (forall k :: k in after && after[k].clusterName == e.clusterName ==>
             (IsGateway(after[k]) <==> after[k].nodeName == e.nodeName))
            <==> Stubborn(e, before) == {}
  {
    PartialPass(e, before, after, WrongNames(e, before));
    assert WrongNames(e, after) == Stubborn(e, before);
    if k :| k in Stubborn(e, before) {
      assert k in WrongNames(e, after);
    } else {
      forall k | k in after ensures !Wrong(e, after[k]) {
        assert k !in WrongNames(e, after);
      }
    }
  }

  /** A node of the cluster that is not the leader's and bears the role with a capital letter stays a gateway. */
  lemma StubbornNode(e: Leader, n: ClusterNode)
    requires n.clusterName == e.clusterName && n.nodeName != e.nodeName && n.roles == ["Gateway"]
    ensures Stubborn(e, map[n.name := n]) == {n.name}
    ensures forall after | PartlyRepaired(e, map[n.name := n], after, WrongNames(e, map[n.name := n])) ::
              IsGateway(after[n.name])
  {
    assert EqualFold(GATEWAY, "Gateway") && "Gateway"[0] != GATEWAY[0];
    var before := map[n.name := n];
    assert n.roles[0] == "Gateway";
    assert Stubborn(e, before) == {n.name};
    forall after | PartlyRepaired(e, before, after, WrongNames(e, before)) ensures IsGateway(after[n.name]) {
      PartialPass(e, before, after, WrongNames(e, before));
      assert n.name in WrongNames(e, after);
    }
  }
}
