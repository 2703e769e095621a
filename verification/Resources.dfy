/**
  What a leaf cluster offers to the root cluster: the allocatable resources of its available nodes,
  less what the running pods request and, for the resource "pods", less their number.
*/
module Resources {
  import opened Sums

  type Quantities = map<string, int>

  datatype Condition = Condition(kind: string, status: string)
  datatype Node = Node(name: string, unschedulable: bool, conditions: seq<Condition>, allocatable: Quantities)
  datatype Pod = Pod(labels: map<string, string>, phase: string, nodeName: string, requests: Quantities,
                     limits: Quantities)

  const PODS := "pods"
  const POD_RUNNING := "Running"
  const KOSMOS_POD_LABEL := "kosmos-io/pod"

  predicate NodeReady(n: Node) {
    exists i :: 0 <= i < |n.conditions| && n.conditions[i] == Condition("Ready", "True")
  }

  predicate Usable(n: Node) {
    !n.unschedulable && NodeReady(n)
  }

  predicate IsVirtualPod(p: Pod) {
    KOSMOS_POD_LABEL in p.labels && p.labels[KOSMOS_POD_LABEL] == "true"
  }

  /** The pods that take part in the accounting, wherever they run. */
  predicate Active(p: Pod) {
    !IsVirtualPod(p) && p.phase == POD_RUNNING
  }

  function Get(q: Quantities, r: string): int {
    if r in q then q[r] else 0
  }

  // ---------------------------------------------------------------------------------------------
  // Specification
  // ---------------------------------------------------------------------------------------------

  /** Names borne by some node that is not usable. */
  function BadNames(nodes: seq<Node>): set<string> {
    set n | n in nodes && !Usable(n) :: n.name
  }

  function AllocWeight(bad: set<string>, r: string): Node -> int {
    (n: Node) => if n.name in bad then 0 else Get(n.allocatable, r)
  }

  function RequestWeight(bad: set<string>, r: string): Pod -> int {
    (p: Pod) => if Active(p) && p.nodeName !in bad then Get(p.requests, r) else 0
  }

  function LimitWeight(bad: set<string>, r: string): Pod -> int {
    (p: Pod) => if Active(p) && p.nodeName !in bad then Get(p.limits, r) else 0
  }

  /** The last node listed under a name, as a Go map filled in list order keeps it. */
  function NodeOf(nodes: seq<Node>, name: string): (k: int)
    ensures -1 <= k < |nodes|
    ensures k >= 0 ==> nodes[k].name == name
    ensures forall i :: k < i < |nodes| ==> nodes[i].name != name
  {
    if nodes == [] then -1
    else if nodes[|nodes| - 1].name == name then |nodes| - 1
    else NodeOf(nodes[..|nodes| - 1], name)
  }

  predicate OnUsableNode(nodes: seq<Node>, p: Pod) {
    var k := NodeOf(nodes, p.nodeName);
    k >= 0 && Usable(nodes[k])
  }

  function CountWeight(nodes: seq<Node>): Pod -> int {
    (p: Pod) => if Active(p) && OnUsableNode(nodes, p) then 1 else 0
  }

  /** The resource names of the nodes that count. */
  function Offered(nodes: seq<Node>, bad: set<string>): set<string> {
    set n, r | n in nodes && n.name !in bad && r in n.allocatable :: r
  }

  /** The reported amount of resource r. */
  function ClusterValue(nodes: seq<Node>, pods: seq<Pod>, r: string): int {
    Sum(nodes, AllocWeight(BadNames(nodes), r))
    - Sum(pods, RequestWeight(BadNames(nodes), r))
    - (if r == PODS then Sum(pods, CountWeight(nodes)) else 0)
  }

  // ---------------------------------------------------------------------------------------------
  // The computation
  // ---------------------------------------------------------------------------------------------

  class ResourceList {
    var items: Quantities

    constructor ()
      ensures items == map[]
    {
      items := map[];
    }

    /** Adds the amounts of `list`, visiting its keys in an arbitrary order. */
    method Add(list: Quantities)
      modifies this
      ensures items.Keys == old(items).Keys + list.Keys
      ensures forall r :: Get(items, r) == Get(old(items), r) + Get(list, r)
    {
      var todo := list.Keys;
      while todo != {}
        invariant todo <= list.Keys
        invariant items.Keys == old(items).Keys + (list.Keys - todo)
        invariant forall r :: Get(items, r) == Get(old(items), r) + (if r in todo then 0 else Get(list, r))
        decreases todo
      {
        var key :| key in todo;
        if key !in items {
          items := items[key := list[key]];
        } else {
          items := items[key := items[key] + list[key]];
        }
        todo := todo - {key};
      }
    }

    /** Subtracts, for the resources already present, the amounts of `list`. */
    method Sub(list: Quantities)
      modifies this
      ensures items.Keys == old(items).Keys
      ensures forall r :: r in items ==> items[r] == old(items)[r] - Get(list, r)
    {
      var todo := list.Keys;
      while todo != {}
        invariant todo <= list.Keys
        invariant items.Keys == old(items).Keys
        invariant forall r :: r in items ==> items[r] == old(items)[r] - (if r in todo then 0 else Get(list, r))
        decreases todo
      {
        var key :| key in todo;
        if key in items {
          items := items[key := items[key] - list[key]];
        }
        todo := todo - {key};
      }
    }
  }

  method GetNotReadyAndUnschedulableLeafNodes(nodes: seq<Node>) returns (unavailable: map<string, Node>)
    ensures unavailable.Keys == BadNames(nodes)
  {
    unavailable := map[];
    for i := 0 to |nodes|
      invariant unavailable.Keys == BadNames(nodes[..i])
    {
      var n := nodes[i];
      assert nodes[..i + 1] == nodes[..i] + [n];
      if !Usable(n) {
        unavailable := unavailable[n.name := n];
      }
    }
    assert nodes[..|nodes|] == nodes;
  }

  method GetNodesTotalResources(nodes: seq<Node>, unavailable: map<string, Node>) returns (total: ResourceList)
    ensures fresh(total)
    ensures total.items.Keys == Offered(nodes, unavailable.Keys)
    ensures forall r :: Get(total.items, r) == Sum(nodes, AllocWeight(unavailable.Keys, r))
  {
    var bad := unavailable.Keys;
    total := new ResourceList();
    for i := 0 to |nodes|
      invariant fresh(total)
      invariant total.items.Keys == Offered(nodes[..i], bad)
      invariant forall r :: Get(total.items, r) == Sum(nodes[..i], AllocWeight(bad, r))
    {
      var n := nodes[i];
      assert nodes[..i + 1][..i] == nodes[..i] && nodes[..i + 1] == nodes[..i] + [n];
      if n.name in unavailable {
        continue;
      }
      total.Add(n.allocatable);
    }
    assert nodes[..|nodes|] == nodes;
  }

  method GetPodsTotalRequestsAndLimits(pods: seq<Pod>, unavailable: map<string, Node>)
    returns (reqs: Quantities, limits: Quantities)
    ensures forall r :: Get(reqs, r) == Sum(pods, RequestWeight(unavailable.Keys, r))
    ensures forall r :: Get(limits, r) == Sum(pods, LimitWeight(unavailable.Keys, r))
  {
    var bad := unavailable.Keys;
    var requested := new ResourceList();
    var limited := new ResourceList();
    for i := 0 to |pods|
      invariant fresh(requested) && fresh(limited) && requested != limited
      invariant forall r :: Get(requested.items, r) == Sum(pods[..i], RequestWeight(bad, r))
      invariant forall r :: Get(limited.items, r) == Sum(pods[..i], LimitWeight(bad, r))
    {
      var p := pods[i];
      assert pods[..i + 1][..i] == pods[..i];
      if IsVirtualPod(p) || p.phase != POD_RUNNING || p.nodeName in unavailable {
        continue;
      }
      requested.Add(p.requests);
      limited.Add(p.limits);
    }
    assert pods[..|pods|] == pods;
    reqs, limits := requested.items, limited.items;
  }

  /** `m` is the map that listing the nodes in order leaves. */
  ghost predicate IsNodeMap(nodes: seq<Node>, m: map<string, Node>) {
    forall name :: (name in m <==> NodeOf(nodes, name) >= 0) && (name in m ==> m[name] == nodes[NodeOf(nodes, name)])
  }

  method GetUsedPodNums(pods: seq<Pod>, nodes: seq<Node>) returns (res: Quantities)
    ensures res == map[PODS := Sum(pods, CountWeight(nodes))]
  {
    var nodeMap: map<string, Node> := map[];
    for i := 0 to |nodes|
      invariant IsNodeMap(nodes[..i], nodeMap)
    {
      assert nodes[..i + 1][..i] == nodes[..i];
      nodeMap := nodeMap[nodes[i].name := nodes[i]];
    }
    assert nodes[..|nodes|] == nodes;
    var quantity := 0;
    for i := 0 to |pods|
      invariant quantity == Sum(pods[..i], CountWeight(nodes))
    {
      var p := pods[i];
      assert pods[..i + 1][..i] == pods[..i];
      assert p.nodeName in nodeMap <==> NodeOf(nodes, p.nodeName) >= 0;
      if IsVirtualPod(p) || p.phase != POD_RUNNING || p.nodeName !in nodeMap || !Usable(nodeMap[p.nodeName]) {
        continue;
      }
      quantity := quantity + 1;
    }
    assert pods[..|pods|] == pods;
    res := map[PODS := quantity];
  }

  /** Exactly the resources of the available nodes, each with the amount left. */
  method CalculateClusterResources(nodes: seq<Node>, pods: seq<Pod>) returns (result: Quantities)
    ensures result.Keys == Offered(nodes, BadNames(nodes))
    ensures forall r :: r in result ==> result[r] == ClusterValue(nodes, pods, r)
  {
    var unavailable := GetNotReadyAndUnschedulableLeafNodes(nodes);
    var base := GetNodesTotalResources(nodes, unavailable);
    var reqs, _ := GetPodsTotalRequestsAndLimits(pods, unavailable);
    var podNums := GetUsedPodNums(pods, nodes);
    ghost var total := base.items;
    base.Sub(reqs);
    base.Sub(podNums);
    result := base.items;
    assert forall r :: r in total ==> total[r] == Get(total, r);
  }

  // ---------------------------------------------------------------------------------------------
  // The order of nodes and pods does not matter
  // ---------------------------------------------------------------------------------------------

  ghost predicate UniqueNames(nodes: seq<Node>) {
    forall i, j :: 0 <= i < j < |nodes| ==> nodes[i].name != nodes[j].name
  }

  lemma SameElements<T>(s: seq<T>, t: seq<T>, x: T)
    requires multiset(s) == multiset(t)
    ensures x in s <==> x in t
  {
    assert x in s <==> x in multiset(s);
    assert x in t <==> x in multiset(t);
  }

  lemma SameUsable(nodes: seq<Node>, nodes': seq<Node>, p: Pod)
    requires UniqueNames(nodes) && UniqueNames(nodes') && multiset(nodes) == multiset(nodes')
    ensures OnUsableNode(nodes, p) == OnUsableNode(nodes', p)
  {
    var k, k' := NodeOf(nodes, p.nodeName), NodeOf(nodes', p.nodeName);
    if k >= 0 {
      SameElements(nodes, nodes', nodes[k]);
      var i :| 0 <= i < |nodes'| && nodes'[i] == nodes[k];
      assert k' == i;
    }
    if k' >= 0 {
      SameElements(nodes, nodes', nodes'[k']);
      var i :| 0 <= i < |nodes| && nodes[i] == nodes'[k'];
    }
  }

  lemma OrderDoesNotMatter(nodes: seq<Node>, nodes': seq<Node>, pods: seq<Pod>, pods': seq<Pod>, r: string)
    requires UniqueNames(nodes) && UniqueNames(nodes')
    requires multiset(nodes) == multiset(nodes') && multiset(pods) == multiset(pods')
    ensures Offered(nodes, BadNames(nodes)) == Offered(nodes', BadNames(nodes'))
    ensures ClusterValue(nodes, pods, r) == ClusterValue(nodes', pods', r)
  {
    forall n ensures n in nodes <==> n in nodes' { SameElements(nodes, nodes', n); }
    assert BadNames(nodes) == BadNames(nodes');
    SumPermutes(nodes, nodes', AllocWeight(BadNames(nodes), r));
    SumPermutes(pods, pods', RequestWeight(BadNames(nodes), r));
    SumPermutes(pods, pods', CountWeight(nodes));
    forall p | p in pods' ensures CountWeight(nodes)(p) == CountWeight(nodes')(p) {
      SameUsable(nodes, nodes', p);
    }
    SumPointwise(pods', CountWeight(nodes), CountWeight(nodes'));
  }

  // ---------------------------------------------------------------------------------------------
  // Regrouping by node
  // ---------------------------------------------------------------------------------------------

  /** The part of a pod weight that falls on the node called `name`. */
  function AtNode(v: Pod -> int, name: string): Pod -> int {
    (p: Pod) => if p.nodeName == name then v(p) else 0
  }

  function Share(pods: seq<Pod>, v: Pod -> int, bad: set<string>): Node -> int {
    (n: Node) => if n.name in bad then 0 else Sum(pods, AtNode(v, n.name))
  }

  function Spike(p: Pod, v: Pod -> int, bad: set<string>): Node -> int {
    (n: Node) => if n.name !in bad && p.nodeName == n.name then v(p) else 0
  }

  /** Some node of that name is listed and counts. */
  ghost predicate Hosted(nodes: seq<Node>, bad: set<string>, p: Pod) {
    p.nodeName !in bad && exists k :: 0 <= k < |nodes| && nodes[k].name == p.nodeName
  }

  lemma SpikeSum(nodes: seq<Node>, bad: set<string>, p: Pod, v: Pod -> int)
    requires UniqueNames(nodes) && (v(p) != 0 ==> Hosted(nodes, bad, p))
    ensures Sum(nodes, Spike(p, v, bad)) == v(p)
  {
    if v(p) == 0 {
      SumZero(nodes, Spike(p, v, bad));
    } else {
      var k :| 0 <= k < |nodes| && nodes[k].name == p.nodeName;
      SumSingle(nodes, k, Spike(p, v, bad));
    }
  }

  /** A sum over pods that run on counted nodes is the sum, over those nodes, of what runs there. */
  lemma {:induction false} RegroupByNode(nodes: seq<Node>, bad: set<string>, pods: seq<Pod>, v: Pod -> int)
    requires UniqueNames(nodes)
    requires forall p :: p in pods && v(p) != 0 ==> Hosted(nodes, bad, p)
    ensures Sum(pods, v) == Sum(nodes, Share(pods, v, bad))
  {
    if pods == [] {
      SumZero(nodes, Share(pods, v, bad));
    } else {
      var init, p := pods[..|pods| - 1], pods[|pods| - 1];
      RegroupByNode(nodes, bad, init, v);
      SumAdds(nodes, Share(init, v, bad), Spike(p, v, bad), Share(pods, v, bad));
      SpikeSum(nodes, bad, p, v);
    }
  }

  // ---------------------------------------------------------------------------------------------
  // Conservation and sign
  // ---------------------------------------------------------------------------------------------

  function OwnRequests(name: string, r: string): Pod -> int {
    (p: Pod) => if Active(p) && p.nodeName == name then Get(p.requests, r) else 0
  }

  function OwnPods(name: string): Pod -> int {
    (p: Pod) => if Active(p) && p.nodeName == name then 1 else 0
  }

  /** What one counted node has left of resource r after its own pods. */
  function Slack(pods: seq<Pod>, bad: set<string>, r: string): Node -> int {
    (n: Node) =>
      if n.name in bad then 0
      else
        Get(n.allocatable, r) - Sum(pods, OwnRequests(n.name, r))
        - (if r == PODS then Sum(pods, OwnPods(n.name)) else 0)
  }

  predicate Listed(nodes: seq<Node>, name: string) {
    exists k :: 0 <= k < |nodes| && nodes[k].name == name
  }

  /** Requests of active pods bound to no listed node; they are subtracted all the same. */
  function StrayRequests(nodes: seq<Node>, r: string): Pod -> int {
    (p: Pod) => if Active(p) && !Listed(nodes, p.nodeName) then Get(p.requests, r) else 0
  }

  function HostedRequests(nodes: seq<Node>, bad: set<string>, r: string): Pod -> int {
    (p: Pod) => if Active(p) && Listed(nodes, p.nodeName) && p.nodeName !in bad then Get(p.requests, r) else 0
  }

  /** With unique names the two pod filters differ only in the stray pods. */
  lemma UsableIffNotBad(nodes: seq<Node>, p: Pod)
    requires UniqueNames(nodes)
    ensures OnUsableNode(nodes, p) <==> Listed(nodes, p.nodeName) && p.nodeName !in BadNames(nodes)
  {
    var k := NodeOf(nodes, p.nodeName);
    if k >= 0 {
      assert nodes[k] in nodes;
      forall n | n in nodes && n.name == p.nodeName ensures n == nodes[k] {
        var i :| 0 <= i < |nodes| && nodes[i] == n;
      }
    }
  }

  lemma BadIsListed(nodes: seq<Node>, name: string)
    ensures name in BadNames(nodes) ==> Listed(nodes, name)
  {
    if name in BadNames(nodes) {
      var n :| n in nodes && !Usable(n) && n.name == name;
      var k :| 0 <= k < |nodes| && nodes[k] == n;
    }
  }

  lemma RequestsByNode(nodes: seq<Node>, pods: seq<Pod>, r: string)
    requires UniqueNames(nodes)
    ensures var bad := BadNames(nodes);
            Sum(pods, RequestWeight(bad, r)) ==
            Sum(nodes, Share(pods, HostedRequests(nodes, bad, r), bad)) + Sum(pods, StrayRequests(nodes, r))
  {
    var bad := BadNames(nodes);
    forall p | p in pods
      ensures RequestWeight(bad, r)(p) == HostedRequests(nodes, bad, r)(p) + StrayRequests(nodes, r)(p)
    {
      BadIsListed(nodes, p.nodeName);
    }
    SumAdds(pods, HostedRequests(nodes, bad, r), StrayRequests(nodes, r), RequestWeight(bad, r));
    RegroupByNode(nodes, bad, pods, HostedRequests(nodes, bad, r));
  }

  lemma CountByNode(nodes: seq<Node>, pods: seq<Pod>)
    requires UniqueNames(nodes)
    ensures Sum(pods, CountWeight(nodes)) == Sum(nodes, Share(pods, CountWeight(nodes), BadNames(nodes)))
  {
    forall p | p in pods && CountWeight(nodes)(p) != 0 ensures Hosted(nodes, BadNames(nodes), p) {
      UsableIffNotBad(nodes, p);
    }
    RegroupByNode(nodes, BadNames(nodes), pods, CountWeight(nodes));
  }

  lemma ShareIsOwn(nodes: seq<Node>, pods: seq<Pod>, n: Node, r: string)
    requires UniqueNames(nodes) && n in nodes && n.name !in BadNames(nodes)
    ensures Sum(pods, AtNode(HostedRequests(nodes, BadNames(nodes), r), n.name)) == Sum(pods, OwnRequests(n.name, r))
    ensures Sum(pods, AtNode(CountWeight(nodes), n.name)) == Sum(pods, OwnPods(n.name))
  {
    var k :| 0 <= k < |nodes| && nodes[k] == n;
    assert Listed(nodes, n.name);
    SumPointwise(pods, AtNode(HostedRequests(nodes, BadNames(nodes), r), n.name), OwnRequests(n.name, r));
    forall p | p in pods ensures AtNode(CountWeight(nodes), n.name)(p) == OwnPods(n.name)(p) {
      UsableIffNotBad(nodes, p);
    }
    SumPointwise(pods, AtNode(CountWeight(nodes), n.name), OwnPods(n.name));
  }

  /** Every reported amount is what the counted nodes have left, less the requests of stray pods. */
  lemma ClusterValueIsSlackLessStrays(nodes: seq<Node>, pods: seq<Pod>, r: string)
    requires UniqueNames(nodes)
    ensures ClusterValue(nodes, pods, r) ==
            Sum(nodes, Slack(pods, BadNames(nodes), r)) - Sum(pods, StrayRequests(nodes, r))
  {
    var bad := BadNames(nodes);
    var alloc := AllocWeight(bad, r);
    var reqs := Share(pods, HostedRequests(nodes, bad, r), bad);
    var count := Share(pods, CountWeight(nodes), bad);
    var used := Spent(reqs, count, r);
    forall n | n in nodes
      ensures alloc(n) == Slack(pods, bad, r)(n) + used(n)
    {
      if n.name !in bad {
        ShareIsOwn(nodes, pods, n, r);
      }
    }
    SumAdds(nodes, Slack(pods, bad, r), used, alloc);
    RequestsByNode(nodes, pods, r);
    CountByNode(nodes, pods);
    if r == PODS {
      SumAdds(nodes, reqs, count, used);
    } else {
      SumPointwise(nodes, reqs, used);
    }
  }

  function Spent(reqs: Node -> int, count: Node -> int, r: string): Node -> int {
    (n: Node) => reqs(n) + (if r == PODS then count(n) else 0)
  }

  /** On each usable node the requests and the number of its pods fit its allocatable. */
  ghost predicate Fits(nodes: seq<Node>, pods: seq<Pod>) {
    forall n, r :: n in nodes && Usable(n) ==>
      Sum(pods, OwnRequests(n.name, r)) + (if r == PODS then Sum(pods, OwnPods(n.name)) else 0) <= Get(n.allocatable, r)
  }

  /** If every active pod runs on a listed node and every usable node can hold its pods, no amount is negative. */
  lemma NothingIsNegative(nodes: seq<Node>, pods: seq<Pod>, r: string)
    requires UniqueNames(nodes) && Fits(nodes, pods)
    requires forall p :: p in pods && Active(p) ==> Listed(nodes, p.nodeName)
    ensures ClusterValue(nodes, pods, r) >= 0
  {
    ClusterValueIsSlackLessStrays(nodes, pods, r);
    SumZero(pods, StrayRequests(nodes, r));
    var slack := Slack(pods, BadNames(nodes), r);
    forall n | n in nodes ensures 0 <= slack(n) {
      if n.name !in BadNames(nodes) {
        assert Usable(n);
      }
    }
    SumMonotone(nodes, Zero, slack);
    SumZero(nodes, Zero);
  }

  function Zero(n: Node): int { 0 }

  /** Without the first condition it can be: one node that fits everything, and one pod on a node that is not listed. */
  lemma StrayPodMakesItNegative() returns (nodes: seq<Node>, pods: seq<Pod>)
    ensures UniqueNames(nodes) && Fits(nodes, pods)
    ensures "cpu" in Offered(nodes, BadNames(nodes)) && ClusterValue(nodes, pods, "cpu") < 0
  {
    var ready := Condition("Ready", "True");
    var n := Node("n1", false, [ready], map["cpu" := 4]);
    var p := Pod(map[], POD_RUNNING, "n2", map["cpu" := 5], map[]);
    nodes, pods := [n], [p];
    assert n.conditions[0] == ready;
    assert BadNames(nodes) == {};
    SumSingle(nodes, 0, AllocWeight({}, "cpu"));
    SumSingle(pods, 0, RequestWeight({}, "cpu"));
    forall r: string ensures Sum(pods, OwnRequests("n1", r)) == 0 && Sum(pods, OwnPods("n1")) == 0 {
      SumZero(pods, OwnRequests("n1", r));
      SumZero(pods, OwnPods("n1"));
    }
    assert "cpu" in n.allocatable && n in nodes;
  }
}
