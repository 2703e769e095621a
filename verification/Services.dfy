/**
  Which services a pod's environment mentions: the master service of the default namespace always,
  the services of the pod's own namespace if service links are enabled.
*/
module Services {

  datatype Service = Service(namespace: string, name: string, clusterIP: string)

  const NAMESPACE_DEFAULT := "default"
  const MASTER_SERVICE := "kubernetes"
  const CLUSTER_IP_NONE := "None"

  predicate IpSet(s: Service) {
    s.clusterIP != CLUSTER_IP_NONE && s.clusterIP != ""
  }

  predicate Master(s: Service) {
    s.namespace == NAMESPACE_DEFAULT && s.name == MASTER_SERVICE
  }

  /** A usable service of the pod's own namespace, other than the master service. */
  predicate Linked(ns: string, links: bool, s: Service) {
    IpSet(s) && !Master(s) && s.namespace == ns && links
  }

  /** The last linked service called `name`. */
  function LastLinked(services: seq<Service>, ns: string, links: bool, name: string): (r: int)
    ensures -1 <= r < |services|
    ensures r >= 0 ==> services[r].name == name && Linked(ns, links, services[r])
    ensures forall i :: r < i < |services| && services[i].name == name ==> !Linked(ns, links, services[i])
  {
    if services == [] then -1
    else
      var n := |services| - 1;
      if services[n].name == name && Linked(ns, links, services[n]) then n
      else LastLinked(services[..n], ns, links, name)
  }

  /** The first usable master service called `name`, or the length of the list. */
  function FirstMaster(services: seq<Service>, name: string): (r: nat)
    ensures r <= |services|
    ensures r < |services| ==> services[r].name == name && Master(services[r]) && IpSet(services[r])
    ensures forall i :: 0 <= i < r && services[i].name == name ==> !(Master(services[i]) && IpSet(services[i]))
  {
    if services == [] then 0
    else
      var n := |services| - 1;
      var r := FirstMaster(services[..n], name);
      if r < n then r
      else if services[n].name == name && Master(services[n]) && IpSet(services[n]) then n
      else n + 1
  }

  /** Under each name the map holds the last linked service, else the first master service. */
  ghost predicate IsProjection(services: seq<Service>, ns: string, links: bool, m: map<string, Service>) {
    forall name ::
      var l, f := LastLinked(services, ns, links, name), FirstMaster(services, name);
      && (name in m <==> l >= 0 || f < |services|)
      && (name in m ==> m[name] == if l >= 0 then services[l] else services[f])
  }

  /** The map after one more service. */
  function Project(ns: string, links: bool, m: map<string, Service>, s: Service): map<string, Service> {
    if !IpSet(s) then m
    else if Master(s) then (if s.name in m then m else m[s.name := s])
    else if s.namespace == ns && links then m[s.name := s]
    else m
  }

  lemma ProjectKeeps(before: seq<Service>, ns: string, links: bool, m: map<string, Service>, s: Service)
    requires IsProjection(before, ns, links, m)
    ensures IsProjection(before + [s], ns, links, Project(ns, links, m, s))
  {
    var after, m' := before + [s], Project(ns, links, m, s);
    assert after[..|before|] == before;
    forall name
      ensures var l, f := LastLinked(after, ns, links, name), FirstMaster(after, name);
              && (name in m' <==> l >= 0 || f < |after|)
              && (name in m' ==> m'[name] == if l >= 0 then after[l] else after[f])
    {
      assert name in m <==> LastLinked(before, ns, links, name) >= 0 || FirstMaster(before, name) < |before|;
    }
  }

  method ProjectServices(services: seq<Service>, ns: string, links: bool) returns (m: map<string, Service>)
    ensures IsProjection(services, ns, links, m)
  {
    m := map[];
    for i := 0 to |services|
      invariant IsProjection(services[..i], ns, links, m)
    {
      var s := services[i];
      ProjectKeeps(services[..i], ns, links, m, s);
      assert services[..i + 1] == services[..i] + [s];
      if !IpSet(s) {
        continue;
      }
      if Master(s) {
        if s.name !in m {
          m := m[s.name := s];
        }
      } else if s.namespace == ns && links {
        m := m[s.name := s];
      }
    }
    assert services[..|services|] == services;
  }

  /** No two services share namespace and name. */
  ghost predicate Distinct(services: seq<Service>) {
    forall i, j :: 0 <= i < j < |services| ==>
      services[i].namespace != services[j].namespace || services[i].name != services[j].name
  }

  /** The service the pod sees under `name`, said without any order. */
  ghost predicate Chosen(services: seq<Service>, ns: string, links: bool, name: string, s: Service) {
    && s in services && s.name == name
    && (Linked(ns, links, s)
        || (IpSet(s) && Master(s) && forall t :: t in services && t.name == name ==> !Linked(ns, links, t)))
  }

  lemma ProjectionIsChosen(services: seq<Service>, ns: string, links: bool, m: map<string, Service>, name: string,
                           s: Service)
    requires Distinct(services) && IsProjection(services, ns, links, m)
    ensures name in m && m[name] == s <==> Chosen(services, ns, links, name, s)
  {
    var l, f := LastLinked(services, ns, links, name), FirstMaster(services, name);
    assert name in m <==> l >= 0 || f < |services|;
    if Chosen(services, ns, links, name, s) {
      var i :| 0 <= i < |services| && services[i] == s;
      if Linked(ns, links, s) {
        assert l >= i && services[l].namespace == s.namespace;
      } else {
        assert l < 0 && f <= i && services[f].namespace == s.namespace;
      }
    }
    if name in m && m[name] == s && l < 0 {
      forall t | t in services && t.name == name ensures !Linked(ns, links, t) {
        var i :| 0 <= i < |services| && services[i] == t;
      }
    }
  }

  /** The projection is the same for every order in which the services are listed. */
  lemma ProjectionIgnoresOrder(services: seq<Service>, services': seq<Service>, ns: string, links: bool,
                               m: map<string, Service>, m': map<string, Service>)
    requires Distinct(services) && Distinct(services') && multiset(services) == multiset(services')
    requires IsProjection(services, ns, links, m) && IsProjection(services', ns, links, m')
    ensures m == m'
  {
    forall s ensures s in services <==> s in services' {
      assert s in multiset(services) <==> s in multiset(services');
    }
    forall name | name in m ensures name in m' && m'[name] == m[name] {
      ProjectionIsChosen(services, ns, links, m, name, m[name]);
      ProjectionIsChosen(services', ns, links, m', name, m[name]);
    }
    forall name | name in m' ensures name in m {
      ProjectionIsChosen(services', ns, links, m', name, m'[name]);
      ProjectionIsChosen(services, ns, links, m, name, m'[name]);
    }
    assert m.Keys == m'.Keys;
  }

  /**
    A service called `kubernetes` in the pod's namespace wins over the master service; otherwise the
    master service is always kept.
  */
  lemma MasterService(services: seq<Service>, ns: string, links: bool, m: map<string, Service>, k: nat)
    requires IsProjection(services, ns, links, m)
    requires k < |services| && Master(services[k]) && IpSet(services[k])
    ensures MASTER_SERVICE in m
    ensures (exists i ::
               0 <= i < |services| && services[i].name == MASTER_SERVICE && Linked(ns, links, services[i])) ==>
              m[MASTER_SERVICE].namespace == ns != NAMESPACE_DEFAULT
    ensures (forall i ::
               0 <= i < |services| && services[i].name == MASTER_SERVICE ==> !Linked(ns, links, services[i])) ==>
              Master(m[MASTER_SERVICE])
  {
    var l, f := LastLinked(services, ns, links, MASTER_SERVICE), FirstMaster(services, MASTER_SERVICE);
    assert MASTER_SERVICE in m <==> l >= 0 || f < |services|;
  }
}
