/**
  What an API request is about, read off the segments of its URL path.
*/
module RequestInfo {
  import opened Options
  import opened Strings

  const SLASH := '/'

  const SPECIAL_VERBS := {"proxy", "watch"}
  const SPECIAL_VERBS_NO_SUBRESOURCES := {"proxy"}
  const NAMESPACE_SUBRESOURCES := {"status", "finalize"}
  const NAMESPACES := "namespaces"

  datatype Info = Info(
    isResourceRequest: bool,
    verb: string,
    apiPrefix: string,
    apiGroup: string,
    apiVersion: string,
    namespace: string,
    resource: string,
    subresource: string,
    name: string,
    parts: seq<string>
  )

  function Lower(s: string): string {
    if s == "" then ""
    else [if 'A' <= s[0] <= 'Z' then ((s[0] as int) + 32) as char else s[0]] + Lower(s[1..])
  }

  // ---------------------------------------------------------------------------------------------
  // The path
  // ---------------------------------------------------------------------------------------------

  function TrimLeft(s: string): string {
    if s != "" && s[0] == SLASH then TrimLeft(s[1..]) else s
  }

  function TrimRight(s: string): string {
    if s != "" && s[|s| - 1] == SLASH then TrimRight(s[..|s| - 1]) else s
  }

  function SplitPath(path: string): seq<string> {
    var p := TrimRight(TrimLeft(path));
    if p == "" then [] else Split(p, SLASH)
  }

  /** A segment of a path. */
  predicate Segment(s: string) {
    s != "" && SLASH !in s
  }

  ghost predicate Segments(parts: seq<string>) {
    forall i :: 0 <= i < |parts| ==> Segment(parts[i])
  }

  function PathOf(parts: seq<string>): string {
    [SLASH] + Join(parts, SLASH)
  }

  lemma {:induction false} JoinEnds(parts: seq<string>)
    requires Segments(parts) && parts != []
    ensures var s := Join(parts, SLASH); s != "" && s[0] != SLASH && s[|s| - 1] != SLASH
  {
    assert Segment(parts[0]);
    if |parts| > 1 {
      JoinEnds(parts[1..]);
      var t := Join(parts[1..], SLASH);
      var s := parts[0] + [SLASH] + t;
      assert s[|s| - 1] == t[|t| - 1];
    }
  }

  /** Splitting a printed path gives its segments back. */
  lemma SplitPathOf(parts: seq<string>)
    requires Segments(parts) && parts != []
    ensures SplitPath(PathOf(parts)) == parts
  {
    JoinEnds(parts);
    var s := Join(parts, SLASH);
    assert PathOf(parts)[1..] == s;
    assert TrimLeft(PathOf(parts)) == TrimLeft(s) == s;
    forall i | 0 <= i < |parts| ensures SLASH !in parts[i] { assert Segment(parts[i]); }
    SplitJoin(parts, SLASH);
  }

  // ---------------------------------------------------------------------------------------------
  // The parser
  // ---------------------------------------------------------------------------------------------

  function VerbOf(httpMethod: string): string {
    if httpMethod == "POST" then "create"
    else if httpMethod == "GET" || httpMethod == "HEAD" then "get"
    else if httpMethod == "PUT" then "update"
    else if httpMethod == "PATCH" then "patch"
    else if httpMethod == "DELETE" then "delete"
    else ""
  }

  /** Whether the query asks for a watch: a first `watch` value other than "false" and "0". */
  predicate WatchRequested(values: seq<string>) {
    |values| > 0 && Lower(values[0]) != "false" && Lower(values[0]) != "0"
  }

  /** The verb once it is known whether the request names an object. */
  function FinalVerb(verb: string, named: bool, watch: bool): string {
    if named then verb
    else if verb == "get" then (if watch then "watch" else "list")
    else if verb == "delete" then "deletecollection"
    else verb
  }

  /** How many segments come before the resource part: the prefix, the group if any, the version. */
  function HeaderLength(parts: seq<string>): nat
    requires parts != []
  {
    if parts[0] == "api" then 2 else 3
  }

  /** A resource request: a known prefix and at least one segment after the version. */
  predicate IsResourcePath(parts: seq<string>) {
    && |parts| >= 3
    && (parts[0] == "api" || parts[0] == "apis")
    && |parts| > HeaderLength(parts)
  }

  /** Where the resource begins in what follows the header and the special verb. */
  function ResourceStart(rest: seq<string>): nat {
    if |rest| > 2 && rest[0] == NAMESPACES && rest[2] !in NAMESPACE_SUBRESOURCES then 2 else 0
  }

  function NamespaceOf(rest: seq<string>): string {
    if |rest| > 1 && rest[0] == NAMESPACES then rest[1] else ""
  }

  function At(parts: seq<string>, i: nat): string {
    if i < |parts| then parts[i] else ""
  }

  /** The target fields read off the segments that follow the header and the special verb, if any. */
  function TargetInfo(head: Info, rest: seq<string>, watch: bool): Info {
    var parts := rest[ResourceStart(rest)..];
    var name := At(parts, 1);
    var subresource := if head.verb in SPECIAL_VERBS_NO_SUBRESOURCES then "" else At(parts, 2);
    Info(head.isResourceRequest, FinalVerb(head.verb, name != "", watch), head.apiPrefix, head.apiGroup,
         head.apiVersion, NamespaceOf(rest), At(parts, 0), subresource, name, parts)
  }

  /** The fields of a resource request whose segments after the header are `rest`. */
  function ResourceInfo(head: Info, rest: seq<string>, httpMethod: string, watch: bool): Info
    requires rest != []
  {
    if rest[0] !in SPECIAL_VERBS then TargetInfo(head.(verb := VerbOf(httpMethod)), rest, watch)
    else if |rest| < 2 then head
    else TargetInfo(head.(verb := rest[0]), rest[1..], watch)
  }

  function Head(isResource: bool, httpMethod: string, prefix: string, group: string, version: string): Info {
    Info(isResource, Lower(httpMethod), prefix, group, version, "", "", "", "", [])
  }

  /** The result for every path, whatever its segments are. */
  function InfoOf(parts: seq<string>, httpMethod: string, watch: bool): Info {
    if IsResourcePath(parts) then
      var h := HeaderLength(parts);
      ResourceInfo(Head(true, httpMethod, parts[0], if h == 3 then parts[1] else "", parts[h - 1]), parts[h..],
                   httpMethod, watch)
    else
      // of a non-resource request only the prefix is kept, and only if the path is long enough to look at it
      Head(false, httpMethod, if |parts| >= 3 && parts[0] == "apis" then "apis" else "", "", "")
  }

  /** Consumes the segments from the front; no index is ever out of range. */
  method NewRequestInfo(httpMethod: string, path: string, watchValues: seq<string>) returns (info: Info)
    ensures info == InfoOf(SplitPath(path), httpMethod, WatchRequested(watchValues))
  {
    info := Head(false, httpMethod, "", "", "");
    var currentParts := SplitPath(path);
    ghost var all := currentParts;
    if |currentParts| < 3 {
      return;
    }
    if currentParts[0] !in {"apis", "api"} {
      return;
    }
    info := info.(apiPrefix := currentParts[0]);
    currentParts := currentParts[1..];
    if info.apiPrefix !in {"api"} {
      if |currentParts| < 3 {
        return;
      }
      info := info.(apiGroup := currentParts[0]);
      currentParts := currentParts[1..];
    }
    info := info.(isResourceRequest := true, apiVersion := currentParts[0]);
    currentParts := currentParts[1..];
    assert currentParts == all[HeaderLength(all)..];
    info := ParseResource(info, currentParts, httpMethod, watchValues);
  }

  method ParseResource(head: Info, rest: seq<string>, httpMethod: string, watchValues: seq<string>) returns (info: Info)
    requires rest != []
    requires head == Head(true, httpMethod, head.apiPrefix, head.apiGroup, head.apiVersion)
    ensures info == ResourceInfo(head, rest, httpMethod, WatchRequested(watchValues))
  {
    info := head;
    var currentParts := rest;
    if currentParts[0] in SPECIAL_VERBS {
      if |currentParts| < 2 {
        return;
      }
      info := info.(verb := currentParts[0]);
      currentParts := currentParts[1..];
    } else {
      info := info.(verb := VerbOf(httpMethod));
    }
    info := ParseTarget(info, currentParts, watchValues);
  }

  method SkipNamespace(rest: seq<string>) returns (namespace: string, currentParts: seq<string>)
    requires rest != []
    ensures namespace == NamespaceOf(rest) && currentParts == rest[ResourceStart(rest)..] && currentParts != []
  {
    namespace, currentParts := "", rest;
    if currentParts[0] == NAMESPACES {
      if |currentParts| > 1 {
        namespace := currentParts[1];
        if |currentParts| > 2 && currentParts[2] !in NAMESPACE_SUBRESOURCES {
          currentParts := currentParts[2..];
        }
      }
    }
  }

  method ParseTarget(head: Info, rest: seq<string>, watchValues: seq<string>) returns (info: Info)
    requires rest != []
    requires head == Info(head.isResourceRequest, head.verb, head.apiPrefix, head.apiGroup, head.apiVersion, "",
                          "", "", "", [])
    ensures info == TargetInfo(head, rest, WatchRequested(watchValues))
  {
    var namespace, currentParts := SkipNamespace(rest);
    info := head.(namespace := namespace, parts := currentParts);
    if |info.parts| >= 3 && info.verb !in SPECIAL_VERBS_NO_SUBRESOURCES {
      info := info.(subresource := info.parts[2]);
    }
    if |info.parts| >= 2 {
      info := info.(name := info.parts[1]);
    }
    info := info.(resource := info.parts[0]);
    if info.name == "" && info.verb == "get" {
      info := info.(verb := if WatchRequested(watchValues) then "watch" else "list");
    }
    if info.name == "" && info.verb == "delete" {
      info := info.(verb := "deletecollection");
    }
  }

  // ---------------------------------------------------------------------------------------------
  // Parsing inverts printing
  // ---------------------------------------------------------------------------------------------

  /** What a request can be about. */
  datatype Target =
    | ClusterScoped(resource: string, name: Option<string>, subresource: Option<string>)
    | Namespaced(namespace: string, resource: string, name: Option<string>, subresource: Option<string>)
    | Namespace(namespace: string, subresource: Option<string>)
    | AllNamespaces

  datatype Request = Request(group: Option<string>, version: string, special: Option<string>, target: Target)

  function Opt(s: Option<string>): seq<string> {
    if s.Some? then [s.value] else []
  }

  function TargetSegments(t: Target): seq<string> {
    match t
    case ClusterScoped(resource, name, sub) => [resource] + Opt(name) + Opt(sub)
    case Namespaced(ns, resource, name, sub) => [NAMESPACES, ns, resource] + Opt(name) + Opt(sub)
    case Namespace(ns, sub) => [NAMESPACES, ns] + Opt(sub)
    case AllNamespaces => [NAMESPACES]
  }

  function HeaderSegments(r: Request): seq<string> {
    (if r.group.Some? then ["apis", r.group.value] else ["api"]) + [r.version]
  }

  function RequestSegments(r: Request): seq<string> {
    HeaderSegments(r) + (Opt(r.special) + TargetSegments(r.target))
  }

  predicate SegmentOpt(s: Option<string>) {
    s.Some? ==> Segment(s.value)
  }

  predicate TargetOk(t: Target) {
    match t
    case ClusterScoped(resource, name, sub) =>
      Segment(resource) && SegmentOpt(name) && SegmentOpt(sub) && (sub.Some? ==> name.Some?)
    case Namespaced(ns, resource, name, sub) =>
      Segment(ns) && Segment(resource) && SegmentOpt(name) && SegmentOpt(sub) && (sub.Some? ==> name.Some?)
    case Namespace(ns, sub) => Segment(ns) && SegmentOpt(sub)
    case AllNamespaces => true
  }

  /** A request made of proper segments, with a subresource only below a name. */
  predicate Proper(r: Request) {
    && SegmentOpt(r.group) && Segment(r.version) && TargetOk(r.target)
    && (r.special.Some? ==> r.special.value in SPECIAL_VERBS)
  }

  predicate TargetUnambiguous(t: Target) {
    match t
    case ClusterScoped(resource, name, _) => resource != NAMESPACES || name.None?
    case Namespaced(_, resource, _, _) => resource !in NAMESPACE_SUBRESOURCES
    case Namespace(_, sub) => sub.Some? ==> sub.value in NAMESPACE_SUBRESOURCES
    case AllNamespaces => true
  }

  /** No reserved word stands where it would be read as one. */
  predicate Unambiguous(r: Request) {
    && TargetUnambiguous(r.target)
    && (r.special.None? && r.target.ClusterScoped? ==> r.target.resource !in SPECIAL_VERBS)
  }

  function Text(s: Option<string>): string {
    if s.Some? then s.value else ""
  }

  function TargetNamespace(t: Target): string {
    if t.Namespaced? || t.Namespace? then t.namespace else ""
  }

  function TargetResource(t: Target): string {
    if t.ClusterScoped? || t.Namespaced? then t.resource else NAMESPACES
  }

  function TargetName(t: Target): string {
    if t.ClusterScoped? || t.Namespaced? then Text(t.name)
    else if t.Namespace? then t.namespace
    else ""
  }

  function TargetSubresource(t: Target): string {
    if t.AllNamespaces? then "" else Text(t.subresource)
  }

  function VerbFor(r: Request, httpMethod: string): string {
    if r.special.Some? then r.special.value else VerbOf(httpMethod)
  }

  /** Everything the request consists of is in the parsed information. */
  ghost predicate Recovers(info: Info, r: Request, httpMethod: string, watch: bool) {
    && info.isResourceRequest
    && info.apiPrefix == (if r.group.Some? then "apis" else "api")
    && info.apiGroup == Text(r.group)
    && info.apiVersion == r.version
    && info.namespace == TargetNamespace(r.target)
    && info.resource == TargetResource(r.target)
    && info.name == TargetName(r.target)
    && info.subresource == (if r.special == Some("proxy") then "" else TargetSubresource(r.target))
    && info.verb == FinalVerb(VerbFor(r, httpMethod), TargetName(r.target) != "", watch)
  }

  lemma ProxyIsSpecial(r: Request, httpMethod: string)
    ensures VerbFor(r, httpMethod) in SPECIAL_VERBS_NO_SUBRESOURCES <==> r.special == Some("proxy")
  {
    assert VerbOf(httpMethod) != "proxy";
  }

  /** Whether the namespace, the resource and the name come out right. */
  predicate TargetNamed(t: Target, info: Info) {
    info.namespace == TargetNamespace(t) && info.resource == TargetResource(t) && info.name == TargetName(t)
  }

  lemma TargetFields(head: Info, t: Target, watch: bool)
    requires TargetOk(t)
    ensures var info := TargetInfo(head, TargetSegments(t), watch);
            && info.isResourceRequest == head.isResourceRequest && info.apiPrefix == head.apiPrefix
            && info.apiGroup == head.apiGroup && info.apiVersion == head.apiVersion
            && (TargetNamed(t, info) <==> TargetUnambiguous(t))
            && (TargetUnambiguous(t) ==>
                  && info.subresource == (if head.verb in SPECIAL_VERBS_NO_SUBRESOURCES then ""
                                          else TargetSubresource(t))
                  && info.verb == FinalVerb(head.verb, TargetName(t) != "", watch))
  {
    if TargetUnambiguous(t) {
      TargetRecovered(t);
    } else {
      TargetMisread(t);
    }
  }

  lemma TargetRecovered(t: Target)
    requires TargetOk(t) && TargetUnambiguous(t)
    ensures var rest := TargetSegments(t);
            var parts := rest[ResourceStart(rest)..];
            && rest != [] && NamespaceOf(rest) == TargetNamespace(t)
            && At(parts, 0) == TargetResource(t) && At(parts, 1) == TargetName(t)
                && At(parts, 2) == TargetSubresource(t)
  {
    var rest := TargetSegments(t);
    match t
    case Namespaced(ns, resource, name, sub) =>
      assert rest[..3] == [NAMESPACES, ns, resource];
      assert rest[2..] == [resource] + Opt(name) + Opt(sub);
    case _ =>
  }

  lemma TargetMisread(t: Target)
    requires TargetOk(t) && !TargetUnambiguous(t)
    ensures var rest := TargetSegments(t);
            var parts := rest[ResourceStart(rest)..];
            NamespaceOf(rest) != TargetNamespace(t) || At(parts, 0) != TargetResource(t)
                || At(parts, 1) != TargetName(t)
  {
    var rest := TargetSegments(t);
    match t
    case Namespaced(ns, resource, name, sub) =>
      assert rest[..3] == [NAMESPACES, ns, resource];
    case Namespace(ns, sub) =>
      assert rest == [NAMESPACES, ns, sub.value];
    case _ =>
  }

  lemma HeaderRecovered(r: Request, rest: seq<string>)
    requires Proper(r) && rest != []
    ensures var parts := HeaderSegments(r) + rest;
            && IsResourcePath(parts)
            && parts[0] == (if r.group.Some? then "apis" else "api")
            && HeaderLength(parts) == |HeaderSegments(r)|
            && (r.group.Some? ==> parts[1] == r.group.value)
            && parts[HeaderLength(parts) - 1] == r.version
            && parts[HeaderLength(parts)..] == rest
  {
  }

  lemma VerbRecovered(r: Request, head: Info, httpMethod: string, watch: bool)
    requires Proper(r)
    ensures var rest := Opt(r.special) + TargetSegments(r.target);
            && rest != [] && TargetSegments(r.target) != []
            && (r.special.Some? || TargetSegments(r.target)[0] !in SPECIAL_VERBS ==>
                  ResourceInfo(head, rest, httpMethod, watch)
                  == TargetInfo(head.(verb := VerbFor(r, httpMethod)), TargetSegments(r.target), watch))
  {
    var tail := TargetSegments(r.target);
    var rest := Opt(r.special) + tail;
    assert tail != [];
    if r.special.Some? {
      assert rest[1..] == tail;
    } else {
      assert rest == tail;
    }
  }

  /** A resource called like a special verb is taken for one, and what follows it for the resource. */
  lemma VerbMisread(t: Target, head: Info, httpMethod: string, watch: bool)
    requires TargetOk(t) && t.ClusterScoped? && t.resource in SPECIAL_VERBS && head.resource == ""
    ensures var info := ResourceInfo(head, TargetSegments(t), httpMethod, watch);
            !(TargetNamed(t, info) && info.subresource == TargetSubresource(t))
  {
    var rest := TargetSegments(t);
    if t.name.Some? {
      var tail := rest[1..];
      assert tail == [t.name.value] + Opt(t.subresource);
      if t.name.value != NAMESPACES {
        // resource, name and subresource would all have to be the same word, and that is one segment too many
        assert ResourceStart(tail) == 0 && tail[0..] == tail && At(tail, 2) == "";
      }
    }
  }

  function HeadOf(r: Request, httpMethod: string): Info {
    Head(true, httpMethod, if r.group.Some? then "apis" else "api", Text(r.group), r.version)
  }

  lemma HeadRecovered(r: Request, httpMethod: string, watch: bool)
    requires Proper(r)
    ensures var rest := Opt(r.special) + TargetSegments(r.target);
            rest != [] && InfoOf(RequestSegments(r), httpMethod, watch)
                == ResourceInfo(HeadOf(r, httpMethod), rest, httpMethod, watch)
  {
    var rest := Opt(r.special) + TargetSegments(r.target);
    assert rest != [];
    HeaderRecovered(r, rest);
  }

  /** From its segments the parser recovers every component of a request, exactly if the request is unambiguous ... */
  lemma ParsingInvertsSegments(r: Request, httpMethod: string, watch: bool)
    requires Proper(r)
    ensures Recovers(InfoOf(RequestSegments(r), httpMethod, watch), r, httpMethod, watch) <==> Unambiguous(r)
  {
    var head := HeadOf(r, httpMethod);
    HeadRecovered(r, httpMethod, watch);
    ProxyIsSpecial(r, httpMethod);
    if r.special.None? && r.target.ClusterScoped? && r.target.resource in SPECIAL_VERBS {
      assert Opt(r.special) + TargetSegments(r.target) == TargetSegments(r.target);
      VerbMisread(r.target, head, httpMethod, watch);
    } else {
      if r.special.None? {
        FirstSegment(r.target);
      }
      VerbRecovered(r, head, httpMethod, watch);
      TargetFields(head.(verb := VerbFor(r, httpMethod)), r.target, watch);
    }
  }

  lemma FirstSegment(t: Target)
    requires t.ClusterScoped? ==> t.resource !in SPECIAL_VERBS
    ensures TargetSegments(t) != [] && TargetSegments(t)[0] !in SPECIAL_VERBS
  {
    assert NAMESPACES !in SPECIAL_VERBS;
  }

  lemma SegmentsOfRequest(r: Request)
    requires Proper(r)
    ensures Segments(RequestSegments(r)) && RequestSegments(r) != []
  {
    assert Segments(HeaderSegments(r));
    assert Segments(Opt(r.special));
    assert Segments(TargetSegments(r.target));
  }

  /** ... and so it does from its path. */
  lemma ParsingInvertsPrinting(r: Request, httpMethod: string, watch: bool)
    requires Proper(r)
    ensures Recovers(InfoOf(SplitPath(PathOf(RequestSegments(r))), httpMethod, watch), r, httpMethod, watch) <==>
            Unambiguous(r)
  {
    SegmentsOfRequest(r);
    SplitPathOf(RequestSegments(r));
    ParsingInvertsSegments(r, httpMethod, watch);
  }
}
