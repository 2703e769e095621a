/**
  The node affinity that a pod gets in a leaf cluster that was cut up by a label selector, against
  the nodes that the label selector itself selects.
*/
module Affinity {
  import opened Options

  const IN := "In"
  const NOT_IN := "NotIn"
  const EXISTS := "Exists"
  const DOES_NOT_EXIST := "DoesNotExist"
  const GT := "Gt"
  const LT := "Lt"

  /** Both selector languages share this shape; the operator is any text. */
  datatype Requirement = Requirement(key: string, operator: string, values: seq<string>)

  datatype LabelSelector = LabelSelector(matchLabels: map<string, string>, matchExpressions: seq<Requirement>)

  type Term = seq<Requirement>

  /** Preferred terms and pod affinities are only carried along, so they are kept as their texts. */
  datatype NodeAffinity = NodeAffinity(required: Option<Option<seq<Term>>>, preferred: seq<string>)

  datatype Affinity = Affinity(node: Option<NodeAffinity>, pod: Option<string>, podAnti: Option<string>)

  /** The syntax of label keys and values, and the numbers that values stand for. */
  datatype Syntax = Syntax(keyOk: string -> bool, valueOk: string -> bool, parseInt: string -> Option<int>)

  /** The answer of a selector for a node: it may also turn out to be malformed. */
  datatype Answer = Invalid | No | Yes

  // ---------------------------------------------------------------------------------------------
  // The two selector languages
  // ---------------------------------------------------------------------------------------------

  predicate LabelOperator(op: string) {
    op == IN || op == NOT_IN || op == EXISTS || op == DOES_NOT_EXIST
  }

  predicate Comparison(op: string) {
    op == GT || op == LT
  }

  predicate WellFormed(syntax: Syntax, r: Requirement) {
    && syntax.keyOk(r.key)
    && (forall i | 0 <= i < |r.values| :: syntax.valueOk(r.values[i]))
    && (r.operator == IN || r.operator == NOT_IN ==> |r.values| > 0)
    && (r.operator == EXISTS || r.operator == DOES_NOT_EXIST ==> |r.values| == 0)
    && (Comparison(r.operator) ==> |r.values| == 1 && syntax.parseInt(r.values[0]).Some?)
  }

  predicate Holds(syntax: Syntax, r: Requirement, labels: map<string, string>) {
    if r.operator == IN then r.key in labels && labels[r.key] in r.values
    else if r.operator == NOT_IN then r.key !in labels || labels[r.key] !in r.values
    else if r.operator == EXISTS then r.key in labels
    else if r.operator == DOES_NOT_EXIST then r.key !in labels
    else Comparison(r.operator) && r.key in labels && |r.values| == 1
         && Compares(syntax, r.operator, labels[r.key], r.values[0])
  }

  predicate Compares(syntax: Syntax, op: string, value: string, bound: string) {
    var v, b := syntax.parseInt(value), syntax.parseInt(bound);
    v.Some? && b.Some? && (if op == GT then v.value > b.value else v.value < b.value)
  }

  predicate IsEmpty(s: LabelSelector) {
    s.matchLabels == map[] && s.matchExpressions == []
  }

  predicate LabelsOk(syntax: Syntax, s: LabelSelector) {
    forall k | k in s.matchLabels :: syntax.keyOk(k) && syntax.valueOk(s.matchLabels[k])
  }

  predicate WellFormedForLabels(syntax: Syntax, s: LabelSelector) {
    && LabelsOk(syntax, s)
    && (forall i | 0 <= i < |s.matchExpressions| ::
          LabelOperator(s.matchExpressions[i].operator) && WellFormed(syntax, s.matchExpressions[i]))
  }

  predicate LabelsHold(s: LabelSelector, labels: map<string, string>) {
    forall k | k in s.matchLabels :: k in labels && labels[k] == s.matchLabels[k]
  }

  predicate AllHold(syntax: Syntax, requirements: seq<Requirement>, labels: map<string, string>) {
    forall i | 0 <= i < |requirements| :: Holds(syntax, requirements[i], labels)
  }

  /**
    A label selector selects by equality of labels and by expressions without comparisons; an empty
    one selects everything.
  */
  function SelectorAnswer(syntax: Syntax, s: LabelSelector, labels: map<string, string>): Answer {
    if IsEmpty(s) then Yes
    else if !WellFormedForLabels(syntax, s) then Invalid
    else if LabelsHold(s, labels) && AllHold(syntax, s.matchExpressions, labels) then Yes
    else No
  }

  predicate NodeRequirementOk(syntax: Syntax, r: Requirement) {
    (LabelOperator(r.operator) || Comparison(r.operator)) && WellFormed(syntax, r)
  }

  predicate TermOk(syntax: Syntax, term: Term) {
    forall i | 0 <= i < |term| :: NodeRequirementOk(syntax, term[i])
  }

  /** A node selector term may also compare numbers; an empty one selects nothing. */
  function TermAnswer(syntax: Syntax, term: Term, labels: map<string, string>): Answer {
    if term == [] then No
    else if !TermOk(syntax, term) then Invalid
    else if AllHold(syntax, term, labels) then Yes
    else No
  }

  /** The terms are alternatives; a malformed one is reported only if no other one selects the node. */
  function NodeSelectorAnswer(syntax: Syntax, terms: seq<Term>, labels: map<string, string>): Answer {
    if exists i | 0 <= i < |terms| :: TermAnswer(syntax, terms[i], labels).Yes? then Yes
    else if exists i | 0 <= i < |terms| :: TermAnswer(syntax, terms[i], labels).Invalid? then Invalid
    else No
  }

  // ---------------------------------------------------------------------------------------------
  // The translation
  // ---------------------------------------------------------------------------------------------

  predicate IsLabelRequirement(r: Requirement, matchLabels: map<string, string>) {
    r.key in matchLabels && r == Requirement(r.key, IN, [matchLabels[r.key]])
  }

  /** `term` holds one requirement for every label, in any order, and then the expressions. */
  ghost predicate Translates(s: LabelSelector, term: Term) {
    && |term| == |s.matchLabels| + |s.matchExpressions|
    && term[|s.matchLabels|..] == s.matchExpressions
    && (forall i | 0 <= i < |s.matchLabels| :: IsLabelRequirement(term[i], s.matchLabels))
    && (forall k | k in s.matchLabels :: exists i | 0 <= i < |s.matchLabels| :: term[i].key == k)
  }

  method TermOf(s: LabelSelector) returns (term: Term)
    ensures Translates(s, term)
  {
    term := [];
    var keys := s.matchLabels.Keys;
    while keys != {}
      invariant keys <= s.matchLabels.Keys
      invariant |term| + |keys| == |s.matchLabels|
      invariant forall i | 0 <= i < |term| :: IsLabelRequirement(term[i], s.matchLabels)
      invariant forall k | k in s.matchLabels && k !in keys :: exists i | 0 <= i < |term| :: term[i].key == k
    {
      var key :| key in keys;
      ghost var before := term;
      term := term + [Requirement(key, IN, [s.matchLabels[key]])];
      keys := keys - {key};
      forall k | k in s.matchLabels && k !in keys ensures exists i | 0 <= i < |term| :: term[i].key == k {
        if k == key {
          assert term[|before|].key == k;
        } else {
          var i :| 0 <= i < |before| && before[i].key == k;
          assert term[i].key == k;
        }
      }
    }
    ghost var heads := term;
    var i := 0;
    while i < |s.matchExpressions|
      invariant 0 <= i <= |s.matchExpressions|
      invariant term == heads + s.matchExpressions[..i]
    {
      var item := s.matchExpressions[i];
      term := term + [Requirement(item.key, item.operator, item.values)];
      i := i + 1;
    }
  }

  /** Replaces the required node affinity by the translated selector and keeps everything else. */
  method FitNodeAffinity(affinity: Option<Affinity>, s: LabelSelector) returns (fitted: Affinity, ghost term: Term)
    ensures Translates(s, term)
    ensures fitted.node.Some? && fitted.node.value.required == Some(Some([term]))
    ensures fitted.node.value.preferred
            == (if affinity.Some? && affinity.value.node.Some? then affinity.value.node.value.preferred else [])
    ensures fitted.pod == (if affinity.Some? then affinity.value.pod else None)
    ensures fitted.podAnti == (if affinity.Some? then affinity.value.podAnti else None)
  {
    var nodeSelectorTerm := TermOf(s);
    term := nodeSelectorTerm;
    var terms := [nodeSelectorTerm];
    if affinity.None? {
      fitted := Affinity(Some(NodeAffinity(Some(Some(terms)), [])), None, None);
    } else {
      fitted := affinity.value;
      if fitted.node.None? {
        fitted := fitted.(node := Some(NodeAffinity(Some(Some(terms)), [])));
      } else if fitted.node.value.required.None? {
        fitted := fitted.(node := Some(fitted.node.value.(required := Some(Some(terms)))));
      } else {
        fitted := fitted.(node := Some(fitted.node.value.(required := Some(Some(terms)))));
      }
    }
  }

  // ---------------------------------------------------------------------------------------------
  // The two agree
  // ---------------------------------------------------------------------------------------------

  /** The fitted affinity and the selector give the same answer for every node. */
  ghost predicate SameNodes(syntax: Syntax, s: LabelSelector, term: Term) {
    forall labels: map<string, string> ::
      NodeSelectorAnswer(syntax, [term], labels) == SelectorAnswer(syntax, s, labels)
  }

  predicate UsesComparison(s: LabelSelector) {
    exists i | 0 <= i < |s.matchExpressions| :: Comparison(s.matchExpressions[i].operator)
  }

  /** The selector would be well formed if label selectors could compare. */
  predicate WellFormedForNodes(syntax: Syntax, s: LabelSelector) {
    LabelsOk(syntax, s) && TermOk(syntax, s.matchExpressions)
  }

  lemma EmptyTerm(s: LabelSelector, term: Term)
    requires Translates(s, term)
    ensures term == [] <==> IsEmpty(s)
  {
    if term == [] {
      assert s.matchLabels.Keys == {};
    }
  }

  lemma OneTerm(syntax: Syntax, term: Term, labels: map<string, string>)
    ensures NodeSelectorAnswer(syntax, [term], labels) == TermAnswer(syntax, term, labels)
  {
    assert [term][0] == term;
  }

  lemma TermWellFormed(syntax: Syntax, s: LabelSelector, term: Term)
    requires Translates(s, term)
    ensures TermOk(syntax, term) <==> WellFormedForNodes(syntax, s)
  {
    var n := |s.matchLabels|;
    if WellFormedForNodes(syntax, s) {
      forall i | 0 <= i < |term| ensures NodeRequirementOk(syntax, term[i]) {
        if i >= n {
          assert term[i] == s.matchExpressions[i - n];
        } else {
          assert IsLabelRequirement(term[i], s.matchLabels);
        }
      }
    }
    if TermOk(syntax, term) {
      forall k | k in s.matchLabels ensures syntax.keyOk(k) && syntax.valueOk(s.matchLabels[k]) {
        var i :| 0 <= i < n && term[i].key == k;
        assert NodeRequirementOk(syntax, term[i]) && IsLabelRequirement(term[i], s.matchLabels);
        assert term[i].values[0] == s.matchLabels[k];
      }
      forall j | 0 <= j < |s.matchExpressions| ensures NodeRequirementOk(syntax, s.matchExpressions[j]) {
        assert term[n..][j] == term[n + j];
      }
    }
  }

  lemma LabelTermsHold(syntax: Syntax, s: LabelSelector, term: Term, labels: map<string, string>)
    requires Translates(s, term)
    ensures AllHold(syntax, term[..|s.matchLabels|], labels) <==> LabelsHold(s, labels)
  {
    var heads := term[..|s.matchLabels|];
    forall i | 0 <= i < |heads| ensures IsLabelRequirement(heads[i], s.matchLabels) && heads[i] == term[i] {
    }
    if AllHold(syntax, heads, labels) {
      forall k | k in s.matchLabels ensures k in labels && labels[k] == s.matchLabels[k] {
        var i :| 0 <= i < |heads| && term[i].key == k;
        assert Holds(syntax, heads[i], labels);
      }
    }
  }

  lemma AllHoldSplits(syntax: Syntax, a: seq<Requirement>, b: seq<Requirement>, labels: map<string, string>)
    ensures AllHold(syntax, a + b, labels) <==> AllHold(syntax, a, labels) && AllHold(syntax, b, labels)
  {
    forall i | 0 <= i < |a| ensures (a + b)[i] == a[i] {
    }
    forall i | 0 <= i < |b| ensures (a + b)[|a| + i] == b[i] {
    }
  }

  lemma LabelsAreNodesWithoutComparison(syntax: Syntax, s: LabelSelector)
    ensures WellFormedForLabels(syntax, s) <==> WellFormedForNodes(syntax, s) && !UsesComparison(s)
  {
  }

  lemma TermAnswersAlike(syntax: Syntax, s: LabelSelector, term: Term, labels: map<string, string>)
    requires Translates(s, term) && !IsEmpty(s)
    ensures WellFormedForNodes(syntax, s) && UsesComparison(s) ==>
              SelectorAnswer(syntax, s, labels).Invalid? && !TermAnswer(syntax, term, labels).Invalid?
    ensures !(WellFormedForNodes(syntax, s) && UsesComparison(s)) ==>
              TermAnswer(syntax, term, labels) == SelectorAnswer(syntax, s, labels)
  {
    EmptyTerm(s, term);
    TermWellFormed(syntax, s, term);
    LabelsAreNodesWithoutComparison(syntax, s);
    LabelTermsHold(syntax, s, term, labels);
    assert term == term[..|s.matchLabels|] + s.matchExpressions;
    AllHoldSplits(syntax, term[..|s.matchLabels|], s.matchExpressions, labels);
  }

  /**
    The fitted affinity selects exactly the nodes that the label selector selects, unless the
    selector is empty, or compares numbers and is well formed otherwise.
  */
  lemma FittedAffinitySelectsTheSameNodes(syntax: Syntax, s: LabelSelector, term: Term)
    requires Translates(s, term)
    ensures SameNodes(syntax, s, term) <==> !IsEmpty(s) && !(WellFormedForNodes(syntax, s) && UsesComparison(s))
  {
    if IsEmpty(s) {
      EmptyTerm(s, term);
      OneTerm(syntax, term, map[]);
      assert SelectorAnswer(syntax, s, map[]) == Yes;
    } else {
      forall labels: map<string, string>
        ensures (NodeSelectorAnswer(syntax, [term], labels) == SelectorAnswer(syntax, s, labels))
                <==> !(WellFormedForNodes(syntax, s) && UsesComparison(s))
      {
        OneTerm(syntax, term, labels);
        TermAnswersAlike(syntax, s, term, labels);
      }
      if WellFormedForNodes(syntax, s) && UsesComparison(s) {
        assert NodeSelectorAnswer(syntax, [term], map[]) != SelectorAnswer(syntax, s, map[]);
      }
    }
  }

  /** The empty selector turns every node of the leaf into one that the pod is kept away from. */
  lemma EmptySelectorShutsEveryNode(syntax: Syntax, term: Term, labels: map<string, string>)
    requires Translates(LabelSelector(map[], []), term)
    ensures SelectorAnswer(syntax, LabelSelector(map[], []), labels) == Yes
    ensures NodeSelectorAnswer(syntax, [term], labels) == No
  {
    OneTerm(syntax, term, labels);
  }
}
