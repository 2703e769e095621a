/**
  `$(VAR)` expansion.

  A Go string is a sequence of bytes.  The scanner `Expand` walks over it with a cursor and a
  checkpoint; its specification is a grammar of tokens, each with the text it stands for
  (`Source`) and the text it expands to (`Render`).
*/
module Expansion {

  newtype Byte = b: int | 0 <= b < 256
  type Bytes = seq<Byte>

  const OPERATOR: Byte := 36 // '$'
  const OPENER: Byte := 40   // '('
  const CLOSER: Byte := 41   // ')'

  /** Go's string(b) of a byte: the code point b in UTF-8, which is two bytes from 128 on. */
  function RuneText(b: Byte): Bytes {
    if b < 128 then [b] else [192 + b / 64, 128 + b % 64]
  }

  function SyntaxWrap(input: Bytes): Bytes {
    [OPERATOR, OPENER] + input + [CLOSER]
  }

  /** The value of a variable in the first context that defines it, else the reference itself. */
  function MappingFor(contexts: seq<map<Bytes, Bytes>>, input: Bytes): Bytes {
    if contexts == [] then SyntaxWrap(input)
    else if input in contexts[0] then contexts[0][input]
    else MappingFor(contexts[1..], input)
  }

  // ---------------------------------------------------------------------------------------------
  // The grammar
  // ---------------------------------------------------------------------------------------------

  datatype Token =
    | Literal(b: Byte)        // any byte but '$'
    | Escaped                 // $$
    | Reference(name: Bytes)  // $(name)
    | Unclosed                // $( with no ')' in the rest of the input
    | Bare(b: Byte)           // $ before any other byte
    | Dangling                // $ at the end of the input

  /** The first ')' at or after position i, or the length of the input. */
  function CloserFrom(input: Bytes, i: nat): (k: nat)
    requires i <= |input|
    ensures i <= k <= |input|
    ensures k < |input| ==> input[k] == CLOSER
    ensures forall j :: i <= j < k ==> input[j] != CLOSER
    decreases |input| - i
  {
    if i == |input| || input[i] == CLOSER then i else CloserFrom(input, i + 1)
  }

  function Source(t: Token): Bytes {
    match t
    case Literal(b) => [b]
    case Escaped => [OPERATOR, OPERATOR]
    case Reference(name) => SyntaxWrap(name)
    case Unclosed => [OPERATOR, OPENER]
    case Bare(b) => [OPERATOR, b]
    case Dangling => [OPERATOR]
  }

  function Render(t: Token, mapping: Bytes -> Bytes): Bytes {
    match t
    case Literal(b) => [b]
    case Escaped => [OPERATOR]
    case Reference(name) => mapping(name)
    case Unclosed => [OPERATOR, OPENER]
    case Bare(b) => [OPERATOR] + RuneText(b)
    case Dangling => [OPERATOR]
  }

  /** The first token of a non-empty input and what follows it. */
  function Next(s: Bytes): (r: (Token, Bytes))
    requires s != []
    ensures |r.1| < |s|
  {
    if s[0] != OPERATOR then (Literal(s[0]), s[1..])
    else if |s| == 1 then (Dangling, [])
    else if s[1] == OPERATOR then (Escaped, s[2..])
    else if s[1] != OPENER then (Bare(s[1]), s[2..])
    else
      var k := CloserFrom(s, 2);
      if k < |s| then (Reference(s[2..k]), s[k + 1..]) else (Unclosed, s[2..])
  }

  /** Tokens lose nothing of the input. */
  lemma NextCovers(s: Bytes)
    requires s != []
    ensures s == Source(Next(s).0) + Next(s).1
  {
  }

  /** The meaning of expansion: token by token. */
  function Expanded(s: Bytes, mapping: Bytes -> Bytes): Bytes
    decreases |s|
  {
    if s == [] then [] else Render(Next(s).0, mapping) + Expanded(Next(s).1, mapping)
  }

  // ---------------------------------------------------------------------------------------------
  // The scanner
  // ---------------------------------------------------------------------------------------------

  /** Reads one expression after a '$': what to write, whether it names a variable, bytes consumed. */
  function TryReadVariableName(input: Bytes): (r: (Bytes, bool, nat))
    requires |input| > 0
    ensures 1 <= r.2 <= |input|
  {
    if input[0] == OPERATOR then (input[0..1], false, 1)
    else if input[0] == OPENER then
      var i := CloserFrom(input, 1);
      if i < |input| then (input[1..i], true, i + 1)
      else ([OPERATOR, OPENER], false, 1)
    else ([OPERATOR] + RuneText(input[0]), false, 1)
  }

  lemma CloserShift(s: Bytes, i: nat)
    requires 1 <= i <= |s|
    ensures CloserFrom(s[1..], i - 1) == CloserFrom(s, i) - 1
    decreases |s| - i
  {
    if i < |s| && s[i] != CLOSER {
      CloserShift(s, i + 1);
    }
  }

  /** One '$' expression of the scanner is one token of the grammar. */
  lemma ReadIsOneToken(s: Bytes, mapping: Bytes -> Bytes)
    requires |s| >= 2 && s[0] == OPERATOR
    ensures var (read, isVar, advance) := TryReadVariableName(s[1..]);
            && Render(Next(s).0, mapping) == (if isVar then mapping(read) else read)
            && Next(s).1 == s[1 + advance..]
  {
    var rest := s[1..];
    if rest[0] == OPENER {
      CloserShift(s, 2);
      var k := CloserFrom(s, 2);
      if k < |s| {
        assert rest[1..k - 1] == s[2..k];
      }
    }
  }

  /** The expansion of what is left before and after the scanner passes one '$' expression ... */
  lemma PassExpression(input: Bytes, cursor: nat, mapping: Bytes -> Bytes)
    requires cursor + 1 < |input| && input[cursor] == OPERATOR
    ensures var (read, isVar, advance) := TryReadVariableName(input[cursor + 1..]);
            Expanded(input[cursor..], mapping)
            == (if isVar then mapping(read) else read) + Expanded(input[cursor + 1 + advance..], mapping)
  {
    var s := input[cursor..];
    ReadIsOneToken(s, mapping);
    assert s[1..] == input[cursor + 1..];
    var advance := TryReadVariableName(s[1..]).2;
    assert s[1 + advance..] == input[cursor + 1 + advance..];
  }

  /** ... or one byte that it copies. */
  lemma PassByte(input: Bytes, cursor: nat, mapping: Bytes -> Bytes)
    requires cursor < |input| && (input[cursor] != OPERATOR || cursor + 1 == |input|)
    ensures Expanded(input[cursor..], mapping) == [input[cursor]] + Expanded(input[cursor + 1..], mapping)
  {
    var s := input[cursor..];
    assert s[1..] == input[cursor + 1..];
    assert Next(s).1 == s[1..];
  }

  /** tails[i] is the expansion of the input from position i: one step of the scanner leads from tail to tail. */
  ghost predicate Links(input: Bytes, mapping: Bytes -> Bytes, tails: seq<Bytes>, i: nat)
    requires i < |input| && |tails| == |input| + 1
  {
    if input[i] == OPERATOR && i + 1 < |input| then
      var (read, isVar, advance) := TryReadVariableName(input[i + 1..]);
      tails[i] == (if isVar then mapping(read) else read) + tails[i + 1 + advance]
    else
      tails[i] == [input[i]] + tails[i + 1]
  }

  ghost predicate AreTails(input: Bytes, mapping: Bytes -> Bytes, tails: seq<Bytes>) {
    |tails| == |input| + 1 && forall i :: 0 <= i <= |input| ==> tails[i] == Expanded(input[i..], mapping)
  }

  lemma TailsLink(input: Bytes, mapping: Bytes -> Bytes, tails: seq<Bytes>, i: nat)
    requires AreTails(input, mapping, tails) && i < |input|
    ensures Links(input, mapping, tails, i)
  {
    if input[i] == OPERATOR && i + 1 < |input| {
      PassExpression(input, i, mapping);
    } else {
      PassByte(input, i, mapping);
    }
  }

  lemma Tails(input: Bytes, mapping: Bytes -> Bytes) returns (tails: seq<Bytes>)
    ensures |tails| == |input| + 1 && tails[0] == Expanded(input, mapping) && tails[|input|] == []
    ensures forall i :: 0 <= i < |input| ==> Links(input, mapping, tails, i)
  {
    tails := seq(|input| + 1, i requires 0 <= i <= |input| => Expanded(input[i..], mapping));
    assert input[0..] == input && input[|input|..] == [];
    forall i | 0 <= i < |input| ensures Links(input, mapping, tails, i) {
      TailsLink(input, mapping, tails, i);
    }
  }

  lemma WriteExpression(buf: Bytes, copied: Bytes, written: Bytes, tail: Bytes)
    ensures (buf + copied) + (written + tail) == ((buf + copied) + written) + [] + tail
  {
  }

  lemma CopyByte(buf: Bytes, copied: Bytes, b: Byte, tail: Bytes)
    ensures (buf + copied) + ([b] + tail) == (buf + (copied + [b])) + tail
  {
  }

  /** The cursor/checkpoint loop computes the token-by-token expansion of every byte string. */
  method Expand(input: Bytes, mapping: Bytes -> Bytes) returns (output: Bytes)
    ensures output == Expanded(input, mapping)
  {
    ghost var tails := Tails(input, mapping);
    output := Scan(input, mapping, tails);
  }

  method Scan(input: Bytes, mapping: Bytes -> Bytes, ghost tails: seq<Bytes>) returns (output: Bytes)
    requires |tails| == |input| + 1 && tails[|input|] == []
    requires forall i :: 0 <= i < |input| ==> Links(input, mapping, tails, i)
    ensures output == tails[0]
  {
    var buf: Bytes := [];
    var checkpoint := 0;
    var cursor := 0;
    while cursor < |input|
      invariant 0 <= checkpoint <= cursor <= |input|
      invariant buf + input[checkpoint..cursor] + tails[cursor] == tails[0]
    {
      assert Links(input, mapping, tails, cursor);
      if input[cursor] == OPERATOR && cursor + 1 < |input| {
        var (read, isVar, advance) := TryReadVariableName(input[cursor + 1..]);
        ghost var written := if isVar then mapping(read) else read;
        WriteExpression(buf, input[checkpoint..cursor], written, tails[cursor + 1 + advance]);
        buf := buf + input[checkpoint..cursor];
        if isVar {
          buf := buf + mapping(read);
        } else {
          buf := buf + read;
        }
        cursor := cursor + advance;
        checkpoint := cursor + 1;
        assert input[checkpoint..cursor + 1] == [];
      } else {
        CopyByte(buf, input[checkpoint..cursor], input[cursor], tails[cursor + 1]);
        assert input[checkpoint..cursor + 1] == input[checkpoint..cursor] + [input[cursor]];
      }
      cursor := cursor + 1;
    }
    assert input[checkpoint..cursor] == input[checkpoint..];
    output := buf + input[checkpoint..];
    assert output + [] == output;
  }

  // ---------------------------------------------------------------------------------------------
  // Laws
  // ---------------------------------------------------------------------------------------------

  /** Every expression that begins in `a` also ends in `a`. */
  predicate Complete(a: Bytes)
    decreases |a|
  {
    a == [] || (Next(a).0 != Dangling && Next(a).0 != Unclosed && Complete(Next(a).1))
  }

  lemma CloserAppend(a: Bytes, b: Bytes, i: nat)
    requires i <= |a| && CloserFrom(a, i) < |a|
    ensures CloserFrom(a + b, i) == CloserFrom(a, i)
    decreases |a| - i
  {
    if a[i] != CLOSER {
      CloserAppend(a, b, i + 1);
    }
  }

  lemma NextAppend(a: Bytes, b: Bytes)
    requires a != [] && Next(a).0 != Dangling && Next(a).0 != Unclosed
    ensures Next(a + b) == (Next(a).0, Next(a).1 + b)
  {
    assert (a + b)[1..] == a[1..] + b;
    assert |a| >= 2 ==> (a + b)[2..] == a[2..] + b;
    if Next(a).0.Reference? {
      CloserAppend(a, b, 2);
      var k := CloserFrom(a, 2);
      assert (a + b)[2..k] == a[2..k] && (a + b)[k + 1..] == a[k + 1..] + b;
    }
  }

  /** Expansion is a homomorphism on inputs cut after a complete part. */
  lemma {:induction false} ExpandIsHomomorphism(a: Bytes, b: Bytes, mapping: Bytes -> Bytes)
    requires Complete(a)
    ensures Expanded(a + b, mapping) == Expanded(a, mapping) + Expanded(b, mapping)
    decreases |a|
  {
    if a == [] {
      assert a + b == b;
    } else {
      NextAppend(a, b);
      ExpandIsHomomorphism(Next(a).1, b, mapping);
    }
  }

  /** Completeness is exactly what cutting needs: an incomplete part expands differently before some continuation. */
  lemma {:induction false} IncompleteDoesNotSplit(a: Bytes) returns (b: Bytes, mapping: Bytes -> Bytes)
    requires !Complete(a)
    ensures |Expanded(a + b, mapping)| < |Expanded(a, mapping)| + |Expanded(b, mapping)|
    decreases |a|
  {
    match Next(a).0
    case Dangling =>
      b, mapping := [OPERATOR], x => x;
      assert Next(a + b) == (Escaped, []);
    case Unclosed =>
      b, mapping := [CLOSER], x => [];
      assert CloserFrom(a, 2) == |a|;
      assert (a + b)[|a|] == CLOSER && CloserFrom(a + b, 2) == |a|;
      assert Next(a + b) == (Reference((a + b)[2..|a|]), []);
    case _ =>
      b, mapping := IncompleteDoesNotSplit(Next(a).1);
      NextAppend(a, b);
  }

  /** Doubles every '$'. */
  function Escape(s: Bytes): Bytes {
    if s == [] then []
    else (if s[0] == OPERATOR then [OPERATOR, OPERATOR] else [s[0]]) + Escape(s[1..])
  }

  /** Escaping is undone by expansion, under every mapping and for every byte string. */
  lemma {:induction false} EscapeRoundTrip(s: Bytes, mapping: Bytes -> Bytes)
    ensures Expanded(Escape(s), mapping) == s
  {
    if s != [] {
      EscapeRoundTrip(s[1..], mapping);
      var e := Escape(s);
      assert Next(e) == (if s[0] == OPERATOR then Escaped else Literal(s[0]), Escape(s[1..]));
    }
  }

  // ---------------------------------------------------------------------------------------------
  // Expansion without any variable
  // ---------------------------------------------------------------------------------------------

  /** No `$$`, and no '$' before a byte beyond ASCII, among the expressions of the input. */
  predicate Plain(s: Bytes)
    decreases |s|
  {
    s == [] || (Next(s).0 != Escaped && (Next(s).0.Bare? ==> Next(s).0.b < 128) && Plain(Next(s).1))
  }

  lemma {:induction false} NoByteGained(s: Bytes, c: Byte)
    requires c != OPERATOR
    ensures [c] + Expanded(s, SyntaxWrap) != s
    decreases |s|
  {
    if s != [] && s[0] == c {
      assert Next(s) == (Literal(c), s[1..]);
      NoByteGained(s[1..], c);
      KeepsApart([c], [c] + Expanded(s[1..], SyntaxWrap), s[1..]);
      assert s == [c] + s[1..];
    }
  }

  lemma KeepsApart(w: Bytes, x: Bytes, y: Bytes)
    requires x != y
    ensures w + x != w + y
  {
    CancelPrefix(w, x, y);
  }

  lemma CancelPrefix(w: Bytes, x: Bytes, y: Bytes)
    ensures w + x == w + y ==> x == y
  {
    if w + x == w + y {
      assert (w + x)[|w|..] == x && (w + y)[|w|..] == y;
    }
  }

  /** Anything but `$$` expands to a text that does not begin with two '$' signs. */
  lemma NotTwoOperators(s: Bytes)
    requires s == [] || Next(s).0 != Escaped
    ensures var e := Expanded(s, SyntaxWrap); |e| < 2 || e[0] != OPERATOR || e[1] != OPERATOR
  {
    if s != [] && Next(s).0 == Dangling {
      assert Next(s).1 == [];
    }
  }

  lemma {:induction false} NoOperatorsGained(s: Bytes, w: Bytes)
    requires w != [] && forall i :: 0 <= i < |w| ==> w[i] == OPERATOR
    ensures Expanded(s, SyntaxWrap) != w + s
    decreases |s|
  {
    if s != [] {
      if Next(s).0 == Escaped {
        var u := s[2..];
        NoOperatorsGained(u, w[1..] + [OPERATOR, OPERATOR]);
        DoubledOperator(Expanded(u, SyntaxWrap), w, u);
        assert s == [OPERATOR, OPERATOR] + u;
      } else {
        NotTwoOperators(s);
        OperatorsFirst(s, w);
        if s[0] != OPERATOR {
          assert Expanded(s, SyntaxWrap)[0] == s[0];
        }
      }
    }
  }

  lemma DoubledOperator(e: Bytes, w: Bytes, u: Bytes)
    requires w != [] && w[0] == OPERATOR && e != w[1..] + [OPERATOR, OPERATOR] + u
    ensures [OPERATOR] + e != w + ([OPERATOR, OPERATOR] + u)
  {
    KeepsApart([OPERATOR], e, w[1..] + [OPERATOR, OPERATOR] + u);
    assert w + ([OPERATOR, OPERATOR] + u) == [OPERATOR] + (w[1..] + [OPERATOR, OPERATOR] + u);
  }

  lemma OperatorsFirst(s: Bytes, w: Bytes)
    requires s != [] && w != [] && forall i :: 0 <= i < |w| ==> w[i] == OPERATOR
    ensures (w + s)[0] == OPERATOR && (s[0] == OPERATOR ==> (w + s)[1] == OPERATOR)
  {
    assert |w| > 1 ==> (w + s)[1] == w[1];
  }

  lemma EscapedIsNotIdentity(s: Bytes)
    requires s != [] && Next(s).0 == Escaped
    ensures Expanded(s, SyntaxWrap) != s
  {
    var u := s[2..];
    NoOperatorsGained(u, [OPERATOR]);
    KeepsApart([OPERATOR], Expanded(u, SyntaxWrap), [OPERATOR] + u);
    assert s == [OPERATOR] + ([OPERATOR] + u);
  }

  lemma NonAsciiIsNotIdentity(s: Bytes)
    requires s != [] && Next(s).0.Bare? && Next(s).0.b >= 128
    ensures Expanded(s, SyntaxWrap) != s
  {
    var u := s[2..];
    NoByteGained(u, 128 + s[1] % 64);
    RuneDiffers(s[1], Expanded(u, SyntaxWrap), u);
    assert s == [OPERATOR, s[1]] + u;
  }

  lemma RuneDiffers(b: Byte, e: Bytes, u: Bytes)
    requires b >= 128 && [128 + b % 64] + e != u
    ensures [OPERATOR] + RuneText(b) + e != [OPERATOR, b] + u
  {
    var x := [OPERATOR] + RuneText(b) + e;
    assert x == [OPERATOR, 192 + b / 64] + ([128 + b % 64] + e);
    if 192 + b / 64 == b {
      KeepsApart([OPERATOR, b], [128 + b % 64] + e, u);
    } else {
      assert x[1] != ([OPERATOR, b] + u)[1];
    }
  }

  /** With no variable defined, expansion is the identity exactly on the plain strings. */
  lemma {:induction false} IdentityIffPlain(s: Bytes)
    ensures Expanded(s, SyntaxWrap) == s <==> Plain(s)
    decreases |s|
  {
    if s != [] {
      var (t, u) := Next(s);
      if t == Escaped {
        EscapedIsNotIdentity(s);
      } else if t.Bare? && t.b >= 128 {
        NonAsciiIsNotIdentity(s);
      } else {
        IdentityIffPlain(u);
        NextCovers(s);
        assert Render(t, SyntaxWrap) == Source(t);
        CancelPrefix(Source(t), Expanded(u, SyntaxWrap), u);
      }
    }
  }

  /** In particular on every ASCII string that does not contain `$$`. */
  lemma {:induction false} AsciiWithoutDoubleOperatorIsPlain(s: Bytes)
    requires forall i :: 0 <= i < |s| ==> s[i] < 128
    requires forall i :: 0 <= i < |s| - 1 ==> !(s[i] == OPERATOR && s[i + 1] == OPERATOR)
    ensures Plain(s)
    decreases |s|
  {
    if s != [] {
      var (t, u) := Next(s);
      var d := |s| - |u|;
      NextCovers(s);
      assert u == s[d..];
      AsciiWithoutDoubleOperatorIsPlain(u);
    }
  }

  // ---------------------------------------------------------------------------------------------
  // Mappings
  // ---------------------------------------------------------------------------------------------

  /** A variable takes its value from the first context `i` that has it; if none has it, it stays as written. */
  lemma {:induction false} MappingIsFirstMatch(contexts: seq<map<Bytes, Bytes>>, input: Bytes, i: nat)
    requires i <= |contexts| && (forall j :: 0 <= j < i ==> input !in contexts[j])
    requires i < |contexts| ==> input in contexts[i]
    ensures MappingFor(contexts, input) == if i < |contexts| then contexts[i][input] else Source(Reference(input))
  {
    if i > 0 {
      assert input !in contexts[0];
      MappingIsFirstMatch(contexts[1..], input, i - 1);
    }
  }
}
