/** Meaning-preserving readings of the evaluator's derived forms, and what its `LIKE` matcher accepts. */
module LambdaForms {
  import opened Wrappers
  import opened Types
  import opened Ast
  import opened Errors
  import opened Stdlib
  import opened Lambda
  import Text

  // ---- IN, ANY and BETWEEN are the OR/AND chains they abbreviate ----

  /** `subject op m1 OR (subject op m2 OR …)`. */
  function AnyChain(op: Op, subject: Expr, members: seq<Expr>): Expr
    requires members != []
  {
    var first := Binary(op, subject, members[0]);
    if |members| == 1 then first else Binary(Or, first, AnyChain(op, subject, members[1..]))
  }

  /** A quantified comparison is its chain of disjuncts: same value, same first error. */
  lemma AnyIsChain(op: Op, subject: Expr, members: seq<Expr>, env: ValueEnv, std: Functions)
    requires op in {Eq, Ne, Lt, Le, Gt, Ge} && members != []
    ensures EvalData(AnyOf(op, subject, members), env, std) == EvalData(AnyChain(op, subject, members), env, std)
  {
    ChainSearches(op, subject, members, env, std);
  }

  lemma {:induction false} ChainSearches(op: Op, subject: Expr, members: seq<Expr>, env: ValueEnv, std: Functions)
    requires op in {Eq, Ne, Lt, Le, Gt, Ge} && members != []
    ensures EvalData(AnyChain(op, subject, members), env, std) ==
            var s := EvalData(subject, env, std);
            if s.Err? then s else AsBool(AnyMember(op, s.value, members, env, std))
  {
    var s, m := EvalData(subject, env, std), EvalData(members[0], env, std);
    var first := Binary(op, subject, members[0]);
    ComparisonEvaluates(op, subject, members[0], env, std);
    if |members| == 1 {
      assert s.Ok? ==> AnyMember(op, s.value, members[1..], env, std) == Ok(false);
    } else {
      var rest := members[1..];
      ChainSearches(op, subject, rest, env, std);
      OrEvaluates(first, AnyChain(op, subject, rest), env, std);
      if s.Ok? {
        SearchStep(op, s.value, members, env, std, AnyMember(op, s.value, rest, env, std));
      }
    }
  }

  lemma SearchStep(op: Op, subject: Value, members: seq<Expr>, env: ValueEnv, std: Functions, later: Result<bool, EvalError>)
    requires members != [] && later == AnyMember(op, subject, members[1..], env, std)
    ensures var m := EvalData(members[0], env, std);
            AnyMember(op, subject, members, env, std) ==
            if m.Err? then Err(m.error)
            else
              match CompareOp(op, subject, m.value)
              case Err(e) => Err(e)
              case Ok(hit) => if hit then Ok(true) else later
  {
  }

  function AsBool(r: Result<bool, EvalError>): Result<Value, EvalError> {
    match r
    case Ok(b) => Ok(Bool(b))
    case Err(e) => Err(e)
  }

  lemma OrEvaluates(lhs: Expr, rhs: Expr, env: ValueEnv, std: Functions)
    ensures EvalData(Binary(Or, lhs, rhs), env, std) ==
            var l, r := EvalData(lhs, env, std), EvalData(rhs, env, std);
            if l.Err? then l else if Truthy(l.value) then Ok(Bool(true)) else if r.Err? then r else Ok(Bool(Truthy(r.value)))
  {
  }

  lemma ComparisonEvaluates(op: Op, lhs: Expr, rhs: Expr, env: ValueEnv, std: Functions)
    requires op in {Eq, Ne, Lt, Le, Gt, Ge}
    ensures EvalData(Binary(op, lhs, rhs), env, std) ==
            var l, r := EvalData(lhs, env, std), EvalData(rhs, env, std);
            if l.Err? then l else if r.Err? then r else AsBool(CompareOp(op, l.value, r.value))
  {
  }

  /** `IN` is `= ANY`. */
  lemma InIsEqualsAny(subject: Expr, members: seq<Expr>, env: ValueEnv, std: Functions)
    ensures Eval(InSet(subject, members), env, std) == Eval(AnyOf(Eq, subject, members), env, std)
  {
  }

  /** `BETWEEN` is the conjunction of its two bounds, once the upper bound has a value. */
  lemma BetweenIsConjunction(subject: Expr, low: Expr, high: Expr, env: ValueEnv, std: Functions)
    requires EvalData(high, env, std).Ok?
    ensures Eval(Between(subject, low, high), env, std)
         == Eval(Binary(And, Binary(Ge, subject, low), Binary(Le, subject, high)), env, std)
  {
    BetweenEvaluates(subject, low, high, env, std);
    BinaryEvaluates(Ge, subject, low, env, std);
    BinaryEvaluates(Le, subject, high, env, std);
    BinaryEvaluates(And, Binary(Ge, subject, low), Binary(Le, subject, high), env, std);
    BothBounds(EvalData(subject, env, std), EvalData(low, env, std), EvalData(high, env, std));
  }

  lemma BetweenEvaluates(subject: Expr, low: Expr, high: Expr, env: ValueEnv, std: Functions)
    ensures Eval(Between(subject, low, high), env, std) ==
            BetweenOver(EvalData(subject, env, std), EvalData(low, env, std), EvalData(high, env, std))
  {
  }

  lemma BinaryEvaluates(op: Op, lhs: Expr, rhs: Expr, env: ValueEnv, std: Functions)
    ensures Eval(Binary(op, lhs, rhs), env, std) == BinaryOver(op, EvalData(lhs, env, std), EvalData(rhs, env, std))
    ensures EvalData(Binary(op, lhs, rhs), env, std) == ToData(BinaryOver(op, EvalData(lhs, env, std), EvalData(rhs, env, std)))
  {
  }

  lemma BothBounds(s: DataOutcome, lo: DataOutcome, hi: DataOutcome)
    requires hi.Ok?
    ensures BetweenOver(s, lo, hi) == BinaryOver(And, ToData(BinaryOver(Ge, s, lo)), ToData(BinaryOver(Le, s, hi)))
  {
  }

  // ---- The comparisons are one order ----

  /** On ordered operands the six comparisons agree: `<=` is `<` or `=`, and swapping operands flips them. */
  lemma ComparisonsAgree(a: Value, b: Value)
    requires Compare(a, b).Ok?
    ensures Compare(b, a).Ok?
    ensures CompareOp(Lt, a, b) == CompareOp(Gt, b, a) && CompareOp(Le, a, b) == CompareOp(Ge, b, a)
    ensures CompareOp(Le, a, b).value <==> CompareOp(Lt, a, b).value || CompareOp(Eq, a, b).value
    ensures CompareOp(Ne, a, b).value <==> CompareOp(Lt, a, b).value || CompareOp(Gt, a, b).value
  {
    if a.Text? && b.Text? {
      Text.BeforeIsTotal(a.s, b.s);
    }
  }

  /** Comparison is transitive, across the two numeric kinds as well. */
  lemma LessIsTransitive(a: Value, b: Value, c: Value)
    requires CompareOp(Lt, a, b) == Ok(true) && CompareOp(Lt, b, c) == Ok(true)
    ensures CompareOp(Lt, a, c) == Ok(true)
  {
    if a.Text? && b.Text? && c.Text? {
      Text.BeforeIsTransitive(a.s, b.s, c.s);
    }
  }

  // ---- LIKE ----

  function Concat(pieces: seq<seq<Byte>>): seq<Byte> {
    if pieces == [] then [] else pieces[0] + Concat(pieces[1..])
  }

  /** One pattern byte accepts this piece of the subject. */
  predicate Accepts(p: Byte, piece: seq<Byte>) {
    if p == '%' as Byte then true
    else if p == '_' as Byte then |piece| == 1
    else piece == [p]
  }

  /** The subject can be cut into consecutive pieces, one per pattern byte, each accepted by its byte. */
  ghost predicate Splits(s: seq<Byte>, p: seq<Byte>, pieces: seq<seq<Byte>>) {
    |pieces| == |p| && Concat(pieces) == s && forall i :: 0 <= i < |p| ==> Accepts(p[i], pieces[i])
  }

  lemma {:induction false} LikeFindsPieces(s: seq<Byte>, p: seq<Byte>) returns (pieces: seq<seq<Byte>>)
    requires LikeInner(s, p)
    ensures Splits(s, p, pieces)
    decreases p
  {
    if p == [] {
      pieces := [];
    } else {
      var n := 1;
      if p[0] == '%' as Byte {
        n :| 0 <= n <= |s| && LikeInner(s[n..], p[1..]);
      }
      var rest := LikeFindsPieces(s[n..], p[1..]);
      pieces := [s[..n]] + rest;
      assert pieces[1..] == rest && s == s[..n] + s[n..];
      forall i | 0 <= i < |p|
        ensures Accepts(p[i], pieces[i])
      {
        if i > 0 {
          assert pieces[i] == rest[i - 1] && p[i] == p[1..][i - 1];
        }
      }
    }
  }

  lemma {:induction false} PiecesMatch(s: seq<Byte>, p: seq<Byte>, pieces: seq<seq<Byte>>)
    requires Splits(s, p, pieces)
    ensures LikeInner(s, p)
    decreases p
  {
    if p != [] {
      var n := |pieces[0]|;
      assert s == pieces[0] + Concat(pieces[1..]);
      assert s[n..] == Concat(pieces[1..]) && s[..n] == pieces[0];
      forall i | 0 <= i < |p| - 1
        ensures Accepts(p[1..][i], pieces[1..][i])
      {
        assert p[1..][i] == p[i + 1] && pieces[1..][i] == pieces[i + 1];
      }
      PiecesMatch(s[n..], p[1..], pieces[1..]);
      assert Accepts(p[0], pieces[0]);
    }
  }

  /** The matcher accepts exactly the subjects the pattern can be laid over. */
  lemma LikeMeansSplit(s: seq<Byte>, p: seq<Byte>)
    ensures LikeInner(s, p) <==> exists pieces :: Splits(s, p, pieces)
  {
    if LikeInner(s, p) {
      var pieces := LikeFindsPieces(s, p);
      assert Splits(s, p, pieces);
    }
    if pieces :| Splits(s, p, pieces) {
      PiecesMatch(s, p, pieces);
    }
  }

  /** The documented reading, character by character: `_` is any single character. */
  predicate LikeChars(s: string, p: string)
    decreases p
  {
    if p == [] then s == []
    else if p[0] == '%' then exists i | 0 <= i <= |s| :: LikeChars(s[i..], p[1..])
    else if p[0] == '_' then s != [] && LikeChars(s[1..], p[1..])
    else s != [] && s[0] == p[0] && LikeChars(s[1..], p[1..])
  }

  predicate IsAscii(s: string) {
    forall i :: 0 <= i < |s| ==> s[i] < '\U{80}'
  }

  lemma {:induction false} Utf8OfAscii(s: string)
    requires IsAscii(s)
    ensures |Text.Utf8(s)| == |s|
    ensures forall i :: 0 <= i < |s| ==> Text.Utf8(s)[i] as int == s[i] as int
  {
    if s != [] {
      Utf8OfAscii(s[1..]);
    }
  }

  lemma Utf8OfAsciiTail(s: string, i: nat)
    requires IsAscii(s) && i <= |s|
    ensures i <= |Text.Utf8(s)| && Text.Utf8(s)[i..] == Text.Utf8(s[i..])
  {
    Utf8OfAscii(s);
    Utf8OfAscii(s[i..]);
  }

  /** On ASCII subjects the byte matcher is the documented one, for every pattern. */
  lemma {:induction false} LikeOnAscii(s: string, p: string)
    requires IsAscii(s)
    ensures LikeInner(Text.Utf8(s), Text.Utf8(p)) <==> LikeChars(s, p)
    decreases p
  {
    Utf8OfAscii(s);
    if p != [] {
      var bytes, head := Text.Utf8(p), Text.EncodeChar(p[0]);
      assert bytes[0] == head[0];
      if p[0] < '\U{80}' {
        assert bytes[1..] == Text.Utf8(p[1..]) && bytes[0] as int == p[0] as int;
        if p[0] == '%' {
          forall i | 0 <= i <= |s|
            ensures LikeInner(Text.Utf8(s)[i..], bytes[1..]) <==> LikeChars(s[i..], p[1..])
          {
            Utf8OfAsciiTail(s, i);
            LikeOnAscii(s[i..], p[1..]);
          }
        } else if s != [] {
          Utf8OfAsciiTail(s, 1);
          LikeOnAscii(s[1..], p[1..]);
        }
      } else {
        assert bytes[0] as int >= 0x80;
      }
    }
  }

  function Underscores(n: nat): (p: string)
    ensures |p| == n
  {
    if n == 0 then "" else "_" + Underscores(n - 1)
  }

  lemma {:induction false} UnderscoresCountChars(s: string)
    ensures LikeChars(s, Underscores(|s|))
  {
    if s != [] {
      UnderscoresCountChars(s[1..]);
      assert Underscores(|s|)[1..] == Underscores(|s| - 1);
    }
  }

  lemma {:induction false} UnderscoresCountBytes(bytes: seq<Byte>, n: nat)
    ensures LikeInner(bytes, Text.Utf8(Underscores(n))) ==> |bytes| == n
  {
    if n > 0 {
      var p := Text.Utf8(Underscores(n));
      assert Underscores(n)[0] == '_' && Underscores(n)[1..] == Underscores(n - 1);
      assert p[0] == '_' as Byte && p[1..] == Text.Utf8(Underscores(n - 1));
      if bytes != [] {
        UnderscoresCountBytes(bytes[1..], n - 1);
      }
    }
  }

  /** Text with a character outside ASCII has more bytes than characters. */
  lemma {:induction false} MoreBytesThanChars(s: string)
    ensures |Text.Utf8(s)| >= |s|
    ensures !IsAscii(s) ==> |Text.Utf8(s)| > |s|
  {
    if s != [] {
      MoreBytesThanChars(s[1..]);
      if !IsAscii(s) && s[0] < '\U{80}' {
        var i :| 0 <= i < |s| && s[i] >= '\U{80}';
        assert s[1..][i - 1] == s[i];
      }
    }
  }

  /** A subject is matched as documented, by every pattern, exactly when it is ASCII. */
  lemma LikeIsDocumentedExactlyOnAscii(s: string)
    ensures (forall p :: LikeInner(Text.Utf8(s), Text.Utf8(p)) <==> LikeChars(s, p)) <==> IsAscii(s)
  {
    if IsAscii(s) {
      forall p
        ensures LikeInner(Text.Utf8(s), Text.Utf8(p)) <==> LikeChars(s, p)
      {
        LikeOnAscii(s, p);
      }
    } else {
      UnderscoresCountChars(s);
      UnderscoresCountBytes(Text.Utf8(s), |s|);
      MoreBytesThanChars(s);
      assert LikeChars(s, Underscores(|s|)) && !LikeInner(Text.Utf8(s), Text.Utf8(Underscores(|s|)));
    }
  }

  /** Outside ASCII the two differ: one `_` does not match the single character U+00E9, two do. */
  lemma UnderscoreIsOneByte()
    ensures LikeChars("\U{E9}", "_") && !LikeInner(Text.Utf8("\U{E9}"), Text.Utf8("_"))
    ensures LikeInner(Text.Utf8("\U{E9}"), Text.Utf8("__"))
  {
    assert Text.Utf8("\U{E9}") == [0xC3, 0xA9];
    assert Text.Utf8("_") == ['_' as Byte] && Text.Utf8("__") == ['_' as Byte, '_' as Byte];
  }
}
