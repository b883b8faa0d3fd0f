/** What the evaluator of matrix expressions makes of every expression, whichever of its inverses
    exist.  An inverse that does not exist is a missing operand; what becomes of it depends on what
    follows in the text, so that outcomes are given for a term together with the signed terms that
    come after it. */
module MatrixOutcome {
  import opened Wrappers
  import opened MatrixExpr
  import opened MatrixText

  /** A term with the sign before it. */
  datatype Signed = Signed(minus: bool, term: Expr)

  /** The evaluator fails, or gets a value or a missing operand, perhaps after it has dropped a missing
      operand on the way; `rest` is what it has not read. */
  datatype Res = Fail | Got(acc: Option<Value>, dropped: bool, rest: seq<Signed>, ap: nat, g: nat)

  function Size(e: Expr): (n: nat)
    ensures n > 0
  {
    match e
    case Arg(_) => 1
    case Paren(x) => Size(x) + 1
    case Neg(x) => Size(x) + 1
    case Add(x, y) => Size(x) + Size(y) + 1
    case Sub(x, y) => Size(x) + Size(y) + 1
    case Mul(x, y) => Size(x) + Size(y) + 1
    case Transpose(x) => Size(x) + 1
    case Inverse(x) => Size(x) + 1
  }

  function RestSize(rest: seq<Signed>): nat { if rest == [] then 0 else Size(rest[0].term) + 1 + RestSize(rest[1..]) }

  // ----- a sum as a list of terms -----

  /** The first term, with the sign that may stand before it. */
  function Head(e: Expr): Signed {
    match e
    case Add(x, _) => Head(x)
    case Sub(x, _) => Head(x)
    case Neg(x) => Signed(true, x)
    case _ => Signed(false, e)
  }

  function Tail(e: Expr): seq<Signed> {
    match e
    case Add(x, y) => Tail(x) + [Signed(false, y)]
    case Sub(x, y) => Tail(x) + [Signed(true, y)]
    case _ => []
  }

  lemma {:induction false} RestSizeAppend(rest: seq<Signed>, s: Signed)
    ensures RestSize(rest + [s]) == RestSize(rest) + Size(s.term) + 1
  {
    if rest == [] {
      assert rest + [s] == [s];
    } else {
      assert (rest + [s])[1..] == rest[1..] + [s];
      RestSizeAppend(rest[1..], s);
    }
  }

  lemma {:induction false} PartsFit(e: Expr)
    ensures Size(Head(e).term) + RestSize(Tail(e)) + (if Head(e).minus then 1 else 0) <= Size(e)
  {
    match e
    case Add(x, y) =>
      PartsFit(x);
      RestSizeAppend(Tail(x), Signed(false, y));
    case Sub(x, y) =>
      PartsFit(x);
      RestSizeAppend(Tail(x), Signed(true, y));
    case _ =>
  }

  // ----- outcomes -----

  function OfPrimary(o: Ops, e: Expr, args: seq<Value>, ap: nat, g: nat): Res
    decreases Size(e), if IsSum(e) || e.Mul? then 5 else 0
  {
    match e
    case Arg(free) =>
      if ap < |args| then Got(Some(args[ap]), false, [], ap + 1, if free then g + 1 else g) else Fail
    case Paren(x) => OfWhole(o, x, args, ap, g)
    case Transpose(x) =>
      (match OfPrimary(o, x, args, ap, g)
       case Fail => Fail
       case Got(acc, dropped, _, ap', g') =>
         if acc.None? then Fail else Got(Some(o.transpose(acc.value)), dropped, [], ap', g' + 1))
    case Inverse(x) =>
      (match OfPrimary(o, x, args, ap, g)
       case Fail => Fail
       case Got(acc, dropped, _, ap', g') =>
         if acc.None? then Fail else Got(o.inverse(acc.value), dropped, [], ap', g' + 1))
    case _ => OfWhole(o, e, args, ap, g)
  }

  /** The left factor `a`, which may be missing and is then dropped, times what came after the star. */
  function Times(o: Ops, a: Res, b: Res): Res {
    if a.Fail? || b.Fail? then Fail
    else if a.acc.None? then b.(dropped := true)
    else if b.acc.None? then Fail
    else Got(Some(o.mul(a.acc.value, b.acc.value)), a.dropped || b.dropped, b.rest, b.ap, b.g + 1)
  }

  /** A term of a sum, read until its end.  If nothing came of it a minus sign is read as the sign of
      what follows. */
  function OfTerm(o: Ops, e: Expr, rest: seq<Signed>, args: seq<Value>, ap: nat, g: nat): (r: Res)
    ensures r.Got? ==> RestSize(r.rest) <= RestSize(rest)
    decreases Size(e) + RestSize(rest), 6
  {
    if e.Mul? then
      var a := OfPrimary(o, e.a, args, ap, g);
      if a.Fail? then Fail
      else
        var r := Times(o, a, OfTerm(o, e.b, rest, args, a.ap, a.g));
        if r.Fail? then Fail else Settled(o, r, args)
    else
      var a := OfPrimary(o, e, args, ap, g);
      if a.Fail? then Fail else Settled(o, a.(rest := rest), args)
  }

  function Settled(o: Ops, r: Res, args: seq<Value>): (r': Res)
    requires r.Got?
    ensures r'.Got? ==> RestSize(r'.rest) <= RestSize(r.rest)
    decreases RestSize(r.rest), 7
  {
    if r.acc.Some? || r.rest == [] then r
    else Negated(o, r, args)
  }

  /** A missing operand before a sign: a minus takes it for its own, a plus fails. */
  function Negated(o: Ops, r: Res, args: seq<Value>): (r': Res)
    requires r.Got? && r.acc.None? && r.rest != []
    ensures r'.Got? ==> r'.acc.Some? && RestSize(r'.rest) < RestSize(r.rest)
    decreases RestSize(r.rest), 6
  {
    if !r.rest[0].minus then Fail
    else
      var t := OfTerm(o, r.rest[0].term, r.rest[1..], args, r.ap, r.g);
      if t.Fail? || t.acc.None? then Fail
      else Got(Some(o.neg(t.acc.value)), true, t.rest, t.ap, t.g + 1)
  }

  function SignOp(o: Ops, minus: bool): (Value, Value) -> Value { if minus then o.sub else o.add }

  /** The signed terms that follow, one after the other. */
  function OfSigns(o: Ops, r: Res, args: seq<Value>): (r': Res)
    requires r.Got?
    ensures r'.Got? ==> r'.rest == []
    decreases RestSize(r.rest), 7
  {
    if r.rest == [] then r
    else if r.acc.None? then
      var n := Negated(o, r, args);
      if n.Fail? then Fail else OfSigns(o, n, args)
    else
      var t := OfTerm(o, r.rest[0].term, r.rest[1..], args, r.ap, r.g);
      if t.Fail? || t.acc.None? then Fail
      else
        OfSigns(o, Got(Some(SignOp(o, r.rest[0].minus)(r.acc.value, t.acc.value)), r.dropped || t.dropped, t.rest, t.ap, t.g + 1), args)
  }

  /** The first term of a sum. */
  function OfFirst(o: Ops, h: Signed, rest: seq<Signed>, args: seq<Value>, ap: nat, g: nat): (r: Res)
    ensures r.Got? ==> RestSize(r.rest) <= RestSize(rest)
    decreases Size(h.term) + RestSize(rest) + (if h.minus then 1 else 0), if h.minus then 3 else if IsSum(h.term) then 6 else 3
  {
    if h.minus then
      var t := OfTerm(o, h.term, rest, args, ap, g);
      if t.Fail? || t.acc.None? then Fail else Got(Some(o.neg(t.acc.value)), t.dropped, t.rest, t.ap, t.g + 1)
    else if h.term.Mul? then
      var a := OfPrimary(o, h.term.a, args, ap, g);
      if a.Fail? then Fail else Times(o, a, OfTerm(o, h.term.b, rest, args, a.ap, a.g))
    else
      var a := OfPrimary(o, h.term, args, ap, g);
      if a.Fail? then Fail else a.(rest := rest)
  }

  lemma HeadIsNoSum(e: Expr)
    ensures !Head(e).minus ==> !IsSum(Head(e).term)
  {
  }

  /** What comes of a whole expression. */
  function OfWhole(o: Ops, e: Expr, args: seq<Value>, ap: nat, g: nat): (r: Res)
    ensures r.Got? ==> r.rest == []
    decreases Size(e), 4
  {
    PartsFit(e);
    HeadIsNoSum(e);
    var r := OfFirst(o, Head(e), Tail(e), args, ap, g);
    if r.Fail? then Fail else OfSigns(o, r, args)
  }

  // ----- outcomes and values -----

  /** The outcome is the value if there is one; if not, the evaluator fails, or is left with a missing
      operand, or has dropped one. */
  predicate Right(r: Res, d: Option<Value>, rest: seq<Signed>, ap: nat, g: nat) {
    if d.Some? then r == Got(d, false, rest, ap, g) else Wrong(r)
  }

  predicate Wrong(r: Res) { r.Fail? || r.acc.None? || r.dropped }

  lemma ArgumentIsRight(o: Ops, e: Expr, args: seq<Value>, ap: nat, g: nat)
    requires e.Arg? && ap + Leaves(e) <= |args|
    ensures Right(OfPrimary(o, e, args, ap, g), Denote(o, e, args, ap), [], ap + Leaves(e), g + Temporaries(e))
  {
  }

  lemma OneOperand(o: Ops, e: Expr, args: seq<Value>, ap: nat)
    requires (e.Paren? || e.Transpose? || e.Inverse?) && ap + Leaves(e) <= |args|
    ensures Leaves(e) == Leaves(e.e) && Temporaries(e) == Temporaries(e.e) + (if e.Paren? then 0 else 1)
    ensures var d, r := Denote(o, e.e, args, ap), Denote(o, e, args, ap);
            && (d.None? ==> r.None?)
            && (d.Some? ==> r == if e.Paren? then d else if e.Transpose? then Some(o.transpose(d.value)) else o.inverse(d.value))
  {
  }

  lemma {:induction false} PrimaryIsRight(o: Ops, e: Expr, args: seq<Value>, ap: nat, g: nat)
    requires ap + Leaves(e) <= |args|
    ensures Right(OfPrimary(o, e, args, ap, g), Denote(o, e, args, ap), [], ap + Leaves(e), g + Temporaries(e))
    decreases Size(e), if IsSum(e) || e.Mul? then 5 else 0
  {
    hide OfWhole, Denote, Leaves, Temporaries;
    if e.Paren? || e.Transpose? || e.Inverse? { OneOperand(o, e, args, ap); }
    match e
    case Arg(_) => ArgumentIsRight(o, e, args, ap, g);
    case Paren(x) => WholeIsRight(o, x, args, ap, g);
    case Transpose(x) => PrimaryIsRight(o, x, args, ap, g);
    case Inverse(x) => PrimaryIsRight(o, x, args, ap, g);
    case _ => WholeIsRight(o, e, args, ap, g);
  }

  lemma SettledStaysWrong(o: Ops, r: Res, args: seq<Value>)
    requires r.Got? && Wrong(r)
    ensures Wrong(Settled(o, r, args))
  {
  }

  lemma TwoFactors(o: Ops, e: Expr, args: seq<Value>, ap: nat)
    requires e.Mul? && ap + Leaves(e) <= |args|
    ensures Leaves(e) == Leaves(e.a) + Leaves(e.b) && Temporaries(e) == Temporaries(e.a) + Temporaries(e.b) + 1
    ensures Size(e) == Size(e.a) + Size(e.b) + 1
    ensures Denote(o, e, args, ap) == Both(o.mul, Denote(o, e.a, args, ap), Denote(o, e.b, args, ap + Leaves(e.a)))
  {
  }

  lemma {:induction false} TermIsRight(o: Ops, e: Expr, rest: seq<Signed>, args: seq<Value>, ap: nat, g: nat)
    requires ap + Leaves(e) <= |args|
    ensures Right(OfTerm(o, e, rest, args, ap, g), Denote(o, e, args, ap), rest, ap + Leaves(e), g + Temporaries(e))
    decreases Size(e) + RestSize(rest), 6
  {
    hide Negated, OfPrimary, Denote, Leaves, Temporaries;
    if e.Mul? {
      ProductIsRight(o, e, rest, args, ap, g);
      var a := OfPrimary(o, e.a, args, ap, g);
      if a.Got? {
        var r := Times(o, a, OfTerm(o, e.b, rest, args, a.ap, a.g));
        if r.Got? && Wrong(r) { SettledStaysWrong(o, r, args); }
      }
    } else {
      PrimaryIsRight(o, e, args, ap, g);
      var a := OfPrimary(o, e, args, ap, g);
      if a.Got? && Wrong(a) { SettledStaysWrong(o, a.(rest := rest), args); }
    }
  }

  lemma {:induction false} ProductIsRight(o: Ops, e: Expr, rest: seq<Signed>, args: seq<Value>, ap: nat, g: nat)
    requires e.Mul? && ap + Leaves(e) <= |args|
    ensures var a, d := OfPrimary(o, e.a, args, ap, g), Denote(o, e, args, ap);
            && (a.Fail? ==> d.None?)
            && (a.Got? ==> Right(Times(o, a, OfTerm(o, e.b, rest, args, a.ap, a.g)), d, rest, ap + Leaves(e), g + Temporaries(e)))
    decreases Size(e) + RestSize(rest), 1
  {
    hide OfPrimary, OfTerm, Denote, Leaves, Temporaries, Size;
    TwoFactors(o, e, args, ap);
    PrimaryIsRight(o, e.a, args, ap, g);
    if Denote(o, e.a, args, ap).Some? {
      TermIsRight(o, e.b, rest, args, ap + Leaves(e.a), g + Temporaries(e.a));
    }
  }

  function RestLeaves(rest: seq<Signed>): nat { if rest == [] then 0 else Leaves(rest[0].term) + RestLeaves(rest[1..]) }

  function RestTemporaries(rest: seq<Signed>): nat { if rest == [] then 0 else Temporaries(rest[0].term) + 1 + RestTemporaries(rest[1..]) }

  /** The value of a sum, given that of its first terms. */
  function Fold(o: Ops, acc: Option<Value>, rest: seq<Signed>, args: seq<Value>, ap: nat): Option<Value>
    requires ap + RestLeaves(rest) <= |args|
    decreases |rest|
  {
    if rest == [] then acc
    else
      var t := rest[0].term;
      Fold(o, Both(SignOp(o, rest[0].minus), acc, Denote(o, t, args, ap)), rest[1..], args, ap + Leaves(t))
  }

  lemma FoldFirst(o: Ops, acc: Option<Value>, rest: seq<Signed>, args: seq<Value>, ap: nat)
    requires rest != [] && ap + RestLeaves(rest) <= |args|
    ensures var t := rest[0].term;
      && RestLeaves(rest) == Leaves(t) + RestLeaves(rest[1..]) && RestTemporaries(rest) == Temporaries(t) + 1 + RestTemporaries(rest[1..])
      && Fold(o, acc, rest, args, ap)
         == Fold(o, Both(SignOp(o, rest[0].minus), acc, Denote(o, t, args, ap)), rest[1..], args, ap + Leaves(t))
  {
  }

  lemma {:induction false} FoldNone(o: Ops, rest: seq<Signed>, args: seq<Value>, ap: nat)
    requires ap + RestLeaves(rest) <= |args|
    ensures Fold(o, None, rest, args, ap) == None
    decreases |rest|
  {
    if rest != [] { FoldNone(o, rest[1..], args, ap + Leaves(rest[0].term)); }
  }

  lemma {:induction false} FoldAppend(o: Ops, acc: Option<Value>, rest: seq<Signed>, s: Signed, args: seq<Value>, ap: nat)
    requires ap + RestLeaves(rest) + Leaves(s.term) <= |args|
    ensures RestLeaves(rest + [s]) == RestLeaves(rest) + Leaves(s.term)
    ensures RestTemporaries(rest + [s]) == RestTemporaries(rest) + Temporaries(s.term) + 1
    ensures Fold(o, acc, rest + [s], args, ap)
         == Both(SignOp(o, s.minus), Fold(o, acc, rest, args, ap), Denote(o, s.term, args, ap + RestLeaves(rest)))
    decreases |rest|
  {
    hide Denote, Leaves, Temporaries;
    if rest == [] {
      assert rest + [s] == [s] && [s][1..] == [];
    } else {
      assert (rest + [s])[1..] == rest[1..] + [s];
      var t := rest[0].term;
      FoldAppend(o, Both(SignOp(o, rest[0].minus), acc, Denote(o, t, args, ap)), rest[1..], s, args, ap + Leaves(t));
    }
  }

  /** The value of the first term with its sign. */
  function HeadValue(o: Ops, h: Signed, args: seq<Value>, ap: nat): Option<Value>
    requires ap + Leaves(h.term) <= |args|
  {
    var d := Denote(o, h.term, args, ap);
    if h.minus && d.Some? then Some(o.neg(d.value)) else d
  }

  lemma NoRest(o: Ops, acc: Option<Value>, args: seq<Value>, ap: nat)
    ensures RestLeaves([]) == 0 && RestTemporaries([]) == 0
    ensures ap <= |args| ==> Fold(o, acc, [], args, ap) == acc
  {
  }

  lemma LastTerm(o: Ops, e: Expr, args: seq<Value>, ap: nat)
    requires (e.Add? || e.Sub?) && ap + Leaves(e) <= |args|
    ensures Head(e) == Head(e.a) && Tail(e) == Tail(e.a) + [Signed(e.Sub?, e.b)]
    ensures Leaves(e) == Leaves(e.a) + Leaves(e.b) && Temporaries(e) == Temporaries(e.a) + Temporaries(e.b) + 1
    ensures Denote(o, e, args, ap) == Both(SignOp(o, e.Sub?), Denote(o, e.a, args, ap), Denote(o, e.b, args, ap + Leaves(e.a)))
  {
  }

  lemma OneTerm(o: Ops, e: Expr, args: seq<Value>, ap: nat)
    requires !e.Add? && !e.Sub? && ap + Leaves(e) <= |args|
    ensures var h := Head(e);
            && Tail(e) == [] && Leaves(e) == Leaves(h.term)
            && Temporaries(e) == Temporaries(h.term) + (if h.minus then 1 else 0)
            && Denote(o, e, args, ap) == HeadValue(o, h, args, ap)
  {
  }

  lemma {:induction false} DenoteIsFold(o: Ops, e: Expr, args: seq<Value>, ap: nat)
    requires ap + Leaves(e) <= |args|
    ensures var h := Head(e);
            && Leaves(e) == Leaves(h.term) + RestLeaves(Tail(e))
            && Temporaries(e) == Temporaries(h.term) + (if h.minus then 1 else 0) + RestTemporaries(Tail(e))
            && Denote(o, e, args, ap) == Fold(o, HeadValue(o, h, args, ap), Tail(e), args, ap + Leaves(h.term))
  {
    hide Fold, RestLeaves, RestTemporaries, HeadValue, Denote, Leaves, Temporaries, Head, Tail;
    var h := Head(e);
    if e.Add? || e.Sub? {
      LastTerm(o, e, args, ap);
      DenoteIsFold(o, e.a, args, ap);
      FoldAppend(o, HeadValue(o, h, args, ap), Tail(e.a), Signed(e.Sub?, e.b), args, ap + Leaves(h.term));
    } else {
      OneTerm(o, e, args, ap);
      NoRest(o, HeadValue(o, h, args, ap), args, ap + Leaves(h.term));
    }
  }

  lemma {:induction false} SignsStayWrong(o: Ops, r: Res, args: seq<Value>)
    requires r.Got? && Wrong(r)
    ensures Wrong(OfSigns(o, r, args))
    decreases RestSize(r.rest)
  {
    hide OfTerm, Negated;
    if r.rest != [] {
      if r.acc.None? {
        var n := Negated(o, r, args);
        if n.Got? {
          NegatedIsDropped(o, r, args);
          SignsStayWrong(o, n, args);
        }
      } else {
        var t := OfTerm(o, r.rest[0].term, r.rest[1..], args, r.ap, r.g);
        if t.Got? && t.acc.Some? {
          SignsStayWrong(o, Got(Some(SignOp(o, r.rest[0].minus)(r.acc.value, t.acc.value)), true, t.rest, t.ap, t.g + 1), args);
        }
      }
    }
  }

  lemma NegatedIsDropped(o: Ops, r: Res, args: seq<Value>)
    requires r.Got? && r.acc.None? && r.rest != []
    ensures var n := Negated(o, r, args); n.Got? ==> n.dropped
  {
  }

  lemma {:induction false} SignsAreRight(o: Ops, r: Res, args: seq<Value>)
    requires r.Got? && r.acc.Some? && !r.dropped && r.ap + RestLeaves(r.rest) <= |args|
    ensures Right(OfSigns(o, r, args), Fold(o, r.acc, r.rest, args, r.ap), [], r.ap + RestLeaves(r.rest), r.g + RestTemporaries(r.rest))
    decreases RestSize(r.rest), 7
  {
    hide OfTerm, Denote, Leaves, Temporaries, Fold, RestLeaves, RestTemporaries, Negated;
    if r.rest == [] {
      NoRest(o, r.acc, args, r.ap);
    } else {
      var s, rest := r.rest[0], r.rest[1..];
      FoldFirst(o, r.acc, r.rest, args, r.ap);
      TermIsRight(o, s.term, rest, args, r.ap, r.g);
      var t := OfTerm(o, s.term, rest, args, r.ap, r.g);
      var d := Denote(o, s.term, args, r.ap);
      if d.None? { FoldNone(o, rest, args, r.ap + Leaves(s.term)); }
      if t.Got? && t.acc.Some? {
        var next := Got(Some(SignOp(o, s.minus)(r.acc.value, t.acc.value)), r.dropped || t.dropped, t.rest, t.ap, t.g + 1);
        if d.Some? { SignsAreRight(o, next, args); } else { SignsStayWrong(o, next, args); }
      }
    }
  }

  lemma {:induction false} FirstIsRight(o: Ops, h: Signed, rest: seq<Signed>, args: seq<Value>, ap: nat, g: nat)
    requires ap + Leaves(h.term) <= |args|
    ensures Right(OfFirst(o, h, rest, args, ap, g), HeadValue(o, h, args, ap), rest, ap + Leaves(h.term),
                  g + Temporaries(h.term) + if h.minus then 1 else 0)
    decreases Size(h.term) + RestSize(rest) + (if h.minus then 1 else 0), if h.minus then 3 else if IsSum(h.term) then 6 else 3
  {
    hide OfTerm, OfPrimary, Denote, Leaves, Temporaries;
    if h.minus {
      TermIsRight(o, h.term, rest, args, ap, g);
    } else if h.term.Mul? {
      hide OfFirst;
      FactorsAreRight(o, h.term, rest, args, ap, g);
    } else {
      PrimaryIsRight(o, h.term, args, ap, g);
    }
  }

  lemma {:induction false} FactorsAreRight(o: Ops, e: Expr, rest: seq<Signed>, args: seq<Value>, ap: nat, g: nat)
    requires e.Mul? && ap + Leaves(e) <= |args|
    ensures Right(OfFirst(o, Signed(false, e), rest, args, ap, g), Denote(o, e, args, ap), rest, ap + Leaves(e), g + Temporaries(e))
    decreases Size(e) + RestSize(rest), 2
  {
    hide OfTerm, OfPrimary, Denote, Leaves, Temporaries;
    ProductIsRight(o, e, rest, args, ap, g);
  }

  lemma {:induction false} WholeIsRight(o: Ops, e: Expr, args: seq<Value>, ap: nat, g: nat)
    requires ap + Leaves(e) <= |args|
    ensures Right(OfWhole(o, e, args, ap, g), Denote(o, e, args, ap), [], ap + Leaves(e), g + Temporaries(e))
    decreases Size(e), 4
  {
    hide OfFirst, OfSigns, Denote, Leaves, Temporaries, HeadValue, Fold;
    PartsFit(e);
    HeadIsNoSum(e);
    DenoteIsFold(o, e, args, ap);
    FirstIsRight(o, Head(e), Tail(e), args, ap, g);
    var r := OfFirst(o, Head(e), Tail(e), args, ap, g);
    var d := HeadValue(o, Head(e), args, ap);
    if d.Some? {
      SignsAreRight(o, r, args);
    } else {
      FoldNone(o, Tail(e), args, ap + Leaves(Head(e).term));
      if r.Got? { SignsStayWrong(o, r, args); }
    }
  }

  // ----- reading the text -----

  function TailText(rest: seq<Signed>): string {
    if rest == [] then "" else (if rest[0].minus then "-" else "+") + (Product(rest[0].term) + TailText(rest[1..]))
  }

  function HeadText(h: Signed): string { if h.minus then "-" + Product(h.term) else Product(h.term) }

  lemma {:induction false} TailTextAppend(rest: seq<Signed>, s: Signed)
    ensures TailText(rest + [s]) == TailText(rest) + ((if s.minus then "-" else "+") + Product(s.term))
  {
    hide Product;
    if rest == [] {
      assert rest + [s] == [s] && [s][1..] == [];
      assert TailText([]) == "";
    } else {
      assert (rest + [s])[1..] == rest[1..] + [s];
      TailTextAppend(rest[1..], s);
    }
  }

  lemma {:induction false} SumText(e: Expr)
    ensures Sum(e) == HeadText(Head(e)) + TailText(Tail(e))
  {
    hide Product, TailText, HeadText;
    match e
    case Add(x, y) =>
      SumText(x);
      TailTextAppend(Tail(x), Signed(false, y));
    case Sub(x, y) =>
      SumText(x);
      TailTextAppend(Tail(x), Signed(true, y));
    case _ =>
      NoTail();
      HeadOnly(e);
  }

  lemma NoTail()
    ensures TailText([]) == ""
  {
  }

  lemma HeadOnly(e: Expr)
    requires !e.Add? && !e.Sub?
    ensures Sum(e) == HeadText(Head(e)) && Tail(e) == []
  {
    hide Product;
  }

  /** Nothing more follows: the text ends or a parenthesis closes. */
  predicate Closed(expr: string, q: nat) { q <= |expr| && (q < |expr| ==> expr[q] == ')') }

  /** Where the text of the signed terms starts that ends at `q`. */
  function StartOf(q: nat, rest: seq<Signed>): nat { if |TailText(rest)| <= q then q - |TailText(rest)| else 0 }

  predicate Ahead(expr: string, q: nat, rest: seq<Signed>) {
    |TailText(rest)| <= q && At(expr, q - |TailText(rest)|, TailText(rest)) && Closed(expr, q)
  }

  /** The evaluator has come back as the outcome says, before the terms it has not read. */
  predicate ComesBack(out: Out, r: Res, expr: string, q: nat) {
    if r.Fail? then out == Abort else Ahead(expr, q, r.rest) && out == Out(StartOf(q, r.rest), r.acc, r.ap, r.g)
  }

  /** The evaluator goes on as the outcome says. */
  predicate GoesOn(o: Ops, out: Out, r: Res, expr: string, args: seq<Value>, q: nat, one: bool) {
    if r.Fail? then out == Abort
    else Ahead(expr, q, r.rest) && StartOf(q, r.rest) <= |expr| && out == Recurse(o, expr, args, StartOf(q, r.rest), r.acc, r.ap, r.g, one)
  }

  lemma AheadEnds(expr: string, q: nat, rest: seq<Signed>)
    requires Ahead(expr, q, rest)
    ensures var p := StartOf(q, rest);
            && p <= q <= |expr| && Ends(expr, p) && NoPostfix(expr, p)
            && (rest == [] ==> p == q)
            && (rest != [] ==> p < |expr| && expr[p] == if rest[0].minus then '-' else '+')
  {
    hide Product;
    if rest != [] {
      var p := q - |TailText(rest)|;
      assert expr[p] == expr[p..p + |TailText(rest)|][0] == TailText(rest)[0];
    }
  }

  lemma AheadNext(expr: string, q: nat, rest: seq<Signed>)
    requires Ahead(expr, q, rest) && rest != []
    ensures var p, t := StartOf(q, rest) + 1, rest[0].term;
            && At(expr, p, Product(t) + TailText(rest[1..])) && p + |Product(t)| + |TailText(rest[1..])| == q
  {
    hide Product, At;
    var p, t := q - |TailText(rest)|, rest[0].term;
    AtBoth(expr, p, if rest[0].minus then "-" else "+", Product(t) + TailText(rest[1..]));
  }

  lemma AtEndOf(expr: string, pos: nat, s: string, rest: seq<Signed>, q: nat)
    requires At(expr, pos, s + TailText(rest)) && q == pos + |s| + |TailText(rest)| && Closed(expr, q)
    ensures At(expr, pos, s) && Ahead(expr, q, rest) && StartOf(q, rest) == pos + |s| <= |expr|
  {
    AtBoth(expr, pos, s, TailText(rest));
  }

  /** After an operand that may be missing. */
  lemma OperandDone(o: Ops, expr: string, args: seq<Value>, p: nat, acc: Option<Value>, v: Option<Value>, ap: nat, g: nat, one: bool)
    requires NoPostfix(expr, p)
    ensures AfterOperand(o, expr, args, p, acc, v, ap, g, one)
         == if acc.None? then Recurse(o, expr, args, p, v, ap, g, one)
            else if v.None? then Abort
            else Recurse(o, expr, args, p, Some(o.mul(acc.value, v.value)), ap, g + 1, one)
  {
    hide Recurse;
  }

  lemma StarRead(o: Ops, expr: string, args: seq<Value>, p: nat, a: Res, b: Res, q: nat, one: bool)
    requires a.Got? && p < |expr| && expr[p] == '*' && ComesBack(Recurse(o, expr, args, p + 1, None, a.ap, a.g, true), b, expr, q)
    ensures GoesOn(o, Recurse(o, expr, args, p, a.acc, a.ap, a.g, one), Times(o, a, b), expr, args, q, one)
  {
    hide AfterOperand, AfterTerm, AfterMinus, Gobble, Ahead, TailText;
    if b.Got? {
      AheadEnds(expr, q, b.rest);
      OperandDone(o, expr, args, StartOf(q, b.rest), a.acc, b.acc, b.ap, b.g, one);
    }
  }

  lemma PlusFails(o: Ops, expr: string, args: seq<Value>, p: nat, ap: nat, g: nat, one: bool)
    requires p < |expr| && expr[p] == '+'
    ensures Recurse(o, expr, args, p, None, ap, g, one) == Abort
  {
    hide AfterOperand, AfterTerm, AfterMinus, Gobble;
  }

  lemma MinusRead(o: Ops, expr: string, args: seq<Value>, p: nat, ap: nat, g: nat, one: bool, t: Res, q: nat)
    requires p < |expr| && expr[p] == '-' && ComesBack(Recurse(o, expr, args, p + 1, None, ap, g, true), t, expr, q)
    ensures GoesOn(o, Recurse(o, expr, args, p, None, ap, g, one),
                   if t.Fail? || t.acc.None? then Fail else Got(Some(o.neg(t.acc.value)), true, t.rest, t.ap, t.g + 1), expr, args, q, one)
  {
    hide AfterOperand, AfterTerm, Ahead, TailText;
    if t.Got? {
      AheadEnds(expr, q, t.rest);
      assert Gobble(o, expr, StartOf(q, t.rest), t.acc, t.ap, t.g) == Out(StartOf(q, t.rest), t.acc, t.ap, t.g);
    }
  }

  lemma SignRead(o: Ops, expr: string, args: seq<Value>, p: nat, acc: Value, ap: nat, g: nat, t: Res, q: nat)
    requires p < |expr| && (expr[p] == '-' || expr[p] == '+') && ComesBack(Recurse(o, expr, args, p + 1, None, ap, g, true), t, expr, q)
    ensures GoesOn(o, Recurse(o, expr, args, p, Some(acc), ap, g, false),
                   if t.Fail? || t.acc.None? then Fail
                   else Got(Some(SignOp(o, expr[p] == '-')(acc, t.acc.value)), t.dropped, t.rest, t.ap, t.g + 1), expr, args, q, false)
  {
    hide AfterOperand, AfterMinus, Ahead, TailText;
    if t.Got? {
      AheadEnds(expr, q, t.rest);
      assert Gobble(o, expr, StartOf(q, t.rest), t.acc, t.ap, t.g) == Out(StartOf(q, t.rest), t.acc, t.ap, t.g);
    }
  }

  lemma {:induction false} NegatedRead(o: Ops, r: Res, expr: string, args: seq<Value>, q: nat, one: bool)
    requires r.Got? && r.acc.None? && r.rest != [] && Ahead(expr, q, r.rest) && StartOf(q, r.rest) <= |expr|
    ensures GoesOn(o, Recurse(o, expr, args, StartOf(q, r.rest), None, r.ap, r.g, one), Negated(o, r, args), expr, args, q, one)
    decreases RestSize(r.rest), 6
  {
    hide Recurse, OfTerm, Ahead, TailText, GoesOn, ComesBack;
    AheadEnds(expr, q, r.rest);
    var p := StartOf(q, r.rest);
    if !r.rest[0].minus {
      PlusFails(o, expr, args, p, r.ap, r.g, one);
      FailGoesOn(o, expr, args, q, one);
    } else {
      AheadNext(expr, q, r.rest);
      ClosedOf(expr, q, r.rest);
      TermRead(o, r.rest[0].term, r.rest[1..], expr, args, p + 1, r.ap, r.g, q);
      MinusRead(o, expr, args, p, r.ap, r.g, one, OfTerm(o, r.rest[0].term, r.rest[1..], args, r.ap, r.g), q);
    }
  }

  lemma FailGoesOn(o: Ops, expr: string, args: seq<Value>, q: nat, one: bool)
    ensures GoesOn(o, Abort, Fail, expr, args, q, one)
  {
  }

  lemma ClosedOf(expr: string, q: nat, rest: seq<Signed>)
    requires Ahead(expr, q, rest)
    ensures Closed(expr, q)
  {
  }

  /** Where a term has been read the evaluator stops, having a value, or takes the next sign. */
  lemma {:induction false} SettledRead(o: Ops, r: Res, expr: string, args: seq<Value>, q: nat)
    requires r.Got? && Ahead(expr, q, r.rest) && StartOf(q, r.rest) <= |expr|
    ensures ComesBack(Recurse(o, expr, args, StartOf(q, r.rest), r.acc, r.ap, r.g, true), Settled(o, r, args), expr, q)
    decreases RestSize(r.rest), 7
  {
    hide Recurse, Negated, Ahead, TailText;
    AheadEnds(expr, q, r.rest);
    var p := StartOf(q, r.rest);
    if r.acc.Some? {
      StopsAtEnd(o, expr, args, p, r.acc.value, r.ap, r.g);
    } else if r.rest == [] {
      ClosedOf(expr, q, r.rest);
      MissingAtEnd(o, expr, args, q, r.ap, r.g);
    } else {
      NegatedRead(o, r, expr, args, q, true);
      var n := Negated(o, r, args);
      if n.Got? {
        AheadEnds(expr, q, n.rest);
        StopsAtEnd(o, expr, args, StartOf(q, n.rest), n.acc.value, n.ap, n.g);
      }
    }
  }

  lemma MissingAtEnd(o: Ops, expr: string, args: seq<Value>, q: nat, ap: nat, g: nat)
    requires Closed(expr, q)
    ensures Recurse(o, expr, args, q, None, ap, g, true) == Out(q, None, ap, g)
  {
    hide AfterOperand, AfterTerm, AfterMinus, Gobble;
  }

  lemma {:induction false} PrimaryRead(o: Ops, e: Expr, expr: string, args: seq<Value>, pos: nat, ap: nat, g: nat, one: bool)
    requires At(expr, pos, MatrixText.Primary(e))
    ensures pos + |MatrixText.Primary(e)| <= |expr|
    ensures var r := OfPrimary(o, e, args, ap, g);
            Recurse(o, expr, args, pos, None, ap, g, one)
            == if r.Fail? then Abort else AfterOperand(o, expr, args, pos + |MatrixText.Primary(e)|, None, r.acc, r.ap, r.g, one)
    decreases Size(e), if IsSum(e) || e.Mul? then 5 else 0
  {
    hide Recurse, AfterOperand, Gobble, Sum, Product, OfWhole;
    match e
    case Arg(free) =>
      assert expr[pos] == expr[pos..pos + 1][0];
      ArgumentRead(o, expr, args, pos, ap, g, one);
    case Paren(x) =>
      ParenthesisRead(o, x, expr, args, pos, ap, g, one);
    case Transpose(x) =>
      TransposeRead(o, x, expr, args, pos, ap, g, one);
    case Inverse(x) =>
      InverseRead(o, x, expr, args, pos, ap, g, one);
    case _ =>
      ParenthesisRead(o, e, expr, args, pos, ap, g, one);
  }

  lemma ArgumentRead(o: Ops, expr: string, args: seq<Value>, pos: nat, ap: nat, g: nat, one: bool)
    requires pos < |expr| && IsArg(expr[pos])
    ensures Recurse(o, expr, args, pos, None, ap, g, one)
         == if ap < |args| then AfterOperand(o, expr, args, pos + 1, None, Some(args[ap]), ap + 1, if expr[pos] == 'F' then g + 1 else g, one) else Abort
  {
    hide AfterOperand, AfterTerm, AfterMinus, Gobble;
  }

  lemma PostfixOnMissing(o: Ops, expr: string, args: seq<Value>, q: nat, ap: nat, g: nat, one: bool)
    requires q < |expr| && (expr[q] == '\'' || expr[q] == '^')
    ensures AfterOperand(o, expr, args, q, None, None, ap, g, one) == Abort
  {
    hide Recurse;
  }

  lemma {:induction false} TransposeRead(o: Ops, x: Expr, expr: string, args: seq<Value>, pos: nat, ap: nat, g: nat, one: bool)
    requires At(expr, pos, MatrixText.Primary(x) + "'")
    ensures pos + |MatrixText.Primary(x)| + 1 <= |expr|
    ensures var r := OfPrimary(o, Transpose(x), args, ap, g);
            Recurse(o, expr, args, pos, None, ap, g, one)
            == if r.Fail? then Abort else AfterOperand(o, expr, args, pos + |MatrixText.Primary(x)| + 1, None, r.acc, r.ap, r.g, one)
    decreases Size(x), 9
  {
    hide Recurse, AfterOperand, MatrixText.Primary;
    var q := pos + |MatrixText.Primary(x)|;
    AtBoth(expr, pos, MatrixText.Primary(x), "'");
    assert expr[q] == expr[q..q + 1][0] == '\'';
    PrimaryRead(o, x, expr, args, pos, ap, g, one);
    var r := OfPrimary(o, x, args, ap, g);
    if r.Got? && r.acc.Some? {
      AtTranspose(o, expr, args, q, r.acc.value, r.ap, r.g, one);
    } else if r.Got? {
      PostfixOnMissing(o, expr, args, q, r.ap, r.g, one);
    }
  }

  lemma {:induction false} InverseRead(o: Ops, x: Expr, expr: string, args: seq<Value>, pos: nat, ap: nat, g: nat, one: bool)
    requires At(expr, pos, MatrixText.Primary(x) + "^-1")
    ensures pos + |MatrixText.Primary(x)| + 3 <= |expr|
    ensures var r := OfPrimary(o, Inverse(x), args, ap, g);
            Recurse(o, expr, args, pos, None, ap, g, one)
            == if r.Fail? then Abort else AfterOperand(o, expr, args, pos + |MatrixText.Primary(x)| + 3, None, r.acc, r.ap, r.g, one)
    decreases Size(x), 9
  {
    hide Recurse, AfterOperand, MatrixText.Primary;
    var q := pos + |MatrixText.Primary(x)|;
    AtBoth(expr, pos, MatrixText.Primary(x), "^-1");
    assert expr[q] == expr[q..q + 3][0] && expr[q + 1] == expr[q..q + 3][1] && expr[q + 2] == expr[q..q + 3][2];
    PrimaryRead(o, x, expr, args, pos, ap, g, one);
    var r := OfPrimary(o, x, args, ap, g);
    if r.Got? && r.acc.Some? {
      AtInverse(o, expr, args, q, r.acc.value, r.ap, r.g, one);
    } else if r.Got? {
      PostfixOnMissing(o, expr, args, q, r.ap, r.g, one);
    }
  }

  lemma ClosingRead(o: Ops, expr: string, args: seq<Value>, pos: nat, ap: nat, g: nat, one: bool, p: nat, r: Res)
    requires pos < p < |expr| && expr[pos] == '(' && expr[p] == ')'
    requires Recurse(o, expr, args, pos + 1, None, ap, g, false)
          == if r.Fail? then Abort else Recurse(o, expr, args, p, r.acc, r.ap, r.g, false)
    ensures Recurse(o, expr, args, pos, None, ap, g, one) == if r.Fail? then Abort else AfterOperand(o, expr, args, p + 1, None, r.acc, r.ap, r.g, one)
  {
    hide AfterOperand, AfterTerm, AfterMinus, Gobble;
    assert r.Got? ==> Recurse(o, expr, args, p, r.acc, r.ap, r.g, false) == Out(p + 1, r.acc, r.ap, r.g);
  }

  lemma {:induction false} ParenthesisRead(o: Ops, e: Expr, expr: string, args: seq<Value>, pos: nat, ap: nat, g: nat, one: bool)
    requires At(expr, pos, "(" + Sum(e) + ")")
    ensures pos + |Sum(e)| + 2 <= |expr|
    ensures var r := OfWhole(o, e, args, ap, g);
            Recurse(o, expr, args, pos, None, ap, g, one)
            == if r.Fail? then Abort else AfterOperand(o, expr, args, pos + |Sum(e)| + 2, None, r.acc, r.ap, r.g, one)
    decreases Size(e), 4
  {
    hide Sum, Product, Recurse, AfterOperand, OfWhole;
    var q := pos + 1 + |Sum(e)|;
    AtBoth(expr, pos, "(" + Sum(e), ")");
    AtBoth(expr, pos, "(", Sum(e));
    assert expr[pos] == expr[pos..pos + 1][0] == '(';
    assert expr[q] == expr[q..q + 1][0] == ')';
    WholeRead(o, e, expr, args, pos + 1, ap, g);
    ClosingRead(o, expr, args, pos, ap, g, one, q, OfWhole(o, e, args, ap, g));
  }

  lemma {:induction false} TermRead(o: Ops, e: Expr, rest: seq<Signed>, expr: string, args: seq<Value>, pos: nat, ap: nat, g: nat, q: nat)
    requires At(expr, pos, Product(e) + TailText(rest)) && q == pos + |Product(e)| + |TailText(rest)| && Closed(expr, q)
    ensures ComesBack(Recurse(o, expr, args, pos, None, ap, g, true), OfTerm(o, e, rest, args, ap, g), expr, q)
    decreases Size(e) + RestSize(rest), 7
  {
    hide Recurse, AfterOperand, OfPrimary, Settled, TailText, ComesBack, Times, Ahead;
    FirstReadAs(o, e, rest, expr, args, pos, ap, g, q, true);
    var r := OfFirst(o, Signed(false, e), rest, args, ap, g);
    if r.Got? {
      hide GoesOn;
      GoneOn(o, Recurse(o, expr, args, pos, None, ap, g, true), r, expr, args, q, true);
      SettledRead(o, r, expr, args, q);
    } else {
      FailComesBack(expr, q);
    }
  }

  lemma FailComesBack(expr: string, q: nat)
    ensures ComesBack(Abort, Fail, expr, q)
  {
  }

  lemma GoneOn(o: Ops, out: Out, r: Res, expr: string, args: seq<Value>, q: nat, one: bool)
    requires r.Got? && GoesOn(o, out, r, expr, args, q, one)
    ensures Ahead(expr, q, r.rest) && StartOf(q, r.rest) <= |expr| && out == Recurse(o, expr, args, StartOf(q, r.rest), r.acc, r.ap, r.g, one)
  {
  }

  /** A product without a sign before it. */
  lemma {:induction false} FirstReadAs(o: Ops, e: Expr, rest: seq<Signed>, expr: string, args: seq<Value>, pos: nat, ap: nat, g: nat, q: nat, one: bool)
    requires At(expr, pos, Product(e) + TailText(rest)) && q == pos + |Product(e)| + |TailText(rest)| && Closed(expr, q)
    ensures GoesOn(o, Recurse(o, expr, args, pos, None, ap, g, one), OfFirst(o, Signed(false, e), rest, args, ap, g), expr, args, q, one)
    decreases Size(e) + RestSize(rest), if IsSum(e) then 6 else 1
  {
    hide Recurse, AfterOperand, OfPrimary, OfTerm, TailText, MatrixText.Primary, Times, Ahead;
    AtEndOf(expr, pos, Product(e), rest, q);
    if e.Mul? {
      FactorsRead(o, e.a, e.b, rest, expr, args, pos, ap, g, q, one);
    } else {
      PrimaryRead(o, e, expr, args, pos, ap, g, one);
      var a := OfPrimary(o, e, args, ap, g);
      if a.Got? {
        AheadEnds(expr, q, rest);
        OperandDone(o, expr, args, StartOf(q, rest), None, a.acc, a.ap, a.g, one);
      }
    }
  }

  lemma {:induction false} FactorsRead(o: Ops, x: Expr, y: Expr, rest: seq<Signed>, expr: string, args: seq<Value>, pos: nat, ap: nat, g: nat, q: nat, one: bool)
    requires At(expr, pos, Product(Mul(x, y)) + TailText(rest)) && q == pos + |Product(Mul(x, y))| + |TailText(rest)| && Closed(expr, q)
    ensures GoesOn(o, Recurse(o, expr, args, pos, None, ap, g, one), OfFirst(o, Signed(false, Mul(x, y)), rest, args, ap, g), expr, args, q, one)
    decreases Size(x) + Size(y) + RestSize(rest), 7
  {
    hide Recurse, AfterOperand, OfPrimary, OfTerm, TailText, MatrixText.Primary, Times, Ahead, GoesOn, ComesBack;
    var p: nat := pos + |MatrixText.Primary(x)|;
    MulText(x, y);
    AtEndOf(expr, pos, Product(Mul(x, y)), rest, q);
    StarText(expr, pos, x, y, rest);
    PrimaryRead(o, x, expr, args, pos, ap, g, one);
    var a := OfPrimary(o, x, args, ap, g);
    if a.Got? {
      OperandDone(o, expr, args, p, None, a.acc, a.ap, a.g, one);
      TermRead(o, y, rest, expr, args, p + 1, a.ap, a.g, q);
      StarRead(o, expr, args, p, a, OfTerm(o, y, rest, args, a.ap, a.g), q, one);
    } else {
      FailGoesOn(o, expr, args, q, one);
    }
  }

  lemma MulText(x: Expr, y: Expr)
    ensures Product(Mul(x, y)) == MatrixText.Primary(x) + ("*" + Product(y))
  {
  }

  lemma StarText(expr: string, pos: nat, x: Expr, y: Expr, rest: seq<Signed>)
    requires At(expr, pos, Product(Mul(x, y)) + TailText(rest))
    ensures var p := pos + |MatrixText.Primary(x)|;
            && At(expr, pos, MatrixText.Primary(x)) && p < |expr| && expr[p] == '*' && NoPostfix(expr, p)
            && At(expr, p + 1, Product(y) + TailText(rest))
  {
    hide TailText, MatrixText.Primary;
    var p: nat := pos + |MatrixText.Primary(x)|;
    MulText(x, y);
    var t := Product(y) + TailText(rest);
    assert Product(Mul(x, y)) + TailText(rest) == MatrixText.Primary(x) + ("*" + t);
    AtBoth(expr, pos, MatrixText.Primary(x), "*" + t);
    AtBoth(expr, p, "*", t);
    assert expr[p] == expr[p..p + 1][0] == '*';
  }

  lemma {:induction false} FirstRead(o: Ops, h: Signed, rest: seq<Signed>, expr: string, args: seq<Value>, pos: nat, ap: nat, g: nat, q: nat)
    requires At(expr, pos, HeadText(h) + TailText(rest)) && q == pos + |HeadText(h)| + |TailText(rest)| && Closed(expr, q)
    ensures GoesOn(o, Recurse(o, expr, args, pos, None, ap, g, false), OfFirst(o, h, rest, args, ap, g), expr, args, q, false)
    decreases Size(h.term) + RestSize(rest) + (if h.minus then 1 else 0), if h.minus then 2 else if IsSum(h.term) then 8 else 2
  {
    hide Recurse, AfterOperand, OfTerm, TailText, Product, Ahead, ComesBack;
    if h.minus {
      var t := Product(h.term) + TailText(rest);
      assert HeadText(h) + TailText(rest) == "-" + t;
      AtBoth(expr, pos, "-", t);
      assert expr[pos] == expr[pos..pos + 1][0] == '-';
      TermRead(o, h.term, rest, expr, args, pos + 1, ap, g, q);
      MinusRead(o, expr, args, pos, ap, g, false, OfTerm(o, h.term, rest, args, ap, g), q);
    } else {
      FirstReadAs(o, h.term, rest, expr, args, pos, ap, g, q, false);
    }
  }

  lemma {:induction false} SignsRead(o: Ops, r: Res, expr: string, args: seq<Value>, q: nat)
    requires r.Got? && Ahead(expr, q, r.rest) && StartOf(q, r.rest) <= |expr|
    ensures GoesOn(o, Recurse(o, expr, args, StartOf(q, r.rest), r.acc, r.ap, r.g, false), OfSigns(o, r, args), expr, args, q, false)
    decreases RestSize(r.rest), 7
  {
    hide Recurse, OfTerm, Negated, TailText, Ahead, ComesBack;
    if r.rest != [] {
      AheadEnds(expr, q, r.rest);
      if r.acc.None? {
        NegatedRead(o, r, expr, args, q, false);
        var n := Negated(o, r, args);
        if n.Got? { SignsRead(o, n, expr, args, q); }
      } else {
        var p, s := StartOf(q, r.rest), r.rest[0];
        AheadNext(expr, q, r.rest);
        ClosedOf(expr, q, r.rest);
        TermRead(o, s.term, r.rest[1..], expr, args, p + 1, r.ap, r.g, q);
        var t := OfTerm(o, s.term, r.rest[1..], args, r.ap, r.g);
        SignRead(o, expr, args, p, r.acc.value, r.ap, r.g, t, q);
        if t.Got? && t.acc.Some? {
          SignsRead(o, Got(Some(SignOp(o, s.minus)(r.acc.value, t.acc.value)), r.dropped || t.dropped, t.rest, t.ap, t.g + 1), expr, args, q);
        }
      }
    }
  }

  lemma {:induction false} WholeRead(o: Ops, e: Expr, expr: string, args: seq<Value>, pos: nat, ap: nat, g: nat)
    requires At(expr, pos, Sum(e)) && Closed(expr, pos + |Sum(e)|)
    ensures var r, q := OfWhole(o, e, args, ap, g), pos + |Sum(e)|;
            Recurse(o, expr, args, pos, None, ap, g, false) == if r.Fail? then Abort else Recurse(o, expr, args, q, r.acc, r.ap, r.g, false)
    decreases Size(e), 3
  {
    hide Recurse, OfFirst, OfSigns, Sum, HeadText, Ahead;
    var q := pos + |Sum(e)|;
    SumText(e);
    PartsFit(e);
    HeadIsNoSum(e);
    FirstRead(o, Head(e), Tail(e), expr, args, pos, ap, g, q);
    var r := OfFirst(o, Head(e), Tail(e), args, ap, g);
    if r.Got? {
      SignsRead(o, r, expr, args, q);
      NoTail();
    }
  }

  // ----- whole texts -----

  /** For every expression and whichever inverses exist, the evaluator applied to its text comes back
      as the outcome says. */
  lemma TextGivesOutcome(o: Ops, e: Expr, args: seq<Value>)
    ensures var r := OfWhole(o, e, args, 0, 0);
            Recurse(o, Sum(e), args, 0, None, 0, 0, false) == if r.Fail? then Abort else Out(|Sum(e)|, r.acc, r.ap, r.g)
  {
    assert Sum(e)[0..0 + |Sum(e)|] == Sum(e);
    WholeRead(o, e, Sum(e), args, 0, 0, 0);
    var r := OfWhole(o, e, args, 0, 0);
    if r.Got? { AtTheEnd(o, Sum(e), args, r.acc, r.ap, r.g, false); }
  }

  /** The evaluator returns the value of the expression if there is one.  If there is none, because an
      inverse does not exist, it returns a value all the same if and only if it dropped the missing
      operand: as the left factor of a product, or before a minus sign, which then takes the next term
      alone. Everywhere else it fails or returns nothing. */
  lemma WrongValueExactly(o: Ops, e: Expr, args: seq<Value>)
    requires Leaves(e) <= |args|
    ensures var out, r, d := Recurse(o, Sum(e), args, 0, None, 0, 0, false), OfWhole(o, e, args, 0, 0), Denote(o, e, args, 0);
            && (d.Some? ==> out.Out? && out.acc == d && r.Got? && !r.dropped)
            && (out.Out? && out.acc.Some? ==> r.Got? && r.acc == out.acc)
            && (out.Out? && out.acc.Some? && d.None? <==> r.Got? && r.acc.Some? && r.dropped)
  {
    hide Recurse, OfWhole, Denote, Sum;
    TextGivesOutcome(o, e, args);
    WholeIsRight(o, e, args, 0, 0);
  }

  /** Two ways to drop it.  The text `M^-1-M` gives the negative of the second matrix; in `M+M^-1-M` the
      minus is read as the sign of the term that is to be added. */
  lemma DroppedBeforeMinus(o: Ops, x: Value, y: Value, z: Value)
    requires o.inverse(x).None?
    ensures Recurse(o, "M^-1-M", [x, y], 0, None, 0, 0, false) == Out(6, Some(o.neg(y)), 2, 2)
    ensures Recurse(o, "M+M^-1-M", [y, x, z], 0, None, 0, 0, false) == Out(8, Some(o.add(y, o.neg(z))), 3, 3)
  {
    hide Recurse, OfWhole;
    var e := Sub(Inverse(Arg(false)), Arg(false));
    assert Sum(e) == "M^-1-M" by { Inverted(); }
    TextGivesOutcome(o, e, [x, y]);
    var e' := Sub(Add(Arg(false), Inverse(Arg(false))), Arg(false));
    assert Sum(e') == "M+M^-1-M" by { Inverted(); }
    TextGivesOutcome(o, e', [y, x, z]);
    FirstOutcome(o, x, y);
    SecondOutcome(o, x, y, z);
  }

  lemma Inverted()
    ensures Product(Inverse(Arg(false))) == "M^-1" && Product(Arg(false)) == "M" && Sum(Inverse(Arg(false))) == "M^-1" && Sum(Arg(false)) == "M"
  {
    assert MatrixText.Primary(Arg(false)) == "M";
  }

  lemma InverseOutcome(o: Ops, args: seq<Value>, ap: nat, g: nat)
    requires ap < |args| && o.inverse(args[ap]).None?
    ensures OfPrimary(o, Inverse(Arg(false)), args, ap, g) == Got(None, false, [], ap + 1, g + 1)
  {
    assert OfPrimary(o, Arg(false), args, ap, g) == Got(Some(args[ap]), false, [], ap + 1, g);
  }

  lemma ArgOutcome(o: Ops, rest: seq<Signed>, args: seq<Value>, ap: nat, g: nat)
    requires ap < |args|
    ensures OfTerm(o, Arg(false), rest, args, ap, g) == Got(Some(args[ap]), false, rest, ap + 1, g)
  {
    assert OfPrimary(o, Arg(false), args, ap, g) == Got(Some(args[ap]), false, [], ap + 1, g);
  }

  lemma FirstOutcome(o: Ops, x: Value, y: Value)
    requires o.inverse(x).None?
    ensures OfWhole(o, Sub(Inverse(Arg(false)), Arg(false)), [x, y], 0, 0) == Got(Some(o.neg(y)), true, [], 2, 2)
  {
    var args, rest := [x, y], [Signed(true, Arg(false))];
    assert Tail(Sub(Inverse(Arg(false)), Arg(false))) == rest;
    InverseOutcome(o, args, 0, 0);
    var r := OfFirst(o, Signed(false, Inverse(Arg(false))), rest, args, 0, 0);
    ArgOutcome(o, rest[1..], args, 1, 1);
    assert Negated(o, r, args) == Got(Some(o.neg(y)), true, [], 2, 2);
  }

  lemma SecondOutcome(o: Ops, x: Value, y: Value, z: Value)
    requires o.inverse(x).None?
    ensures OfWhole(o, Sub(Add(Arg(false), Inverse(Arg(false))), Arg(false)), [y, x, z], 0, 0) == Got(Some(o.add(y, o.neg(z))), true, [], 3, 3)
  {
    var e, args := Sub(Add(Arg(false), Inverse(Arg(false))), Arg(false)), [y, x, z];
    var last := [Signed(true, Arg(false))];
    var rest := [Signed(false, Inverse(Arg(false)))] + last;
    assert Tail(e) == rest && rest[1..] == last && last[1..] == [];
    assert OfPrimary(o, Arg(false), args, 0, 0) == Got(Some(y), false, [], 1, 0);
    var r := OfFirst(o, Signed(false, Arg(false)), rest, args, 0, 0);
    InverseOutcome(o, args, 1, 0);
    ArgOutcome(o, [], args, 2, 1);
    assert Negated(o, Got(None, false, last, 2, 1), args) == Got(Some(o.neg(z)), true, [], 3, 2);
    assert OfTerm(o, Inverse(Arg(false)), last, args, 1, 0) == Got(Some(o.neg(z)), true, [], 3, 2);
    assert OfSigns(o, r, args) == OfSigns(o, Got(Some(o.add(y, o.neg(z))), true, [], 3, 3), args);
  }
}
