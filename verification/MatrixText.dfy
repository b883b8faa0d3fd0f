/** What the evaluator of matrix expressions makes of the text of an expression tree. */
module MatrixText {
  import opened Wrappers
  import opened MatrixExpr

  /** An expression: an argument (`M`, or `F` when it is handed over), the operations, and parentheses
      written where none are needed. */
  datatype Expr =
    | Arg(free: bool)
    | Paren(e: Expr)
    | Neg(e: Expr)
    | Add(a: Expr, b: Expr)
    | Sub(a: Expr, b: Expr)
    | Mul(a: Expr, b: Expr)
    | Transpose(e: Expr)
    | Inverse(e: Expr)

  function Leaves(e: Expr): nat {
    match e
    case Arg(_) => 1
    case Paren(x) => Leaves(x)
    case Neg(x) => Leaves(x)
    case Add(x, y) => Leaves(x) + Leaves(y)
    case Sub(x, y) => Leaves(x) + Leaves(y)
    case Mul(x, y) => Leaves(x) + Leaves(y)
    case Transpose(x) => Leaves(x)
    case Inverse(x) => Leaves(x)
  }

  /** One temporary for each operation and for each argument handed over. */
  function Temporaries(e: Expr): nat {
    match e
    case Arg(free) => if free then 1 else 0
    case Paren(x) => Temporaries(x)
    case Neg(x) => Temporaries(x) + 1
    case Add(x, y) => Temporaries(x) + Temporaries(y) + 1
    case Sub(x, y) => Temporaries(x) + Temporaries(y) + 1
    case Mul(x, y) => Temporaries(x) + Temporaries(y) + 1
    case Transpose(x) => Temporaries(x) + 1
    case Inverse(x) => Temporaries(x) + 1
  }

  function Both(f: (Value, Value) -> Value, x: Option<Value>, y: Option<Value>): Option<Value> {
    if x.Some? && y.Some? then Some(f(x.value, y.value)) else None
  }

  /** The value of an expression over the arguments from `first` on, left to right; there is none when
      an inverse does not exist. */
  function Denote(o: Ops, e: Expr, args: seq<Value>, first: nat): Option<Value>
    requires first + Leaves(e) <= |args|
  {
    match e
    case Arg(_) => Some(args[first])
    case Paren(x) => Denote(o, x, args, first)
    case Neg(x) => (match Denote(o, x, args, first) case None => None case Some(v) => Some(o.neg(v)))
    case Add(x, y) => Both(o.add, Denote(o, x, args, first), Denote(o, y, args, first + Leaves(x)))
    case Sub(x, y) => Both(o.sub, Denote(o, x, args, first), Denote(o, y, args, first + Leaves(x)))
    case Mul(x, y) => Both(o.mul, Denote(o, x, args, first), Denote(o, y, args, first + Leaves(x)))
    case Transpose(x) => (match Denote(o, x, args, first) case None => None case Some(v) => Some(o.transpose(v)))
    case Inverse(x) => (match Denote(o, x, args, first) case None => None case Some(v) => o.inverse(v))
  }

  // ----- the text, with parentheses where the grouping needs them -----

  predicate IsSum(e: Expr) { e.Add? || e.Sub? || e.Neg? }

  function Primary(e: Expr): string
    decreases e, if IsSum(e) then 1 else if e.Mul? then 2 else 0
  {
    match e
    case Arg(free) => if free then "F" else "M"
    case Paren(x) => "(" + Sum(x) + ")"
    case Transpose(x) => Primary(x) + "'"
    case Inverse(x) => Primary(x) + "^-1"
    case _ => "(" + Sum(e) + ")"
  }

  function Product(e: Expr): string
    decreases e, if IsSum(e) then 2 else if e.Mul? then 0 else 1
  {
    if e.Mul? then Primary(e.a) + ("*" + Product(e.b)) else Primary(e)
  }

  function Sum(e: Expr): string
    decreases e, if IsSum(e) then 0 else if e.Mul? then 1 else 2
  {
    match e
    case Add(x, y) => Sum(x) + ("+" + Product(y))
    case Sub(x, y) => Sum(x) + ("-" + Product(y))
    case Neg(x) => "-" + Product(x)
    case _ => Product(e)
  }

  // ----- reading it back -----

  /** The text `t` stands at position `pos`. */
  predicate At(expr: string, pos: nat, t: string) {
    pos + |t| <= |expr| && expr[pos..pos + |t|] == t
  }

  lemma AtBoth(expr: string, pos: nat, s: string, t: string)
    requires At(expr, pos, s + t)
    ensures At(expr, pos, s) && At(expr, pos + |s|, t)
  {
    var both := expr[pos..pos + |s + t|];
    assert both[..|s|] == s && both[|s|..] == t;
    assert expr[pos..pos + |s|] == both[..|s|];
    assert expr[pos + |s|..pos + |s| + |t|] == both[|s|..];
  }

  lemma AtSplit(expr: string, pos: nat, a: string, c: char, b: string)
    requires At(expr, pos, a + ([c] + b))
    ensures var q := pos + |a|; At(expr, pos, a) && q < |expr| && expr[q] == c && At(expr, q + 1, b) && q + 1 + |b| == pos + |a + ([c] + b)|
  {
    AtBoth(expr, pos, a, [c] + b);
    AtBoth(expr, pos + |a|, [c], b);
    var q := pos + |a|;
    assert expr[q] == expr[q..q + 1][0] == c;
  }

  /** A term ends here: the text does, or a sum goes on, or a parenthesis closes or opens. */
  predicate Ends(expr: string, pos: nat) {
    pos <= |expr| && (pos < |expr| ==> expr[pos] == '+' || expr[pos] == '-' || expr[pos] == ')' || expr[pos] == '(')
  }

  /** No postfix operator follows. */
  predicate NoPostfix(expr: string, pos: nat) {
    pos <= |expr| && (pos < |expr| ==> expr[pos] != '\'' && expr[pos] != '^')
  }

  // One step of the evaluator at each kind of character.

  lemma EndOfOperand(o: Ops, expr: string, args: seq<Value>, pos: nat, acc: Option<Value>, v: Value, ap: nat, g: nat, one: bool)
    requires NoPostfix(expr, pos)
    ensures AfterOperand(o, expr, args, pos, acc, Some(v), ap, g, one)
         == Recurse(o, expr, args, pos, if acc.Some? then Some(o.mul(acc.value, v)) else Some(v), ap, if acc.Some? then g + 1 else g, one)
  {
    hide Recurse;
  }

  /** Told to stop after one term, the evaluator stops where a product ends. */
  lemma StopsAtEnd(o: Ops, expr: string, args: seq<Value>, pos: nat, v: Value, ap: nat, g: nat)
    requires Ends(expr, pos)
    ensures Recurse(o, expr, args, pos, Some(v), ap, g, true) == Out(pos, Some(v), ap, g)
  {
    hide AfterOperand, AfterTerm, AfterMinus, Gobble;
  }

  lemma AtArgument(o: Ops, expr: string, args: seq<Value>, pos: nat, acc: Option<Value>, ap: nat, g: nat, one: bool)
    requires pos < |expr| && IsArg(expr[pos]) && ap < |args|
    ensures Recurse(o, expr, args, pos, acc, ap, g, one)
         == AfterOperand(o, expr, args, pos + 1, acc, Some(args[ap]), ap + 1, if expr[pos] == 'F' then g + 1 else g, one)
  {
    hide AfterOperand, AfterTerm, AfterMinus, Gobble;
  }

  lemma AtTranspose(o: Ops, expr: string, args: seq<Value>, q: nat, v: Value, ap: nat, g: nat, one: bool)
    requires q < |expr| && expr[q] == '\''
    ensures AfterOperand(o, expr, args, q, None, Some(v), ap, g, one)
         == AfterOperand(o, expr, args, q + 1, None, Some(o.transpose(v)), ap, g + 1, one)
  {
    hide Recurse;
  }

  lemma AtInverse(o: Ops, expr: string, args: seq<Value>, q: nat, v: Value, ap: nat, g: nat, one: bool)
    requires q + 3 <= |expr| && expr[q] == '^' && expr[q + 1] == '-' && expr[q + 2] == '1'
    ensures AfterOperand(o, expr, args, q, None, Some(v), ap, g, one)
         == AfterOperand(o, expr, args, q + 3, None, o.inverse(v), ap, g + 1, one)
  {
    hide Recurse;
  }

  lemma AtOpening(o: Ops, expr: string, args: seq<Value>, pos: nat, ap: nat, g: nat, one: bool, p: nat, v: Value, ap': nat, g': nat)
    requires pos < p < |expr| && expr[pos] == '(' && expr[p] == ')'
    requires Recurse(o, expr, args, pos + 1, None, ap, g, false) == Recurse(o, expr, args, p, Some(v), ap', g', false)
    ensures Recurse(o, expr, args, pos, None, ap, g, one) == AfterOperand(o, expr, args, p + 1, None, Some(v), ap', g', one)
  {
    hide AfterOperand, AfterTerm, AfterMinus, Gobble;
    assert Recurse(o, expr, args, p, Some(v), ap', g', false) == Out(p + 1, Some(v), ap', g');
  }

  lemma AtStar(o: Ops, expr: string, args: seq<Value>, q: nat, acc: Option<Value>, ap: nat, g: nat, one: bool, p: nat, y: Value, ap': nat, g': nat)
    requires q < |expr| && expr[q] == '*' && NoPostfix(expr, p)
    requires Recurse(o, expr, args, q + 1, None, ap, g, true) == Out(p, Some(y), ap', g')
    ensures Recurse(o, expr, args, q, acc, ap, g, one)
         == Recurse(o, expr, args, p, if acc.Some? then Some(o.mul(acc.value, y)) else Some(y), ap', if acc.Some? then g' + 1 else g', one)
  {
    EndOfOperand(o, expr, args, p, acc, y, ap', g', one);
    hide AfterOperand, AfterTerm, AfterMinus, Gobble;
  }

  lemma AtSign(o: Ops, expr: string, args: seq<Value>, q: nat, acc: Option<Value>, ap: nat, g: nat, p: nat, y: Value, ap': nat, g': nat)
    requires q < |expr| && (expr[q] == '-' || (expr[q] == '+' && acc.Some?)) && NoPostfix(expr, p)
    requires Recurse(o, expr, args, q + 1, None, ap, g, true) == Out(p, Some(y), ap', g')
    ensures Recurse(o, expr, args, q, acc, ap, g, false)
         == Recurse(o, expr, args, p, Some(if acc.None? then o.neg(y) else if expr[q] == '+' then o.add(acc.value, y) else o.sub(acc.value, y)),
                    ap', g' + 1, false)
  {
    hide AfterOperand;
    assert Gobble(o, expr, p, Some(y), ap', g') == Out(p, Some(y), ap', g');
  }

  // Reading each kind of phrase.

  lemma {:induction false} ReadParenthesis(o: Ops, e: Expr, expr: string, args: seq<Value>, pos: nat, ap: nat, g: nat, one: bool)
    requires At(expr, pos, "(" + Sum(e) + ")") && ap + Leaves(e) <= |args| && Denote(o, e, args, ap).Some?
    ensures Recurse(o, expr, args, pos, None, ap, g, one)
         == AfterOperand(o, expr, args, pos + |Sum(e)| + 2, None, Denote(o, e, args, ap), ap + Leaves(e), g + Temporaries(e), one)
    decreases e, if IsSum(e) then 2 else if e.Mul? then 5 else 8
  {
    hide Denote, Leaves, Temporaries, Sum, Product, Primary, Recurse, AfterOperand;
    var q := pos + 1 + |Sum(e)|;
    AtBoth(expr, pos, "(" + Sum(e), ")");
    AtBoth(expr, pos, "(", Sum(e));
    assert expr[pos] == expr[pos..pos + 1][0] == '(';
    assert expr[q] == expr[q..q + 1][0] == ')';
    ReadSum(o, e, expr, args, pos + 1, ap, g);
    AtOpening(o, expr, args, pos, ap, g, one, q, Denote(o, e, args, ap).value, ap + Leaves(e), g + Temporaries(e));
  }

  /** Reading a primary leaves the evaluator after its last operand, with its value. */
  lemma {:induction false} ReadPrimary(o: Ops, e: Expr, expr: string, args: seq<Value>, pos: nat, ap: nat, g: nat, one: bool)
    requires At(expr, pos, Primary(e)) && ap + Leaves(e) <= |args| && Denote(o, e, args, ap).Some?
    ensures Recurse(o, expr, args, pos, None, ap, g, one)
         == AfterOperand(o, expr, args, pos + |Primary(e)|, None, Denote(o, e, args, ap), ap + Leaves(e), g + Temporaries(e), one)
    decreases e, if IsSum(e) then 3 else if e.Mul? then 6 else 0
  {
    hide Recurse, AfterOperand, Gobble, Sum, Product;
    match e
    case Arg(free) =>
      assert expr[pos] == expr[pos..pos + 1][0];
      AtArgument(o, expr, args, pos, None, ap, g, one);
    case Paren(x) =>
      ReadParenthesis(o, x, expr, args, pos, ap, g, one);
    case Transpose(x) =>
      ReadTransposed(o, x, expr, args, pos, ap, g, one);
    case Inverse(x) =>
      ReadInverted(o, x, expr, args, pos, ap, g, one);
    case _ =>
      ReadParenthesis(o, e, expr, args, pos, ap, g, one);
  }

  lemma {:induction false} ReadTransposed(o: Ops, x: Expr, expr: string, args: seq<Value>, pos: nat, ap: nat, g: nat, one: bool)
    requires At(expr, pos, Primary(x) + "'") && ap + Leaves(x) <= |args| && Denote(o, x, args, ap).Some?
    ensures Recurse(o, expr, args, pos, None, ap, g, one)
         == AfterOperand(o, expr, args, pos + |Primary(x)| + 1, None, Some(o.transpose(Denote(o, x, args, ap).value)), ap + Leaves(x), g + Temporaries(x) + 1, one)
    decreases x, 9
  {
    hide Recurse, AfterOperand, Primary, Denote, Leaves, Temporaries;
    var q := pos + |Primary(x)|;
    AtBoth(expr, pos, Primary(x), "'");
    assert expr[q] == expr[q..q + 1][0] == '\'';
    ReadPrimary(o, x, expr, args, pos, ap, g, one);
    AtTranspose(o, expr, args, q, Denote(o, x, args, ap).value, ap + Leaves(x), g + Temporaries(x), one);
  }

  lemma {:induction false} ReadInverted(o: Ops, x: Expr, expr: string, args: seq<Value>, pos: nat, ap: nat, g: nat, one: bool)
    requires At(expr, pos, Primary(x) + "^-1") && ap + Leaves(x) <= |args| && Denote(o, x, args, ap).Some?
    ensures Recurse(o, expr, args, pos, None, ap, g, one)
         == AfterOperand(o, expr, args, pos + |Primary(x)| + 3, None, o.inverse(Denote(o, x, args, ap).value), ap + Leaves(x), g + Temporaries(x) + 1, one)
    decreases x, 9
  {
    hide Recurse, AfterOperand, Primary, Denote, Leaves, Temporaries;
    var q := pos + |Primary(x)|;
    AtBoth(expr, pos, Primary(x), "^-1");
    assert expr[q] == expr[q..q + 3][0] && expr[q + 1] == expr[q..q + 3][1] && expr[q + 2] == expr[q..q + 3][2];
    ReadPrimary(o, x, expr, args, pos, ap, g, one);
    AtInverse(o, expr, args, q, Denote(o, x, args, ap).value, ap + Leaves(x), g + Temporaries(x), one);
  }

  /** Reading a product leaves the evaluator at its end, with its value. */
  lemma {:induction false} ReadProduct(o: Ops, e: Expr, expr: string, args: seq<Value>, pos: nat, ap: nat, g: nat, one: bool)
    requires At(expr, pos, Product(e)) && ap + Leaves(e) <= |args| && Denote(o, e, args, ap).Some?
    requires Ends(expr, pos + |Product(e)|)
    ensures Recurse(o, expr, args, pos, None, ap, g, one)
         == Recurse(o, expr, args, pos + |Product(e)|, Denote(o, e, args, ap), ap + Leaves(e), g + Temporaries(e), one)
    decreases e, if IsSum(e) then 4 else if e.Mul? then 1 else 3
  {
    hide Recurse, AfterOperand, Gobble, Primary, Sum;
    if e.Mul? {
      ReadFactors(o, e.a, e.b, expr, args, pos, ap, g, one);
    } else {
      hide Denote, Leaves, Temporaries;
      ReadPrimary(o, e, expr, args, pos, ap, g, one);
      EndOfOperand(o, expr, args, pos + |Primary(e)|, None, Denote(o, e, args, ap).value, ap + Leaves(e), g + Temporaries(e), one);
    }
  }

  lemma {:induction false} ReadFactors(o: Ops, x: Expr, y: Expr, expr: string, args: seq<Value>, pos: nat, ap: nat, g: nat, one: bool)
    requires At(expr, pos, Primary(x) + ("*" + Product(y))) && ap + Leaves(x) + Leaves(y) <= |args|
    requires Denote(o, x, args, ap).Some? && Denote(o, y, args, ap + Leaves(x)).Some?
    requires Ends(expr, pos + |Primary(x)| + 1 + |Product(y)|)
    ensures Recurse(o, expr, args, pos, None, ap, g, one)
         == Recurse(o, expr, args, pos + |Primary(x)| + 1 + |Product(y)|,
                    Some(o.mul(Denote(o, x, args, ap).value, Denote(o, y, args, ap + Leaves(x)).value)),
                    ap + Leaves(x) + Leaves(y), g + Temporaries(x) + Temporaries(y) + 1, one)
    decreases Mul(x, y), 0
  {
    hide Recurse, AfterOperand, Gobble, Primary, Product, Sum, Denote, Leaves, Temporaries;
    var q: nat := pos + |Primary(x)|;
    AtSplit(expr, pos, Primary(x), '*', Product(y));
    ReadPrimary(o, x, expr, args, pos, ap, g, one);
    EndOfOperand(o, expr, args, q, None, Denote(o, x, args, ap).value, ap + Leaves(x), g + Temporaries(x), one);
    ReadTerm(o, y, expr, args, q + 1, ap + Leaves(x), g + Temporaries(x));
    AtStar(o, expr, args, q, Denote(o, x, args, ap), ap + Leaves(x), g + Temporaries(x), one, q + 1 + |Product(y)|,
           Denote(o, y, args, ap + Leaves(x)).value, ap + Leaves(x) + Leaves(y), g + Temporaries(x) + Temporaries(y));
  }

  /** A product read as one term, as on the right of an operator. */
  lemma {:induction false} ReadTerm(o: Ops, e: Expr, expr: string, args: seq<Value>, pos: nat, ap: nat, g: nat)
    requires At(expr, pos, Product(e)) && ap + Leaves(e) <= |args| && Denote(o, e, args, ap).Some?
    requires Ends(expr, pos + |Product(e)|)
    ensures Recurse(o, expr, args, pos, None, ap, g, true)
         == Out(pos + |Product(e)|, Denote(o, e, args, ap), ap + Leaves(e), g + Temporaries(e))
    decreases e, if IsSum(e) then 5 else if e.Mul? then 2 else 4
  {
    hide Recurse, Denote, Product, Leaves, Temporaries;
    ReadProduct(o, e, expr, args, pos, ap, g, true);
    StopsAtEnd(o, expr, args, pos + |Product(e)|, Denote(o, e, args, ap).value, ap + Leaves(e), g + Temporaries(e));
  }

  /** Reading a sum leaves the evaluator at its end, with its value. */
  lemma {:induction false} ReadSum(o: Ops, e: Expr, expr: string, args: seq<Value>, pos: nat, ap: nat, g: nat)
    requires At(expr, pos, Sum(e)) && ap + Leaves(e) <= |args| && Denote(o, e, args, ap).Some?
    requires Ends(expr, pos + |Sum(e)|)
    ensures Recurse(o, expr, args, pos, None, ap, g, false)
         == Recurse(o, expr, args, pos + |Sum(e)|, Denote(o, e, args, ap), ap + Leaves(e), g + Temporaries(e), false)
    decreases e, if IsSum(e) then 1 else if e.Mul? then 3 else 7
  {
    hide Recurse, AfterOperand, Gobble, Primary, Product;
    if e.Add? || e.Sub? {
      ReadSummands(o, e.Add?, e.a, e.b, expr, args, pos, ap, g);
    } else if e.Neg? {
      AtBoth(expr, pos, "-", Product(e.e));
      assert expr[pos] == expr[pos..pos + 1][0] == '-';
      ReadTerm(o, e.e, expr, args, pos + 1, ap, g);
      AtSign(o, expr, args, pos, None, ap, g, pos + 1 + |Product(e.e)|, Denote(o, e.e, args, ap).value, ap + Leaves(e.e), g + Temporaries(e.e));
    } else {
      hide Denote, Leaves, Temporaries;
      ReadProduct(o, e, expr, args, pos, ap, g, false);
    }
  }

  lemma {:induction false} ReadSummands(o: Ops, plus: bool, x: Expr, y: Expr, expr: string, args: seq<Value>, pos: nat, ap: nat, g: nat)
    requires At(expr, pos, Sum(x) + ((if plus then "+" else "-") + Product(y))) && ap + Leaves(x) + Leaves(y) <= |args|
    requires Denote(o, x, args, ap).Some? && Denote(o, y, args, ap + Leaves(x)).Some?
    requires Ends(expr, pos + |Sum(x)| + 1 + |Product(y)|)
    ensures Recurse(o, expr, args, pos, None, ap, g, false)
         == Recurse(o, expr, args, pos + |Sum(x)| + 1 + |Product(y)|,
                    Both(if plus then o.add else o.sub, Denote(o, x, args, ap), Denote(o, y, args, ap + Leaves(x))),
                    ap + Leaves(x) + Leaves(y), g + Temporaries(x) + Temporaries(y) + 1, false)
    decreases if plus then Add(x, y) else Sub(x, y), 0
  {
    hide Recurse, AfterOperand, Gobble, Primary, Product, Sum, Denote, Leaves, Temporaries;
    var sign := if plus then "+" else "-";
    var q: nat := pos + |Sum(x)|;
    AtSplit(expr, pos, Sum(x), sign[0], Product(y));
    ReadSum(o, x, expr, args, pos, ap, g);
    ReadTerm(o, y, expr, args, q + 1, ap + Leaves(x), g + Temporaries(x));
    AtSign(o, expr, args, q, Denote(o, x, args, ap), ap + Leaves(x), g + Temporaries(x), q + 1 + |Product(y)|,
           Denote(o, y, args, ap + Leaves(x)).value, ap + Leaves(x) + Leaves(y), g + Temporaries(x) + Temporaries(y));
  }

  /** For every expression whose inverses exist, the evaluator applied to its text reads all of it,
      uses one argument for each letter, from left to right, and returns the value of the expression. */
  lemma TextGivesValue(o: Ops, e: Expr, args: seq<Value>)
    requires Leaves(e) <= |args| && Denote(o, e, args, 0).Some?
    ensures Recurse(o, Sum(e), args, 0, None, 0, 0, false) == Out(|Sum(e)|, Denote(o, e, args, 0), Leaves(e), Temporaries(e))
  {
    hide Recurse, Denote, Leaves, Temporaries, Sum;
    assert Sum(e)[0..0 + |Sum(e)|] == Sum(e);
    ReadSum(o, e, Sum(e), args, 0, 0, 0);
    AtTheEnd(o, Sum(e), args, Denote(o, e, args, 0), Leaves(e), Temporaries(e), false);
  }

  /** When the inverse of a first factor does not exist, it is dropped: what comes back is the value
      of the other factors, which is not the value of the expression. */
  lemma FailedInverseIsDropped(o: Ops, e: Expr, args: seq<Value>)
    requires 1 + Leaves(e) <= |args| && o.inverse(args[0]).None? && Denote(o, e, args, 1).Some?
    ensures var whole := Mul(Inverse(Arg(false)), e);
      && Denote(o, whole, args, 0).None?
      && Recurse(o, Sum(whole), args, 0, None, 0, 0, false)
         == Out(|Sum(whole)|, Denote(o, e, args, 1), 1 + Leaves(e), 1 + Temporaries(e))
  {
    hide Recurse;
    var whole := Mul(Inverse(Arg(false)), e);
    assert Denote(o, Arg(false), args, 0) == Some(args[0]);
    assert Denote(o, Inverse(Arg(false)), args, 0) == None;
    assert Primary(Arg(false)) == "M" && Primary(Inverse(Arg(false))) == "M^-1";
    assert Sum(whole) == "M^-1" + ("*" + Product(e));
    DropsFailedInverse(o, e, Sum(whole), args);
  }

  lemma DropsFailedInverse(o: Ops, e: Expr, s: string, args: seq<Value>)
    requires 1 + Leaves(e) <= |args| && o.inverse(args[0]).None? && Denote(o, e, args, 1).Some?
    requires s == "M^-1" + ("*" + Product(e))
    ensures Recurse(o, s, args, 0, None, 0, 0, false) == Out(|s|, Denote(o, e, args, 1), 1 + Leaves(e), 1 + Temporaries(e))
  {
    hide Denote, Leaves, Temporaries, Product, Recurse, Gobble;
    assert s[0] == 'M' && s[1] == '^' && s[2] == '-' && s[3] == '1' && s[4] == '*';
    assert s[5..5 + |Product(e)|] == Product(e);
    AtArgument(o, s, args, 0, None, 0, 0, false);
    AtInverse(o, s, args, 1, args[0], 1, 0, false);
    NothingAfterOperand(o, s, args, 4, 1, 1, false);
    ReadTerm(o, e, s, args, 5, 1, 1);
    AtStar(o, s, args, 4, None, 1, 1, false, |s|, Denote(o, e, args, 1).value, 1 + Leaves(e), 1 + Temporaries(e));
    AtTheEnd(o, s, args, Denote(o, e, args, 1), 1 + Leaves(e), 1 + Temporaries(e), false);
  }

  lemma NothingAfterOperand(o: Ops, expr: string, args: seq<Value>, pos: nat, ap: nat, g: nat, one: bool)
    requires NoPostfix(expr, pos)
    ensures AfterOperand(o, expr, args, pos, None, None, ap, g, one) == Recurse(o, expr, args, pos, None, ap, g, one)
  {
    hide Recurse;
  }

  /** `matd_op`: the letters are counted, one argument is taken for each, and the text is evaluated. It
      fails without letters and where the evaluator does; the text of an expression gives its value, and
      the temporaries fit into twice the length of the text. */
  method Evaluated(o: Ops, expr: string, args: seq<Value>) returns (res: Option<Value>, ok: bool)
    requires |args| == CountArgs(expr, 0, |expr|)
    ensures var r := Recurse(o, expr, args, 0, None, 0, 0, false);
            if |args| == 0 then !ok else ok == r.Out? && (ok ==> res == r.acc && r.argpos <= |args| && r.garb <= 2 * |expr|)
    ensures forall e :: expr == Sum(e) && Leaves(e) <= |args| && Denote(o, e, args, 0).Some? ==> ok && res == Denote(o, e, args, 0)
  {
    hide Gobble, AfterOperand, AfterTerm, AfterMinus, Recurse, Sum, Denote;
    var nargs: nat := 0;
    for p := 0 to |expr|
      invariant nargs + CountArgs(expr, p, |expr|) == |args|
    {
      if IsArg(expr[p]) { nargs := nargs + 1; }
    }
    RecurseAccounts(o, expr, args, 0, None, 0, 0, false);
    forall e | expr == Sum(e) && Leaves(e) <= |args| && Denote(o, e, args, 0).Some?
      ensures |args| > 0 && Recurse(o, expr, args, 0, None, 0, 0, false) == Out(|expr|, Denote(o, e, args, 0), Leaves(e), Temporaries(e))
    {
      TextGivesValue(o, e, args);
      SomeLetter(e);
    }
    if nargs == 0 {
      return None, false;
    }
    var evaluator := new Evaluator(o, expr, args);
    res := evaluator.Evaluate(None, false);
    ok := !evaluator.aborted;
    var r := Recurse(o, expr, args, 0, None, 0, 0, false);
    if r.Out? { CountSplit(expr, 0, r.pos, |expr|); }
  }

  lemma {:induction false} SomeLetter(e: Expr)
    ensures Leaves(e) > 0
  {
    match e
    case Arg(_) =>
    case Paren(x) => SomeLetter(x);
    case Neg(x) => SomeLetter(x);
    case Add(x, _) => SomeLetter(x);
    case Sub(x, _) => SomeLetter(x);
    case Mul(x, _) => SomeLetter(x);
    case Transpose(x) => SomeLetter(x);
    case Inverse(x) => SomeLetter(x);
  }

  // ----- juxtaposition -----

  /** A parenthesis after an operand, where the evaluator does not stop after one term. */
  lemma AtOpeningAfter(o: Ops, expr: string, args: seq<Value>, pos: nat, v: Value, ap: nat, g: nat, p: nat, y: Value, ap': nat, g': nat)
    requires pos < p < |expr| && expr[pos] == '(' && expr[p] == ')' && NoPostfix(expr, p + 1)
    requires Recurse(o, expr, args, pos + 1, None, ap, g, false) == Recurse(o, expr, args, p, Some(y), ap', g', false)
    ensures Recurse(o, expr, args, pos, Some(v), ap, g, false) == Recurse(o, expr, args, p + 1, Some(o.mul(v, y)), ap', g' + 1, false)
  {
    assert Recurse(o, expr, args, p, Some(y), ap', g', false) == Out(p + 1, Some(y), ap', g');
    EndOfOperand(o, expr, args, p + 1, Some(v), y, ap', g', false);
    hide AfterOperand, AfterTerm, AfterMinus, Gobble;
  }

  /** For all expressions, a parenthesis that follows the text of the first multiplies the whole of it. */
  lemma {:induction false} ParenthesisAfter(o: Ops, e: Expr, f: Expr, args: seq<Value>)
    requires Leaves(e) + Leaves(f) <= |args| && Denote(o, e, args, 0).Some? && Denote(o, f, args, Leaves(e)).Some?
    ensures var s := Sum(e) + ("(" + Sum(f) + ")");
            Recurse(o, s, args, 0, None, 0, 0, false)
            == Out(|s|, Denote(o, Mul(e, f), args, 0), Leaves(e) + Leaves(f), Temporaries(e) + Temporaries(f) + 1)
  {
    hide Recurse, Sum, Leaves, Temporaries;
    var s := Sum(e) + ("(" + Sum(f) + ")");
    var q, p: nat := |Sum(e)|, |Sum(e)| + 1 + |Sum(f)|;
    assert s[0..0 + |s|] == s;
    AtBoth(s, 0, Sum(e), "(" + Sum(f) + ")");
    AtBoth(s, q, "(" + Sum(f), ")");
    AtBoth(s, q, "(", Sum(f));
    assert s[q] == s[q..q + 1][0] == '(';
    assert s[p] == s[p..p + 1][0] == ')';
    var x, y := Denote(o, e, args, 0).value, Denote(o, f, args, Leaves(e)).value;
    assert Denote(o, Mul(e, f), args, 0) == Some(o.mul(x, y)) by { MulValue(o, e, f, args); }
    hide Denote;
    ReadSum(o, e, s, args, 0, 0, 0);
    ReadSum(o, f, s, args, q + 1, Leaves(e), Temporaries(e));
    AtOpeningAfter(o, s, args, q, x, Leaves(e), Temporaries(e), p, y, Leaves(e) + Leaves(f), Temporaries(e) + Temporaries(f));
    AtTheEnd(o, s, args, Some(o.mul(x, y)), Leaves(e) + Leaves(f), Temporaries(e) + Temporaries(f) + 1, false);
  }

  lemma MulValue(o: Ops, e: Expr, f: Expr, args: seq<Value>)
    requires Leaves(e) + Leaves(f) <= |args|
    ensures Leaves(Mul(e, f)) == Leaves(e) + Leaves(f)
    ensures Denote(o, Mul(e, f), args, 0) == Both(o.mul, Denote(o, e, args, 0), Denote(o, f, args, Leaves(e)))
  {
  }

  /** How the header groups it: juxtaposition binds like a product, tighter than a sum. */
  function AsDocumented(e: Expr, f: Expr): Expr {
    match e
    case Add(x, y) => Add(x, Mul(y, f))
    case Sub(x, y) => Sub(x, Mul(y, f))
    case _ => Mul(e, f)
  }

  /** Operations that tell sums from products. */
  function Telling(product: Value, other: Value): Ops {
    Ops((x, y) => product, (x, y) => other, (x, y) => other, x => product, x => product, x => Some(product))
  }

  lemma {:induction false} AllHaveValues(product: Value, other: Value, e: Expr, args: seq<Value>, ap: nat)
    requires ap + Leaves(e) <= |args|
    ensures Denote(Telling(product, other), e, args, ap).Some?
  {
    match e
    case Arg(_) =>
    case Paren(x) => AllHaveValues(product, other, x, args, ap);
    case Neg(x) => AllHaveValues(product, other, x, args, ap);
    case Add(x, y) => AllHaveValues(product, other, x, args, ap); AllHaveValues(product, other, y, args, ap + Leaves(x));
    case Sub(x, y) => AllHaveValues(product, other, x, args, ap); AllHaveValues(product, other, y, args, ap + Leaves(x));
    case Mul(x, y) => AllHaveValues(product, other, x, args, ap); AllHaveValues(product, other, y, args, ap + Leaves(x));
    case Transpose(x) => AllHaveValues(product, other, x, args, ap);
    case Inverse(x) => AllHaveValues(product, other, x, args, ap);
  }

  /** The evaluator's value of the two is that of the documented grouping. */
  ghost predicate GroupsAsDocumented(o: Ops, e: Expr, f: Expr, args: seq<Value>)
    requires Leaves(e) + Leaves(f) <= |args|
  {
    var out := Recurse(o, Sum(e) + ("(" + Sum(f) + ")"), args, 0, None, 0, 0, false);
    Leaves(AsDocumented(e, f)) <= |args| && out.Out? && out.acc == Denote(o, AsDocumented(e, f), args, 0)
  }

  ghost predicate HaveValues(o: Ops, e: Expr, f: Expr, args: seq<Value>) {
    Leaves(e) + Leaves(f) <= |args| && Denote(o, e, args, 0).Some? && Denote(o, f, args, Leaves(e)).Some?
  }

  /** There are at least two matrices. A parenthesis after an expression is grouped as documented, for all
      operations and arguments, if and only if the expression is not a sum or a difference. */
  lemma {:induction false} GroupingExactly(e: Expr, f: Expr, c: Value, d: Value)
    requires c != d
    ensures (forall o: Ops, args: seq<Value> :: HaveValues(o, e, f, args) ==> GroupsAsDocumented(o, e, f, args)) <==> !e.Add? && !e.Sub?
  {
    hide Recurse, Sum;
    if e.Add? || e.Sub? {
      var o, args := Telling(c, d), seq(Leaves(e) + Leaves(f), i => c);
      AllHaveValues(c, d, e, args, 0);
      AllHaveValues(c, d, f, args, Leaves(e));
      assert HaveValues(o, e, f, args);
      ParenthesisAfter(o, e, f, args);
      TellsApart(c, d, e, f, args);
      assert !GroupsAsDocumented(o, e, f, args);
    } else {
      forall o: Ops, args: seq<Value> | HaveValues(o, e, f, args) ensures GroupsAsDocumented(o, e, f, args) {
        ParenthesisAfter(o, e, f, args);
        MulValue(o, e, f, args);
      }
    }
  }

  lemma TellsApart(c: Value, d: Value, e: Expr, f: Expr, args: seq<Value>)
    requires (e.Add? || e.Sub?) && |args| == Leaves(e) + Leaves(f)
    ensures Leaves(AsDocumented(e, f)) == |args| && Leaves(Mul(e, f)) == |args|
    ensures Denote(Telling(c, d), Mul(e, f), args, 0) == Some(c)
    ensures Denote(Telling(c, d), AsDocumented(e, f), args, 0) == Some(d)
  {
    AllHaveValues(c, d, e, args, 0);
    AllHaveValues(c, d, f, args, Leaves(e));
    MulValue(Telling(c, d), e, f, args);
    var x, rest := e.a, Mul(e.b, f);
    AllHaveValues(c, d, x, args, 0);
    AllHaveValues(c, d, rest, args, Leaves(x));
  }

  /** The expression with one more argument joined to its last factor. */
  function JoinedTerm(e: Expr): Expr { if e.Mul? then Mul(e.a, JoinedTerm(e.b)) else Mul(e, Arg(false)) }

  function Joined(e: Expr): Expr {
    match e
    case Add(x, y) => Add(x, JoinedTerm(y))
    case Sub(x, y) => Sub(x, JoinedTerm(y))
    case Neg(x) => Neg(JoinedTerm(x))
    case _ => JoinedTerm(e)
  }

  lemma {:induction false} JoinedCounts(o: Ops, e: Expr, args: seq<Value>, ap: nat)
    requires ap + Leaves(e) < |args|
    ensures Leaves(JoinedTerm(e)) == Leaves(e) + 1 && Temporaries(JoinedTerm(e)) == Temporaries(e) + 1
    ensures Denote(o, e, args, ap).Some? ==> Denote(o, JoinedTerm(e), args, ap).Some?
  {
    if e.Mul? { JoinedCounts(o, e.b, args, ap + Leaves(e.a)); }
  }

  /** A letter after a term joins its last factor. */
  lemma {:induction false} ReadJoinedTerm(o: Ops, e: Expr, expr: string, args: seq<Value>, pos: nat, ap: nat, g: nat, one: bool)
    requires At(expr, pos, Product(e) + "M") && pos + |Product(e)| + 1 == |expr| && ap + Leaves(e) < |args| && Denote(o, e, args, ap).Some?
    ensures Leaves(JoinedTerm(e)) == Leaves(e) + 1
    ensures Recurse(o, expr, args, pos, None, ap, g, one) == Out(|expr|, Denote(o, JoinedTerm(e), args, ap), ap + Leaves(e) + 1, g + Temporaries(e) + 1)
    decreases e
  {
    hide Recurse, AfterOperand, Gobble, Primary, Sum;
    JoinedCounts(o, e, args, ap);
    if e.Mul? {
      ReadJoinedFactors(o, e.a, e.b, expr, args, pos, ap, g, one);
    } else {
      ReadJoinedPrimary(o, e, expr, args, pos, ap, g, one);
    }
  }

  lemma {:induction false} ReadJoinedPrimary(o: Ops, e: Expr, expr: string, args: seq<Value>, pos: nat, ap: nat, g: nat, one: bool)
    requires At(expr, pos, Primary(e) + "M") && pos + |Primary(e)| + 1 == |expr| && ap + Leaves(e) < |args| && Denote(o, e, args, ap).Some?
    ensures Recurse(o, expr, args, pos, None, ap, g, one)
         == Out(|expr|, Some(o.mul(Denote(o, e, args, ap).value, args[ap + Leaves(e)])), ap + Leaves(e) + 1, g + Temporaries(e) + 1)
  {
    hide Recurse, AfterOperand, Gobble, Primary, Sum, Denote, Leaves, Temporaries;
    var q := pos + |Primary(e)|;
    AtBoth(expr, pos, Primary(e), "M");
    assert expr[q] == expr[q..q + 1][0] == 'M';
    ReadPrimary(o, e, expr, args, pos, ap, g, one);
    var x, y := Denote(o, e, args, ap).value, args[ap + Leaves(e)];
    EndOfOperand(o, expr, args, q, None, x, ap + Leaves(e), g + Temporaries(e), one);
    AtArgument(o, expr, args, q, Some(x), ap + Leaves(e), g + Temporaries(e), one);
    EndOfOperand(o, expr, args, q + 1, Some(x), y, ap + Leaves(e) + 1, g + Temporaries(e), one);
    AtTheEnd(o, expr, args, Some(o.mul(x, y)), ap + Leaves(e) + 1, g + Temporaries(e) + 1, one);
  }

  lemma AtTheEnd(o: Ops, expr: string, args: seq<Value>, acc: Option<Value>, ap: nat, g: nat, one: bool)
    ensures Recurse(o, expr, args, |expr|, acc, ap, g, one) == Out(|expr|, acc, ap, g)
  {
    hide AfterOperand, AfterTerm, AfterMinus, Gobble;
  }

  lemma {:induction false} ReadJoinedFactors(o: Ops, x: Expr, y: Expr, expr: string, args: seq<Value>, pos: nat, ap: nat, g: nat, one: bool)
    requires At(expr, pos, Primary(x) + ("*" + Product(y)) + "M") && pos + |Primary(x)| + |Product(y)| + 2 == |expr|
    requires ap + Leaves(x) + Leaves(y) < |args| && Denote(o, x, args, ap).Some? && Denote(o, y, args, ap + Leaves(x)).Some?
    ensures Leaves(JoinedTerm(y)) == Leaves(y) + 1 && Denote(o, JoinedTerm(y), args, ap + Leaves(x)).Some?
    ensures Recurse(o, expr, args, pos, None, ap, g, one)
         == Out(|expr|, Some(o.mul(Denote(o, x, args, ap).value, Denote(o, JoinedTerm(y), args, ap + Leaves(x)).value)),
                ap + Leaves(x) + Leaves(y) + 1, g + Temporaries(x) + Temporaries(y) + 2)
    decreases Mul(x, y), 0
  {
    hide Recurse, AfterOperand, Gobble, Primary, Product, Sum, Denote, Leaves, Temporaries, JoinedTerm;
    var q: nat := pos + |Primary(x)|;
    assert Primary(x) + ("*" + Product(y)) + "M" == Primary(x) + (['*'] + (Product(y) + "M"));
    AtSplit(expr, pos, Primary(x), '*', Product(y) + "M");
    hide At;
    JoinedCounts(o, y, args, ap + Leaves(x));
    ReadPrimary(o, x, expr, args, pos, ap, g, one);
    var xv := Denote(o, x, args, ap).value;
    EndOfOperand(o, expr, args, q, None, xv, ap + Leaves(x), g + Temporaries(x), one);
    ReadJoinedTerm(o, y, expr, args, q + 1, ap + Leaves(x), g + Temporaries(x), true);
    var yv := Denote(o, JoinedTerm(y), args, ap + Leaves(x)).value;
    var ap', g' := ap + Leaves(x) + Leaves(y) + 1, g + Temporaries(x) + Temporaries(y) + 1;
    AtStar(o, expr, args, q, Some(xv), ap + Leaves(x), g + Temporaries(x), one, |expr|, yv, ap', g');
    AtTheEnd(o, expr, args, Some(o.mul(xv, yv)), ap', g' + 1, one);
  }

  /** For all expressions, a letter that follows the text joins the last factor of the last term. */
  lemma {:induction false} LetterAfter(o: Ops, e: Expr, args: seq<Value>)
    requires Leaves(e) < |args| && Denote(o, e, args, 0).Some?
    ensures Leaves(Joined(e)) == Leaves(e) + 1
    ensures var s := Sum(e) + "M";
            Recurse(o, s, args, 0, None, 0, 0, false) == Out(|s|, Denote(o, Joined(e), args, 0), Leaves(e) + 1, Temporaries(e) + 1)
  {
    hide Recurse, AfterOperand, Primary, Product, JoinedTerm;
    var s := Sum(e) + "M";
    assert s[0..0 + |s|] == s;
    if e.Add? || e.Sub? {
      JoinedCounts(o, e.b, args, Leaves(e.a));
      LetterText(Sum(e.a), if e.Add? then '+' else '-', Product(e.b));
      LetterAfterSum(o, e.a, e.b, s, args);
    } else if e.Neg? {
      assert s == "-" + (Product(e.e) + "M");
      AtBoth(s, 0, "-", Product(e.e) + "M");
      assert s[0] == s[0..1][0] == '-';
      JoinedCounts(o, e.e, args, 0);
      ReadJoinedTerm(o, e.e, s, args, 1, 0, 0, true);
      var v := Denote(o, JoinedTerm(e.e), args, 0).value;
      AtSign(o, s, args, 0, None, 0, 0, |s|, v, Leaves(e) + 1, Temporaries(e));
      AtTheEnd(o, s, args, Some(o.neg(v)), Leaves(e) + 1, Temporaries(e) + 1, false);
    } else {
      JoinedCounts(o, e, args, 0);
      ReadJoinedTerm(o, e, s, args, 0, 0, 0, false);
    }
  }

  lemma LetterText(x: string, c: char, y: string)
    ensures var s := x + ([c] + y) + "M"; At(s, 0, x) && |x| < |s| && s[|x|] == c && At(s, |x| + 1, y + "M") && |s| == |x| + |y| + 2
  {
    var s := x + ([c] + y) + "M";
    assert s == x + ([c] + (y + "M"));
    assert s[0..0 + |s|] == s;
    AtSplit(s, 0, x, c, y + "M");
  }

  lemma {:induction false} LetterAfterSum(o: Ops, x: Expr, y: Expr, s: string, args: seq<Value>)
    requires var q := |Sum(x)|;
             At(s, 0, Sum(x)) && q < |s| && (s[q] == '+' || s[q] == '-') && At(s, q + 1, Product(y) + "M") && |s| == q + |Product(y)| + 2
    requires Leaves(x) + Leaves(y) < |args| && Denote(o, x, args, 0).Some? && Denote(o, y, args, Leaves(x)).Some?
    ensures Leaves(JoinedTerm(y)) == Leaves(y) + 1 && Denote(o, JoinedTerm(y), args, Leaves(x)).Some?
    ensures var xv, yv := Denote(o, x, args, 0).value, Denote(o, JoinedTerm(y), args, Leaves(x)).value;
            Recurse(o, s, args, 0, None, 0, 0, false)
            == Out(|s|, Some(if s[|Sum(x)|] == '+' then o.add(xv, yv) else o.sub(xv, yv)), Leaves(x) + Leaves(y) + 1, Temporaries(x) + Temporaries(y) + 2)
  {
    hide Recurse, AfterOperand, Gobble, Primary, Product, Sum, Denote, Leaves, Temporaries, JoinedTerm, At, Ends, NoPostfix;
    var q: nat := |Sum(x)|;
    JoinedCounts(o, y, args, Leaves(x));
    EndsAt(s, q);
    ReadSum(o, x, s, args, 0, 0, 0);
    ReadJoinedTerm(o, y, s, args, q + 1, Leaves(x), Temporaries(x), true);
    LastSign(o, s, args, q, Denote(o, x, args, 0).value, Leaves(x), Temporaries(x), Denote(o, JoinedTerm(y), args, Leaves(x)).value,
             Leaves(x) + Leaves(y) + 1, Temporaries(x) + Temporaries(y) + 1);
  }

  lemma EndsAt(s: string, q: nat)
    requires q < |s| && (s[q] == '+' || s[q] == '-')
    ensures Ends(s, q)
  {
  }

  /** The last sum or difference of a text. */
  lemma LastSign(o: Ops, s: string, args: seq<Value>, q: nat, x: Value, ap: nat, g: nat, y: Value, ap': nat, g': nat)
    requires q < |s| && (s[q] == '+' || s[q] == '-') && Recurse(o, s, args, q + 1, None, ap, g, true) == Out(|s|, Some(y), ap', g')
    ensures Recurse(o, s, args, q, Some(x), ap, g, false) == Out(|s|, Some(if s[q] == '+' then o.add(x, y) else o.sub(x, y)), ap', g' + 1)
  {
    hide Recurse;
    AtSign(o, s, args, q, Some(x), ap, g, |s|, y, ap', g');
    AtTheEnd(o, s, args, Some(if s[q] == '+' then o.add(x, y) else o.sub(x, y)), ap', g' + 1, false);
  }

  /** A space is skipped between operands and operators, but not before a postfix operator. */
  lemma SpaceBeforePostfix(o: Ops, x: Value)
    ensures Recurse(o, "M '", [x], 0, None, 0, 0, false) == Abort
  {
    EndOfOperand(o, "M '", [x], 1, None, x, 1, 0, false);
  }
}
