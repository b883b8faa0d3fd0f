/** The evaluator of matrix expressions given as text: recursive descent over the characters, with
    the position, the next argument and the list of temporaries advanced along the way. */
module MatrixExpr {
  import opened Wrappers

  /** A matrix; what the operations do to it is left open. */
  type Value(==, !new)

  datatype Ops = Ops(mul: (Value, Value) -> Value, add: (Value, Value) -> Value, sub: (Value, Value) -> Value,
                     neg: Value -> Value, transpose: Value -> Value, inverse: Value -> Option<Value>)

  /** What a call comes back with, or the failure of one of the program's assertions. */
  datatype Out = Out(pos: nat, acc: Option<Value>, argpos: nat, garb: nat) | Abort

  predicate IsArg(c: char) { c == 'M' || c == 'F' }

  // ----- the evaluator as a function of the text -----

  /** `matd_op_gobble_right` */
  function Gobble(o: Ops, expr: string, pos: nat, acc: Option<Value>, argpos: nat, garb: nat): (r: Out)
    requires pos <= |expr|
    ensures r.Out? ==> pos <= r.pos <= |expr|
    decreases |expr| - pos
  {
    if pos == |expr| then Out(pos, acc, argpos, garb)
    else if expr[pos] == '\'' then
      (match acc
       case None => Abort
       case Some(v) => Gobble(o, expr, pos + 1, Some(o.transpose(v)), argpos, garb + 1))
    else if expr[pos] == '^' then
      (match acc
       case None => Abort
       case Some(v) =>
         if pos + 3 <= |expr| && expr[pos + 1] == '-' && expr[pos + 2] == '1'
         then Gobble(o, expr, pos + 3, o.inverse(v), argpos, garb + 1)
         else Abort)
    else Out(pos, acc, argpos, garb)
  }

  /** Multiplies what there is by the operand, or starts with it. */
  function Combine(o: Ops, acc: Option<Value>, rhs: Option<Value>, garb: nat): Option<(Option<Value>, nat)> {
    match (acc, rhs)
    case (None, _) => Some((rhs, garb))
    case (Some(a), Some(b)) => Some((Some(o.mul(a, b)), garb + 1))
    case (Some(_), None) => None
  }

  /** An operand was read: its postfix operators follow, and then the rest. */
  function AfterOperand(o: Ops, expr: string, args: seq<Value>, pos: nat, acc: Option<Value>, rhs: Option<Value>,
                        argpos: nat, garb: nat, oneterm: bool): (r: Out)
    requires pos <= |expr|
    ensures r.Out? ==> pos <= r.pos <= |expr|
    decreases |expr| - pos, 1
  {
    match Gobble(o, expr, pos, rhs, argpos, garb)
    case Abort => Abort
    case Out(p, v, ap, g) =>
      match Combine(o, acc, v, g)
      case None => Abort
      case Some(r) => Recurse(o, expr, args, p, r.0, ap, r.1, oneterm)
  }

  /** The operand of a sum was read: its postfix operators, the operation, and the rest. */
  function AfterTerm(o: Ops, f: (Value, Value) -> Value, expr: string, args: seq<Value>, pos: nat, a: Value, rhs: Option<Value>,
                     argpos: nat, garb: nat, oneterm: bool): (r: Out)
    requires pos <= |expr|
    ensures r.Out? ==> pos <= r.pos <= |expr|
    decreases |expr| - pos, 1
  {
    match Gobble(o, expr, pos, rhs, argpos, garb)
    case Abort => Abort
    case Out(p, v, ap, g) =>
      match v
      case None => Abort
      case Some(b) => Recurse(o, expr, args, p, Some(f(a, b)), ap, g + 1, oneterm)
  }

  /** The operand of a unary minus was read. */
  function AfterMinus(o: Ops, expr: string, args: seq<Value>, pos: nat, rhs: Option<Value>, argpos: nat, garb: nat, oneterm: bool): (r: Out)
    requires pos <= |expr|
    ensures r.Out? ==> pos <= r.pos <= |expr|
    decreases |expr| - pos, 1
  {
    match Gobble(o, expr, pos, rhs, argpos, garb)
    case Abort => Abort
    case Out(p, v, ap, g) =>
      match v
      case None => Abort
      case Some(b) => Recurse(o, expr, args, p, Some(o.neg(b)), ap, g + 1, oneterm)
  }

  /** `matd_op_recurse`; inline constants are not modelled. */
  function Recurse(o: Ops, expr: string, args: seq<Value>, pos: nat, acc: Option<Value>, argpos: nat, garb: nat, oneterm: bool): (r: Out)
    requires pos <= |expr|
    ensures r.Out? ==> pos <= r.pos <= |expr|
    decreases |expr| - pos, 0
  {
    if pos == |expr| then Out(pos, acc, argpos, garb)
    else
      var c := expr[pos];
      if c == '(' then
        if oneterm && acc.Some? then Out(pos, acc, argpos, garb)
        else
          (match Recurse(o, expr, args, pos + 1, None, argpos, garb, false)
           case Abort => Abort
           case Out(p, v, ap, g) => AfterOperand(o, expr, args, p, acc, v, ap, g, oneterm))
      else if c == ')' then
        Out(if oneterm then pos else pos + 1, acc, argpos, garb)
      else if c == '*' then
        (match Recurse(o, expr, args, pos + 1, None, argpos, garb, true)
         case Abort => Abort
         case Out(p, v, ap, g) => AfterOperand(o, expr, args, p, acc, v, ap, g, oneterm))
      else if IsArg(c) then
        if argpos < |args| then
          AfterOperand(o, expr, args, pos + 1, acc, Some(args[argpos]), argpos + 1, if c == 'F' then garb + 1 else garb, oneterm)
        else Abort
      else if c == '+' then
        (match acc
         case None => Abort
         case Some(a) =>
           if oneterm then Out(pos, acc, argpos, garb)
           else
             match Recurse(o, expr, args, pos + 1, None, argpos, garb, true)
             case Abort => Abort
             case Out(p, v, ap, g) => AfterTerm(o, o.add, expr, args, p, a, v, ap, g, oneterm))
      else if c == '-' then
        (match acc
         case None =>
           (match Recurse(o, expr, args, pos + 1, None, argpos, garb, true)
            case Abort => Abort
            case Out(p, v, ap, g) => AfterMinus(o, expr, args, p, v, ap, g, oneterm))
         case Some(a) =>
           if oneterm then Out(pos, acc, argpos, garb)
           else
             match Recurse(o, expr, args, pos + 1, None, argpos, garb, true)
             case Abort => Abort
             case Out(p, v, ap, g) => AfterTerm(o, o.sub, expr, args, p, a, v, ap, g, oneterm))
      else if c == ' ' then Recurse(o, expr, args, pos + 1, acc, argpos, garb, oneterm)
      else Abort
  }

  // ----- for every text -----

  function CountArgs(expr: string, lo: nat, hi: nat): nat
    requires lo <= hi <= |expr|
    decreases hi - lo
  {
    if lo == hi then 0 else (if IsArg(expr[lo]) then 1 else 0) + CountArgs(expr, lo + 1, hi)
  }

  lemma {:induction false} CountSplit(expr: string, lo: nat, mid: nat, hi: nat)
    requires lo <= mid <= hi <= |expr|
    ensures CountArgs(expr, lo, hi) == CountArgs(expr, lo, mid) + CountArgs(expr, mid, hi)
    decreases mid - lo
  {
    if lo < mid { CountSplit(expr, lo + 1, mid, hi); }
  }

  /** What came back accounts for the text between: one argument for each letter and at most two
      temporaries for each character. */
  predicate Accounts(expr: string, pos: nat, argpos: nat, garb: nat, r: Out) {
    r.Out? ==>
      && pos <= r.pos <= |expr|
      && r.argpos == argpos + CountArgs(expr, pos, r.pos)
      && garb <= r.garb <= garb + 2 * (r.pos - pos)
  }

  lemma AccountsTrans(expr: string, pos: nat, argpos: nat, garb: nat, p: nat, ap: nat, g: nat, r: Out)
    requires pos <= p <= |expr| && ap == argpos + CountArgs(expr, pos, p) && garb <= g <= garb + 2 * (p - pos)
    requires Accounts(expr, p, ap, g, r)
    ensures Accounts(expr, pos, argpos, garb, r)
  {
    if r.Out? { CountSplit(expr, pos, p, r.pos); }
  }

  lemma {:induction false} GobbleAccounts(o: Ops, expr: string, pos: nat, acc: Option<Value>, argpos: nat, garb: nat)
    requires pos <= |expr|
    ensures var r := Gobble(o, expr, pos, acc, argpos, garb);
            r.Out? ==> r.argpos == argpos && CountArgs(expr, pos, r.pos) == 0 && garb <= r.garb <= garb + (r.pos - pos)
    decreases |expr| - pos
  {
    if pos < |expr| && acc.Some? {
      if expr[pos] == '\'' {
        GobbleAccounts(o, expr, pos + 1, Some(o.transpose(acc.value)), argpos, garb + 1);
      } else if expr[pos] == '^' && pos + 3 <= |expr| && expr[pos + 1] == '-' && expr[pos + 2] == '1' {
        var r := Gobble(o, expr, pos + 3, o.inverse(acc.value), argpos, garb + 1);
        GobbleAccounts(o, expr, pos + 3, o.inverse(acc.value), argpos, garb + 1);
        if r.Out? {
          CountSplit(expr, pos, pos + 3, r.pos);
          assert CountArgs(expr, pos + 2, pos + 3) == 0;
          assert CountArgs(expr, pos + 1, pos + 3) == 0;
        }
      }
    }
  }

  lemma {:induction false} AfterOperandAccounts(o: Ops, expr: string, args: seq<Value>, pos: nat, acc: Option<Value>, rhs: Option<Value>,
                                                argpos: nat, garb: nat, oneterm: bool, p0: nat, argpos0: nat, garb0: nat)
    requires p0 < pos <= |expr| && argpos == argpos0 + CountArgs(expr, p0, pos) && garb0 <= garb < garb0 + 2 * (pos - p0)
    ensures Accounts(expr, p0, argpos0, garb0, AfterOperand(o, expr, args, pos, acc, rhs, argpos, garb, oneterm))
    decreases |expr| - pos, 1
  {
    hide Gobble, Recurse;
    GobbleAccounts(o, expr, pos, rhs, argpos, garb);
    match Gobble(o, expr, pos, rhs, argpos, garb)
    case Abort =>
    case Out(p, v, ap, g) =>
      match Combine(o, acc, v, g)
      case None =>
      case Some(c) =>
        RecurseAccounts(o, expr, args, p, c.0, ap, c.1, oneterm);
        CountSplit(expr, p0, pos, p);
        AccountsTrans(expr, p0, argpos0, garb0, p, ap, c.1, Recurse(o, expr, args, p, c.0, ap, c.1, oneterm));
  }

  lemma {:induction false} AfterTermAccounts(o: Ops, f: (Value, Value) -> Value, expr: string, args: seq<Value>, pos: nat, a: Value, rhs: Option<Value>,
                                             argpos: nat, garb: nat, oneterm: bool, p0: nat, argpos0: nat, garb0: nat)
    requires p0 < pos <= |expr| && argpos == argpos0 + CountArgs(expr, p0, pos) && garb0 <= garb < garb0 + 2 * (pos - p0)
    ensures Accounts(expr, p0, argpos0, garb0, AfterTerm(o, f, expr, args, pos, a, rhs, argpos, garb, oneterm))
    decreases |expr| - pos, 1
  {
    hide Gobble, Recurse;
    GobbleAccounts(o, expr, pos, rhs, argpos, garb);
    match Gobble(o, expr, pos, rhs, argpos, garb)
    case Abort =>
    case Out(p, v, ap, g) =>
      if v.Some? {
        RecurseAccounts(o, expr, args, p, Some(f(a, v.value)), ap, g + 1, oneterm);
        CountSplit(expr, p0, pos, p);
        AccountsTrans(expr, p0, argpos0, garb0, p, ap, g + 1, Recurse(o, expr, args, p, Some(f(a, v.value)), ap, g + 1, oneterm));
      }
  }

  lemma {:induction false} AfterMinusAccounts(o: Ops, expr: string, args: seq<Value>, pos: nat, rhs: Option<Value>,
                                              argpos: nat, garb: nat, oneterm: bool, p0: nat, argpos0: nat, garb0: nat)
    requires p0 < pos <= |expr| && argpos == argpos0 + CountArgs(expr, p0, pos) && garb0 <= garb < garb0 + 2 * (pos - p0)
    ensures Accounts(expr, p0, argpos0, garb0, AfterMinus(o, expr, args, pos, rhs, argpos, garb, oneterm))
    decreases |expr| - pos, 1
  {
    hide Gobble, Recurse;
    GobbleAccounts(o, expr, pos, rhs, argpos, garb);
    match Gobble(o, expr, pos, rhs, argpos, garb)
    case Abort =>
    case Out(p, v, ap, g) =>
      if v.Some? {
        RecurseAccounts(o, expr, args, p, Some(o.neg(v.value)), ap, g + 1, oneterm);
        CountSplit(expr, p0, pos, p);
        AccountsTrans(expr, p0, argpos0, garb0, p, ap, g + 1, Recurse(o, expr, args, p, Some(o.neg(v.value)), ap, g + 1, oneterm));
      }
  }

  /** For every text: each letter takes one argument, in order, and the temporaries fit into the
      space reserved for them. */
  lemma {:induction false} RecurseAccounts(o: Ops, expr: string, args: seq<Value>, pos: nat, acc: Option<Value>, argpos: nat, garb: nat, oneterm: bool)
    requires pos <= |expr|
    ensures Accounts(expr, pos, argpos, garb, Recurse(o, expr, args, pos, acc, argpos, garb, oneterm))
    decreases |expr| - pos, 0
  {
    hide Gobble, AfterOperand, AfterTerm, AfterMinus;
    if pos < |expr| {
      var c := expr[pos];
      assert CountArgs(expr, pos, pos + 1) == if IsArg(c) then 1 else 0;
      if c == '(' || c == '*' || c == '+' || c == '-' {
        var inner := Recurse(o, expr, args, pos + 1, None, argpos, garb, c != '(');
        RecurseAccounts(o, expr, args, pos + 1, None, argpos, garb, c != '(');
        if inner.Out? {
          CountSplit(expr, pos, pos + 1, inner.pos);
          if c == '(' || c == '*' {
            AfterOperandAccounts(o, expr, args, inner.pos, acc, inner.acc, inner.argpos, inner.garb, oneterm, pos, argpos, garb);
          } else if acc.Some? {
            AfterTermAccounts(o, if c == '+' then o.add else o.sub, expr, args, inner.pos, acc.value, inner.acc, inner.argpos, inner.garb, oneterm, pos, argpos, garb);
          } else {
            AfterMinusAccounts(o, expr, args, inner.pos, inner.acc, inner.argpos, inner.garb, oneterm, pos, argpos, garb);
          }
        }
      } else if IsArg(c) {
        if argpos < |args| {
          AfterOperandAccounts(o, expr, args, pos + 1, acc, Some(args[argpos]), argpos + 1, if c == 'F' then garb + 1 else garb, oneterm, pos, argpos, garb);
        }
      } else if c == ' ' {
        RecurseAccounts(o, expr, args, pos + 1, acc, argpos, garb, oneterm);
        AccountsTrans(expr, pos, argpos, garb, pos + 1, argpos, garb, Recurse(o, expr, args, pos + 1, acc, argpos, garb, oneterm));
      }
    }
  }

  // ----- the evaluator on its own state -----

  /** The evaluator with its position, next argument and number of temporaries. */
  class Evaluator {
    const o: Ops
    const expr: string
    const args: seq<Value>
    var pos: nat
    var argpos: nat
    var garb: seq<Value>
    var aborted: bool

    constructor (o: Ops, expr: string, args: seq<Value>)
      ensures this.o == o && this.expr == expr && this.args == args
      ensures pos == argpos == 0 && garb == [] && !aborted
    {
      this.o, this.expr, this.args := o, expr, args;
      pos, argpos, garb, aborted := 0, 0, [], false;
    }

    /** The state is what the function says. */
    ghost predicate Is(r: Out, acc: Option<Value>)
      reads this
    {
      if r.Abort? then aborted else !aborted && r == Out(pos, acc, argpos, |garb|)
    }

    method Keep(v: Value)
      modifies this`garb
      ensures |garb| == |old(garb)| + 1
    {
      garb := garb + [v];
    }

    /** Handles the operators to the right of an operand. */
    method GobbleRight(start: Option<Value>) returns (acc: Option<Value>)
      requires !aborted && pos <= |expr|
      modifies this
      ensures Is(Gobble(o, expr, old(pos), start, old(argpos), |old(garb)|), acc)
    {
      acc := start;
      ghost var goal := Gobble(o, expr, pos, start, argpos, |garb|);
      while pos < |expr|
        invariant !aborted && pos <= |expr| && goal == Gobble(o, expr, pos, acc, argpos, |garb|)
        decreases |expr| - pos
      {
        if expr[pos] == '\'' {
          if acc.None? {
            aborted := true;
            return;
          }
          var res := o.transpose(acc.value);
          Keep(res);
          acc := Some(res);
          pos := pos + 1;
        } else if expr[pos] == '^' {
          if acc.None? || !(pos + 3 <= |expr| && expr[pos + 1] == '-' && expr[pos + 2] == '1') {
            aborted := true;
            return;
          }
          var res := o.inverse(acc.value);
          Keep(if res.Some? then res.value else acc.value);
          acc := res;
          pos := pos + 3;
        } else {
          return;
        }
      }
    }

    /** Multiplies by an operand, or starts with it. */
    method Multiply(acc: Option<Value>, rhs: Option<Value>) returns (r: Option<Value>)
      requires !aborted
      modifies this`garb, this`aborted
      ensures match Combine(o, acc, rhs, |old(garb)|)
              case None => aborted
              case Some(c) => !aborted && r == c.0 && |garb| == c.1
    {
      if acc.None? {
        return rhs;
      }
      if rhs.None? {
        aborted := true;
        return None;
      }
      var res := o.mul(acc.value, rhs.value);
      Keep(res);
      return Some(res);
    }

    /** The main recursion. */
    method Evaluate(start: Option<Value>, oneterm: bool) returns (acc: Option<Value>)
      requires !aborted && pos <= |expr|
      modifies this
      ensures Is(Recurse(o, expr, args, old(pos), start, old(argpos), |old(garb)|, oneterm), acc)
      decreases |expr| - pos
    {
      hide Gobble, Combine;
      acc := start;
      ghost var goal := Recurse(o, expr, args, pos, start, argpos, |garb|, oneterm);
      while pos < |expr|
        invariant !aborted && old(pos) <= pos <= |expr| && goal == Recurse(o, expr, args, pos, acc, argpos, |garb|, oneterm)
        decreases |expr| - pos
      {
        var c := expr[pos];
        if c == ')' {
          if !oneterm { pos := pos + 1; }
          return;
        } else if oneterm && acc.Some? && (c == '(' || c == '+' || c == '-') {
          return;
        } else if c == ' ' {
          pos := pos + 1;
        } else if c == '(' || c == '*' {
          acc := Factor(acc, c, oneterm);
          if aborted { return; }
        } else if IsArg(c) {
          acc := Argument(acc, c, oneterm);
          if aborted { return; }
        } else if c == '+' || c == '-' {
          acc := Summand(acc, c, oneterm);
          if aborted { return; }
        } else {
          aborted := true;
          return;
        }
      }
    }

    /** A product with what is in parentheses or after the star. */
    method Factor(acc: Option<Value>, c: char, ghost oneterm: bool) returns (r: Option<Value>)
      requires !aborted && pos < |expr| && expr[pos] == c && (c == '(' || c == '*') && (c == '(' && oneterm ==> acc.None?)
      modifies this
      ensures old(pos) < pos <= |expr| || aborted
      ensures Recurse(o, expr, args, old(pos), acc, old(argpos), |old(garb)|, oneterm)
              == if aborted then Abort else Recurse(o, expr, args, pos, r, argpos, |garb|, oneterm)
      decreases |expr| - pos, 0
    {
      hide Gobble, Combine;
      pos := pos + 1;
      r := None;
      var rhs := Evaluate(None, c == '*');
      if !aborted {
        rhs := GobbleRight(rhs);
        if !aborted {
          r := Multiply(acc, rhs);
        }
      }
    }

    /** A product with the next argument. */
    method Argument(acc: Option<Value>, c: char, ghost oneterm: bool) returns (r: Option<Value>)
      requires !aborted && pos < |expr| && expr[pos] == c && IsArg(c)
      modifies this
      ensures old(pos) < pos <= |expr| || aborted
      ensures Recurse(o, expr, args, old(pos), acc, old(argpos), |old(garb)|, oneterm)
              == if aborted then Abort else Recurse(o, expr, args, pos, r, argpos, |garb|, oneterm)
    {
      hide Gobble, Combine;
      r := None;
      if argpos >= |args| {
        aborted := true;
        return;
      }
      var rhs := args[argpos];
      if c == 'F' { Keep(rhs); }
      pos := pos + 1;
      argpos := argpos + 1;
      var v := GobbleRight(Some(rhs));
      if !aborted {
        r := Multiply(acc, v);
      }
    }

    /** A sum or difference with the next term, or a minus sign before it. */
    method Summand(acc: Option<Value>, c: char, ghost oneterm: bool) returns (r: Option<Value>)
      requires !aborted && pos < |expr| && expr[pos] == c && (c == '+' || c == '-') && (oneterm ==> acc.None?)
      modifies this
      ensures old(pos) < pos <= |expr| || aborted
      ensures Recurse(o, expr, args, old(pos), acc, old(argpos), |old(garb)|, oneterm)
              == if aborted then Abort else Recurse(o, expr, args, pos, r, argpos, |garb|, oneterm)
      decreases |expr| - pos, 0
    {
      hide Gobble, Combine;
      r := None;
      if c == '+' && acc.None? {
        aborted := true;
        return;
      }
      pos := pos + 1;
      var rhs := Evaluate(None, true);
      if aborted { return; }
      rhs := GobbleRight(rhs);
      if aborted { return; }
      if rhs.None? {
        aborted := true;
        return;
      }
      var res := if acc.None? then o.neg(rhs.value) else if c == '+' then o.add(acc.value, rhs.value) else o.sub(acc.value, rhs.value);
      Keep(res);
      r := Some(res);
    }
  }
}
