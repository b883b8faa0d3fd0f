/** Spaces in the text of a matrix expression: where one more makes no difference, and where it
    makes the evaluator fail. */
module MatrixSpaces {
  import opened Wrappers
  import opened MatrixExpr

  predicate IsPostfix(c: char) { c == '\'' || c == '^' }

  /** Position `p` is just before a postfix operator or inside `^-1`. */
  predicate Splits(t: string, p: nat) {
    || (p < |t| && IsPostfix(t[p]))
    || (1 <= p <= |t| && t[p - 1] == '^')
    || (2 <= p <= |t| && t[p - 2] == '^')
  }

  function Spaced(t: string, p: nat): string
    requires p <= |t|
  {
    t[..p] + " " + t[p..]
  }

  /** Where character `i` is once there is a space at `p`. */
  function Moved(i: nat, p: nat): nat { if i < p then i else i + 1 }

  predicate IsSpaced(s: string, t: string, p: nat) {
    && p <= |t| && |s| == |t| + 1 && s[p] == ' '
    && forall i: nat :: i < |t| ==> s[Moved(i, p)] == t[i]
  }

  lemma SpacedIs(t: string, p: nat)
    requires p <= |t|
    ensures IsSpaced(Spaced(t, p), t, p)
  {
  }

  // ----- where a space makes no difference -----

  /** The same place in both texts; the space itself may have been read or not. */
  predicate Near(q: nat, q': nat, p: nat) { (q' == q && q <= p) || (q' == q + 1 && q >= p) }

  /** The same result, but for the position. */
  predicate SameResult(r: Out, r': Out) {
    if r.Abort? || r'.Abort? then r == r' else r.acc == r'.acc && r.argpos == r'.argpos && r.garb == r'.garb
  }

  predicate Like(r: Out, r': Out, p: nat) { SameResult(r, r') && (r.Out? ==> Near(r.pos, r'.pos, p)) }

  lemma {:induction false} GobbleLike(o: Ops, t: string, s: string, p: nat, pos: nat, pos': nat, acc: Option<Value>, ap: nat, g: nat)
    requires IsSpaced(s, t, p) && !Splits(t, p) && pos <= |t| && pos' <= |s| && Near(pos, pos', p)
    ensures Like(Gobble(o, t, pos, acc, ap, g), Gobble(o, s, pos', acc, ap, g), p)
    decreases |t| - pos
  {
    if pos < |t| && pos' == Moved(pos, p) && acc.Some? {
      assert s[pos'] == t[pos];
      if t[pos] == '\'' {
        GobbleLike(o, t, s, p, pos + 1, pos' + 1, Some(o.transpose(acc.value)), ap, g + 1);
      } else if t[pos] == '^' {
        SameExponent(t, s, p, pos, pos');
        if pos + 3 <= |t| && t[pos + 1] == '-' && t[pos + 2] == '1' {
          GobbleLike(o, t, s, p, pos + 3, pos' + 3, o.inverse(acc.value), ap, g + 1);
        }
      }
    }
  }

  lemma SameExponent(t: string, s: string, p: nat, pos: nat, pos': nat)
    requires IsSpaced(s, t, p) && !Splits(t, p) && pos < |t| && t[pos] == '^' && pos' == Moved(pos, p)
    ensures pos + 3 <= |t| <==> pos' + 3 <= |s|
    ensures pos + 3 <= |t| ==> s[pos' + 1] == t[pos + 1] && s[pos' + 2] == t[pos + 2] && Near(pos + 3, pos' + 3, p)
  {
    if pos < p {
      assert p != pos + 1 && p != pos + 2;
    }
    if pos + 3 <= |t| {
      var i, j := pos + 1, pos + 2;
      assert s[Moved(i, p)] == t[i] && s[Moved(j, p)] == t[j];
    }
  }

  lemma {:induction false} AfterOperandLike(o: Ops, t: string, s: string, p: nat, args: seq<Value>, pos: nat, pos': nat,
                                            acc: Option<Value>, rhs: Option<Value>, ap: nat, g: nat, one: bool)
    requires IsSpaced(s, t, p) && !Splits(t, p) && pos <= |t| && pos' <= |s| && Near(pos, pos', p)
    ensures Like(AfterOperand(o, t, args, pos, acc, rhs, ap, g, one), AfterOperand(o, s, args, pos', acc, rhs, ap, g, one), p)
    decreases |t| - pos, |s| - pos', 1
  {
    hide IsSpaced, Splits, Gobble, Recurse;
    GobbleLike(o, t, s, p, pos, pos', rhs, ap, g);
    var r, r' := Gobble(o, t, pos, rhs, ap, g), Gobble(o, s, pos', rhs, ap, g);
    if r.Out? {
      var c := Combine(o, acc, r.acc, r.garb);
      if c.Some? {
        RecurseLike(o, t, s, p, args, r.pos, r'.pos, c.value.0, r.argpos, c.value.1, one);
      }
    }
  }

  lemma {:induction false} AfterTermLike(o: Ops, f: (Value, Value) -> Value, t: string, s: string, p: nat, args: seq<Value>, pos: nat, pos': nat,
                                         a: Value, rhs: Option<Value>, ap: nat, g: nat, one: bool)
    requires IsSpaced(s, t, p) && !Splits(t, p) && pos <= |t| && pos' <= |s| && Near(pos, pos', p)
    ensures Like(AfterTerm(o, f, t, args, pos, a, rhs, ap, g, one), AfterTerm(o, f, s, args, pos', a, rhs, ap, g, one), p)
    decreases |t| - pos, |s| - pos', 1
  {
    hide IsSpaced, Splits, Gobble, Recurse;
    GobbleLike(o, t, s, p, pos, pos', rhs, ap, g);
    var r, r' := Gobble(o, t, pos, rhs, ap, g), Gobble(o, s, pos', rhs, ap, g);
    if r.Out? && r.acc.Some? {
      RecurseLike(o, t, s, p, args, r.pos, r'.pos, Some(f(a, r.acc.value)), r.argpos, r.garb + 1, one);
    }
  }

  lemma {:induction false} AfterMinusLike(o: Ops, t: string, s: string, p: nat, args: seq<Value>, pos: nat, pos': nat,
                                          rhs: Option<Value>, ap: nat, g: nat, one: bool)
    requires IsSpaced(s, t, p) && !Splits(t, p) && pos <= |t| && pos' <= |s| && Near(pos, pos', p)
    ensures Like(AfterMinus(o, t, args, pos, rhs, ap, g, one), AfterMinus(o, s, args, pos', rhs, ap, g, one), p)
    decreases |t| - pos, |s| - pos', 1
  {
    hide IsSpaced, Splits, Gobble, Recurse;
    GobbleLike(o, t, s, p, pos, pos', rhs, ap, g);
    var r, r' := Gobble(o, t, pos, rhs, ap, g), Gobble(o, s, pos', rhs, ap, g);
    if r.Out? && r.acc.Some? {
      RecurseLike(o, t, s, p, args, r.pos, r'.pos, Some(o.neg(r.acc.value)), r.argpos, r.garb + 1, one);
    }
  }

  /** At every place, with every operand so far, both texts lead to the same. */
  lemma {:induction false} RecurseLike(o: Ops, t: string, s: string, p: nat, args: seq<Value>, pos: nat, pos': nat,
                                       acc: Option<Value>, ap: nat, g: nat, one: bool)
    requires IsSpaced(s, t, p) && !Splits(t, p) && pos <= |t| && pos' <= |s| && Near(pos, pos', p)
    ensures Like(Recurse(o, t, args, pos, acc, ap, g, one), Recurse(o, s, args, pos', acc, ap, g, one), p)
    decreases |t| - pos, |s| - pos', 0
  {
    hide Splits, Gobble, AfterOperand, AfterTerm, AfterMinus;
    if pos == pos' == p {
      RecurseLike(o, t, s, p, args, pos, pos' + 1, acc, ap, g, one);
    } else if pos < |t| {
      var c := t[pos];
      assert s[Moved(pos, p)] == c && pos' == Moved(pos, p);
      hide IsSpaced;
      if c == '(' || c == '*' || c == '+' || c == '-' {
        OperatorLike(o, t, s, p, args, pos, pos', acc, ap, g, one);
      } else if IsArg(c) {
        if ap < |args| {
          AfterOperandLike(o, t, s, p, args, pos + 1, pos' + 1, acc, Some(args[ap]), ap + 1, if c == 'F' then g + 1 else g, one);
        }
      } else if c == ' ' {
        RecurseLike(o, t, s, p, args, pos + 1, pos' + 1, acc, ap, g, one);
      }
    }
  }

  lemma {:induction false} OperatorLike(o: Ops, t: string, s: string, p: nat, args: seq<Value>, pos: nat, pos': nat,
                                        acc: Option<Value>, ap: nat, g: nat, one: bool)
    requires IsSpaced(s, t, p) && !Splits(t, p) && pos < |t| && pos' < |s| && Near(pos + 1, pos' + 1, p) && s[pos'] == t[pos]
    requires var c := t[pos]; c == '(' || c == '*' || c == '+' || c == '-'
    requires Near(pos, pos', p)
    ensures Like(Recurse(o, t, args, pos, acc, ap, g, one), Recurse(o, s, args, pos', acc, ap, g, one), p)
    decreases |t| - pos - 1, |s| + 1, 0
  {
    hide IsSpaced, Splits, Gobble, AfterOperand, AfterTerm, AfterMinus;
    var c := t[pos];
    RecurseLike(o, t, s, p, args, pos + 1, pos' + 1, None, ap, g, c != '(');
    var r, r' := Recurse(o, t, args, pos + 1, None, ap, g, c != '('), Recurse(o, s, args, pos' + 1, None, ap, g, c != '(');
    if r.Out? {
      if c == '(' || c == '*' {
        AfterOperandLike(o, t, s, p, args, r.pos, r'.pos, acc, r.acc, r.argpos, r.garb, one);
      } else if acc.Some? {
        AfterTermLike(o, if c == '+' then o.add else o.sub, t, s, p, args, r.pos, r'.pos, acc.value, r.acc, r.argpos, r.garb, one);
      } else {
        AfterMinusLike(o, t, s, p, args, r.pos, r'.pos, r.acc, r.argpos, r.garb, one);
      }
    }
  }

  // ----- where it does -----

  /** The postfix operator at `c` is cut off or cut apart. */
  predicate Cuts(t: string, p: nat, c: nat) {
    c < |t| && p <= |t| && IsPostfix(t[c]) && (p == c || (t[c] == '^' && (p == c + 1 || p == c + 2)))
  }

  lemma SameBefore(s: string, t: string, p: nat, i: nat)
    requires IsSpaced(s, t, p) && i < p
    ensures s[i] == t[i]
  {
    assert s[Moved(i, p)] == t[i];
  }

  lemma {:induction false} GobbleBreaks(o: Ops, t: string, s: string, p: nat, c: nat, pos: nat, acc: Option<Value>, ap: nat, g: nat)
    requires IsSpaced(s, t, p) && Cuts(t, p, c) && pos <= c && Gobble(o, t, pos, acc, ap, g).Out?
    ensures var r, r' := Gobble(o, t, pos, acc, ap, g), Gobble(o, s, pos, acc, ap, g);
            (r.pos < c && r' == r) || (r.pos > c && (r'.Abort? || r'.pos == p == c))
    decreases |t| - pos
  {
    if pos < c {
      SameBefore(s, t, p, pos);
      if t[pos] == '\'' {
        GobbleBreaks(o, t, s, p, c, pos + 1, Some(o.transpose(acc.value)), ap, g + 1);
      } else if t[pos] == '^' {
        assert c != pos + 1 && c != pos + 2;
        SameBefore(s, t, p, pos + 1);
        SameBefore(s, t, p, pos + 2);
        GobbleBreaks(o, t, s, p, c, pos + 3, o.inverse(acc.value), ap, g + 1);
      }
    } else if c < p {
      SameBefore(s, t, p, c);
      if p == c + 2 { SameBefore(s, t, p, c + 1); }
    }
  }

  /** Once its operand is gone the evaluator fails at the postfix operator. */
  lemma Stuck(o: Ops, t: string, s: string, p: nat, args: seq<Value>, acc: Option<Value>, ap: nat, g: nat, one: bool)
    requires IsSpaced(s, t, p) && Cuts(t, p, p)
    ensures Recurse(o, s, args, p, acc, ap, g, one) == Abort
  {
    hide AfterOperand, AfterTerm, AfterMinus, Gobble;
    assert s[Moved(p, p)] == t[p];
    assert Recurse(o, s, args, p + 1, acc, ap, g, one) == Abort;
  }

  /** The evaluator either never gets past `c`, in both texts alike, or fails in the one with the
      space. */
  predicate Breaks(r: Out, r': Out, c: nat) { r.Out? ==> if r.pos <= c then r' == r else r' == Abort }

  lemma {:induction false} AfterOperandBreaks(o: Ops, t: string, s: string, p: nat, c: nat, args: seq<Value>, pos: nat,
                                              acc: Option<Value>, rhs: Option<Value>, ap: nat, g: nat, one: bool)
    requires IsSpaced(s, t, p) && Cuts(t, p, c) && pos <= c
    ensures Breaks(AfterOperand(o, t, args, pos, acc, rhs, ap, g, one), AfterOperand(o, s, args, pos, acc, rhs, ap, g, one), c)
    decreases |t| - pos, 1
  {
    hide Gobble, Recurse;
    var r, r' := Gobble(o, t, pos, rhs, ap, g), Gobble(o, s, pos, rhs, ap, g);
    if r.Out? {
      GobbleBreaks(o, t, s, p, c, pos, rhs, ap, g);
      if r'.Out? {
        var x := Combine(o, acc, r'.acc, r'.garb);
        if x.Some? && r.pos < c {
          RecurseBreaks(o, t, s, p, c, args, r.pos, x.value.0, r.argpos, x.value.1, one);
        } else if x.Some? {
          Stuck(o, t, s, p, args, x.value.0, r'.argpos, x.value.1, one);
        }
      }
    }
  }

  lemma {:induction false} AfterTermBreaks(o: Ops, f: (Value, Value) -> Value, t: string, s: string, p: nat, c: nat, args: seq<Value>, pos: nat,
                                           a: Value, rhs: Option<Value>, ap: nat, g: nat, one: bool)
    requires IsSpaced(s, t, p) && Cuts(t, p, c) && pos <= c
    ensures Breaks(AfterTerm(o, f, t, args, pos, a, rhs, ap, g, one), AfterTerm(o, f, s, args, pos, a, rhs, ap, g, one), c)
    decreases |t| - pos, 1
  {
    hide Gobble, Recurse;
    var r, r' := Gobble(o, t, pos, rhs, ap, g), Gobble(o, s, pos, rhs, ap, g);
    if r.Out? {
      GobbleBreaks(o, t, s, p, c, pos, rhs, ap, g);
      if r'.Out? && r'.acc.Some? {
        if r.pos < c {
          RecurseBreaks(o, t, s, p, c, args, r.pos, Some(f(a, r.acc.value)), r.argpos, r.garb + 1, one);
        } else {
          Stuck(o, t, s, p, args, Some(f(a, r'.acc.value)), r'.argpos, r'.garb + 1, one);
        }
      }
    }
  }

  lemma {:induction false} AfterMinusBreaks(o: Ops, t: string, s: string, p: nat, c: nat, args: seq<Value>, pos: nat,
                                            rhs: Option<Value>, ap: nat, g: nat, one: bool)
    requires IsSpaced(s, t, p) && Cuts(t, p, c) && pos <= c
    ensures Breaks(AfterMinus(o, t, args, pos, rhs, ap, g, one), AfterMinus(o, s, args, pos, rhs, ap, g, one), c)
    decreases |t| - pos, 1
  {
    hide Gobble, Recurse;
    var r, r' := Gobble(o, t, pos, rhs, ap, g), Gobble(o, s, pos, rhs, ap, g);
    if r.Out? {
      GobbleBreaks(o, t, s, p, c, pos, rhs, ap, g);
      if r'.Out? && r'.acc.Some? {
        if r.pos < c {
          RecurseBreaks(o, t, s, p, c, args, r.pos, Some(o.neg(r.acc.value)), r.argpos, r.garb + 1, one);
        } else {
          Stuck(o, t, s, p, args, Some(o.neg(r'.acc.value)), r'.argpos, r'.garb + 1, one);
        }
      }
    }
  }

  lemma {:induction false} RecurseBreaks(o: Ops, t: string, s: string, p: nat, c: nat, args: seq<Value>, pos: nat,
                                         acc: Option<Value>, ap: nat, g: nat, one: bool)
    requires IsSpaced(s, t, p) && Cuts(t, p, c) && pos <= c
    ensures Breaks(Recurse(o, t, args, pos, acc, ap, g, one), Recurse(o, s, args, pos, acc, ap, g, one), c)
    decreases |t| - pos, 0
  {
    hide Gobble, AfterOperand, AfterTerm, AfterMinus;
    if pos < c {
      var x := t[pos];
      SameBefore(s, t, p, pos);
      hide IsSpaced;
      if x == '(' || x == '*' || x == '+' || x == '-' {
        RecurseBreaks(o, t, s, p, c, args, pos + 1, None, ap, g, x != '(');
        var r := Recurse(o, t, args, pos + 1, None, ap, g, x != '(');
        if r.Out? && r.pos <= c {
          if x == '(' || x == '*' {
            AfterOperandBreaks(o, t, s, p, c, args, r.pos, acc, r.acc, r.argpos, r.garb, one);
          } else if acc.Some? {
            AfterTermBreaks(o, if x == '+' then o.add else o.sub, t, s, p, c, args, r.pos, acc.value, r.acc, r.argpos, r.garb, one);
          } else {
            AfterMinusBreaks(o, t, s, p, c, args, r.pos, r.acc, r.argpos, r.garb, one);
          }
        }
      } else if IsArg(x) {
        if ap < |args| {
          AfterOperandBreaks(o, t, s, p, c, args, pos + 1, acc, Some(args[ap]), ap + 1, if x == 'F' then g + 1 else g, one);
        }
      } else if x == ' ' {
        RecurseBreaks(o, t, s, p, c, args, pos + 1, acc, ap, g, one);
      }
    }
  }

  // ----- the condition -----

  /** A space anywhere but before or inside a postfix operator changes nothing, in any text, not even
      in one that the evaluator rejects. */
  lemma HarmlessSpace(o: Ops, t: string, p: nat, args: seq<Value>)
    requires p <= |t| && !Splits(t, p)
    ensures SameResult(Recurse(o, t, args, 0, None, 0, 0, false), Recurse(o, Spaced(t, p), args, 0, None, 0, 0, false))
  {
    hide Recurse, IsSpaced, Spaced;
    SpacedIs(t, p);
    RecurseLike(o, t, Spaced(t, p), p, args, 0, 0, None, 0, 0, false);
  }

  /** The header says that whitespace is ignored.  In a text that is read to its end one more space
      is, exactly when it stands neither before a postfix operator nor inside one. */
  lemma SpaceIsIgnoredExactly(o: Ops, t: string, p: nat, args: seq<Value>)
    requires p <= |t| && var r := Recurse(o, t, args, 0, None, 0, 0, false); r.Out? && r.pos == |t|
    ensures SameResult(Recurse(o, t, args, 0, None, 0, 0, false), Recurse(o, Spaced(t, p), args, 0, None, 0, 0, false)) <==> !Splits(t, p)
  {
    hide Recurse, IsSpaced, Spaced;
    if Splits(t, p) {
      var c: nat := if p < |t| && IsPostfix(t[p]) then p else if p >= 1 && t[p - 1] == '^' then p - 1 else p - 2;
      assert Cuts(t, p, c);
      SpacedIs(t, p);
      RecurseBreaks(o, t, Spaced(t, p), p, c, args, 0, None, 0, 0, false);
    } else {
      HarmlessSpace(o, t, p, args);
    }
  }
}
