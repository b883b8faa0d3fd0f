/** Who has which index of one producer's sub-queue: published, claimed by a consumer, read and
    given back.  This is the history that both kinds of producer are checked against. */
module Claims {

  /** The element type; elements are only moved. */
  type Elem(==, !new)

  /** An index is still to be claimed, claimed and not given back, or given back. */
  datatype Stage = Ready | Held(t: nat) | Gone

  /** A consumer's claim `[first, hi)`: it has read up to `pos` and given back up to `start`. */
  datatype Span = Span(first: nat, start: nat, pos: nat, hi: nat, got: seq<Elem>)

  datatype State = State(head: nat, vals: seq<Elem>, stage: seq<Stage>, spans: seq<Span>)

  function Publish(c: State, vs: seq<Elem>): State {
    c.(vals := c.vals + vs, stage := c.stage + seq(|vs|, _ => Ready))
  }

  function Take(c: State, t: nat, n: nat): State
    requires t < |c.spans|
  {
    c.(head := c.head + n,
       stage := Paint(c.stage, c.head, n, Held(t)),
       spans := c.spans[t := Span(c.head, c.head, c.head, c.head + n, [])])
  }

  /** Sets `n` stages from `lo` on, where there are that many. */
  function Paint(stage: seq<Stage>, lo: nat, n: nat, x: Stage): seq<Stage> {
    if lo + n <= |stage| then stage[..lo] + seq(n, _ => x) + stage[lo + n..] else stage
  }

  function Read(c: State, t: nat, v: Elem): State
    requires t < |c.spans|
  {
    var p := c.spans[t];
    c.(spans := c.spans[t := p.(pos := p.pos + 1, got := p.got + [v])])
  }

  function GiveBack(c: State, t: nat): State
    requires t < |c.spans|
  {
    var p := c.spans[t];
    c.(stage := if p.start <= p.pos then Paint(c.stage, p.start, p.pos - p.start, Gone) else c.stage,
       spans := c.spans[t := p.(start := p.pos)])
  }

  predicate SpanOk(c: State, t: nat)
    requires t < |c.spans|
  {
    var p := c.spans[t];
    && p.first <= p.start <= p.pos <= p.hi <= c.head <= |c.vals| == |c.stage|
    && p.got == c.vals[p.first..p.pos]
    && (forall i :: p.start <= i < p.hi ==> c.stage[i] == Held(t))
  }

  predicate StageOk(c: State, i: nat)
    requires i < |c.stage|
  {
    && (c.stage[i] == Ready <==> i >= c.head)
    && (c.stage[i].Held? ==> c.stage[i].t < |c.spans| && c.spans[c.stage[i].t].start <= i < c.spans[c.stage[i].t].hi)
  }

  predicate Inv(c: State) {
    && c.head <= |c.vals| == |c.stage|
    && (forall t :: 0 <= t < |c.spans| ==> SpanOk(c, t))
    && (forall i :: 0 <= i < |c.stage| ==> StageOk(c, i))
  }

  /** Index `i` has been given back. */
  predicate IsGone(c: State, i: nat) { i < |c.stage| && c.stage[i] == Gone }

  /** Index `i` is published and nobody has read it yet. */
  predicate Unread(c: State, i: nat) {
    && i < |c.stage|
    && (c.stage[i] == Ready
        || (c.stage[i].Held? && c.stage[i].t < |c.spans| && c.spans[c.stage[i].t].pos <= i))
  }

  lemma PublishKeeps(c: State, vs: seq<Elem>)
    requires Inv(c)
    ensures Inv(Publish(c, vs))
    ensures forall i: nat :: IsGone(Publish(c, vs), i) <==> IsGone(c, i)
    ensures forall i: nat :: Unread(Publish(c, vs), i) <==> Unread(c, i) || |c.vals| <= i < |c.vals| + |vs|
  {
    var c' := Publish(c, vs);
    forall t | 0 <= t < |c.spans| ensures SpanOk(c', t) {
      assert SpanOk(c, t);
      assert c'.vals[c.spans[t].first..c.spans[t].pos] == c.vals[c.spans[t].first..c.spans[t].pos];
    }
    forall i | 0 <= i < |c'.stage| ensures StageOk(c', i) {
      assert i < |c.stage| ==> StageOk(c, i);
    }
  }

  lemma TakeKeeps(c: State, t: nat, n: nat)
    requires Inv(c) && t < |c.spans| && c.head + n <= |c.vals| && c.spans[t].start == c.spans[t].hi
    ensures Inv(Take(c, t, n))
    ensures forall i: nat :: IsGone(Take(c, t, n), i) <==> IsGone(c, i)
    ensures forall i: nat :: Unread(Take(c, t, n), i) <==> Unread(c, i)
  {
    var c' := Take(c, t, n);
    forall u | 0 <= u < |c.spans| ensures SpanOk(c', u) {
      assert SpanOk(c, u);
    }
    forall i | 0 <= i < |c.stage| ensures StageOk(c', i) {
      assert StageOk(c, i);
    }
    forall i: nat
      ensures Unread(c', i) <==> Unread(c, i)
      ensures IsGone(c', i) <==> IsGone(c, i)
    {
      assert i < |c.stage| ==> StageOk(c, i);
    }
  }

  lemma ReadKeeps(c: State, t: nat)
    requires Inv(c) && t < |c.spans| && c.spans[t].pos < c.spans[t].hi
    ensures c.spans[t].pos < |c.vals| && Inv(Read(c, t, c.vals[c.spans[t].pos]))
    ensures Unread(c, c.spans[t].pos)
    ensures forall i: nat :: Unread(Read(c, t, c.vals[c.spans[t].pos]), i) <==> Unread(c, i) && i != c.spans[t].pos
  {
    assert SpanOk(c, t);
    var p := c.spans[t];
    var c' := Read(c, t, c.vals[p.pos]);
    forall u | 0 <= u < |c.spans| ensures SpanOk(c', u) {
      assert SpanOk(c, u);
      assert c.vals[p.first..p.pos + 1] == c.vals[p.first..p.pos] + [c.vals[p.pos]];
    }
    forall i | 0 <= i < |c.stage| ensures StageOk(c', i) {
      assert StageOk(c, i);
    }
    forall i: nat ensures Unread(c', i) <==> Unread(c, i) && i != p.pos {
      if i < |c.stage| { assert StageOk(c, i); }
    }
  }

  lemma GiveBackKeeps(c: State, t: nat)
    requires Inv(c) && t < |c.spans|
    ensures SpanOk(c, t) && Inv(GiveBack(c, t))
    ensures forall i: nat :: IsGone(GiveBack(c, t), i) <==> IsGone(c, i) || c.spans[t].start <= i < c.spans[t].pos
    ensures forall i: nat :: Unread(GiveBack(c, t), i) <==> Unread(c, i)
  {
    assert SpanOk(c, t);
    var p := c.spans[t];
    var c' := GiveBack(c, t);
    assert forall i :: 0 <= i < |c.stage| ==> c'.stage[i] == if p.start <= i < p.pos then Gone else c.stage[i];
    forall u | 0 <= u < |c.spans| ensures SpanOk(c', u) {
      assert SpanOk(c, u);
      forall i | c'.spans[u].start <= i < c'.spans[u].hi ensures c'.stage[i] == Held(u) {
        assert c.stage[i] == Held(u);
      }
    }
    forall i | 0 <= i < |c.stage| ensures StageOk(c', i) {
      assert StageOk(c, i);
    }
    forall i: nat ensures Unread(c', i) <==> Unread(c, i) {
      if i < |c.stage| { assert StageOk(c, i); }
    }
  }

  /** What a consumer still holds is not given back. */
  lemma HeldIsNotGone(c: State, t: nat, i: nat)
    requires Inv(c) && t < |c.spans| && c.spans[t].start <= i < c.spans[t].hi
    ensures i < |c.stage| && !IsGone(c, i) && c.stage[i] == Held(t)
  {
    assert SpanOk(c, t);
  }
}
