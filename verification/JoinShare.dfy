/** The ticks a process gets when it joins the queue: its proportional part of what the queue has left. */
module JoinShare {
  import opened Word32
  import opened Processes
  import opened ReadyQueue

  function CeilDiv(a: nat, b: nat): nat
    requires b > 0
  {
    (a + b - 1) / b
  }

  lemma MulLeft(q: int, k: int, w: int)
    ensures q * (w - k) == q * w - q * k
  {
  }

  lemma Spread(q: int, t: int, w: int)
    ensures (q - t) * w == q * w - t * w
  {
  }

  /** What is left of a whole after taking out a rounded-down part is the rounded-up rest. */
  lemma ComplementRoundsUp(q: nat, t: nat, w: nat)
    requires q > 0 && t <= q
    ensures (q - t) * w >= 0
    ensures w - (q - t) * w / q == CeilDiv(w * t, q)
  {
    Spread(q, t, w);
    var d := (q - t) * w;
    assert d >= 0 by {
      NonNegative(q - t, w);
    }
    var k, r := d / q, d % q;
    MulLeft(q, k, w);
    assert d == q * k + r;
    assert w * t + q - 1 == q * (w - k) + (q - 1 - r);
    QuotientUnique(w * t + q - 1, q, w - k, q - 1 - r);
  }

  lemma QuotientMonotone(a: nat, b: nat, q: nat)
    requires q > 0 && a <= b
    ensures a / q <= b / q
  {
    var k, l := a / q, b / q;
    if k > l {
      assert a == q * k + a % q && b == q * l + b % q;
      ProductGrows(q, k - l);
      Distribute(q, k, l);
    }
  }

  /** A product that wraps loses at least one from its quotient. */
  lemma WrapLowers(p: nat, q: Word)
    requires q > 0 && p >= W
    ensures p % W / q < p / q
  {
    QuotientMonotone(p % W + q, p, q);
    var k, r := p % W / q, p % W % q;
    assert p % W == q * k + r;
    assert p % W + q == q * (k + 1) + r;
    QuotientUnique(p % W + q, q, k + 1, r);
  }

  /** What the process could get at most, its weight less the part of it that is already spent, never underflows. */
  lemma ShareAsComputed(w: Word, q: Word, t: Word, left: Word)
    requires q > 0 && t <= q
    ensures var p := (q - t) * w;
      p >= 0 && 0 <= p % W / q <= p / q <= w && JoinTicks(w, q, t, left) == Min(w - p % W / q, left)
  {
    NonNegative(q - t, w);
    MulIsProduct(q - t, w);
    DivIsQuotient(Mul(q - t, w), q);
    QuotientMonotone((q - t) * w % W, (q - t) * w, q);
    ComplementRoundsUp(q, t, w);
    NonNegative(w, t);
    assert CeilDiv(w * t, q) >= 0 by {
      QuotientMonotone(0, w * t + q - 1, q);
    }
  }

  /** Whether or not the product wraps, a joining process gets no more than it kept and no more than its weight. */
  lemma ShareBounded(w: Word, q: Word, t: Word, left: Word)
    requires q > 0
    ensures JoinTicks(w, q, t, left) <= left
    ensures t <= q ==> JoinTicks(w, q, t, left) <= w
  {
    if t <= q {
      ShareAsComputed(w, q, t, left);
    }
  }

  /**
   * The share is the smaller of what the process kept and its rounded-up proportional part, exactly when the product
   * stays within 32 bits or the process kept so little that the proportional part does not matter.
   */
  lemma ShareIsProportional(w: Word, q: Word, t: Word, left: Word)
    requires q > 0 && t <= q
    ensures JoinTicks(w, q, t, left) == Min(CeilDiv(w * t, q), left)
      <==> (q - t) * w < W || left <= CeilDiv(w * t, q)
  {
    ShareAsComputed(w, q, t, left);
    ComplementRoundsUp(q, t, w);
    if (q - t) * w >= W {
      WrapLowers((q - t) * w, q);
    }
  }

  /** Joining keeps the queue's tick count within its total weight. */
  lemma JoinKeepsQueueBound(s: Sched, p: Proc)
    requires SchedInv(s) && p in s.ticks && p in s.hints
    requires s.qticks <= Total(s.ready)
    ensures var r := Enqueue(s, p);
      r.qticks <= Total(r.ready)
  {
    if p !in s.ready {
      EnqueueGlobals(s, p);
      if Total(s.ready) > 0 {
        ShareBounded(p.schedticks, Total(s.ready), s.qticks, s.ticks[p]);
      }
    }
  }

  lemma PastTheWhole(q: nat, w: nat, d: nat)
    requires q > 0
    ensures (q + d) * w >= 0 && if d * w < q then (q + d) * w / q == w else (q + d) * w / q > w
  {
    NonNegative(q + d, w);
    NonNegative(d, w);
    assert (q + d) * w == q * w + d * w;
    if d * w < q {
      QuotientUnique((q + d) * w, q, w, d * w);
    } else {
      assert q * (w + 1) == q * w + q;
      QuotientUnique(q * (w + 1), q, w + 1, 0);
      QuotientMonotone(q * (w + 1), (q + d) * w, q);
    }
  }

  lemma SmallMod(p: nat)
    requires p < W
    ensures p % W == p
  {
  }

  lemma GrantFrom(w: Word, q: Word, t: Word, left: Word, p: Word)
    requires q > 0 && p == Mul(Sub(q, t), w)
    ensures JoinTicks(w, q, t, left) == Min(Sub(w, Div(p, q)), left)
  {
  }

  /**
   * With the queue's count charged `d` below zero, where it reads as a number near 2^32, a process gets nothing at
   * first. From `d * w == q` on its share wraps as well, and it gets all that it kept if that is at most its weight.
   */
  lemma ShareBelowZero(w: Word, q: Word, d: Word, left: Word)
    requires q > 0 && d > 0 && q + d < W && (q + d) * w < W
    ensures d * w < q ==> JoinTicks(w, q, W - d, left) == 0
    ensures d * w >= q ==> JoinTicks(w, q, W - d, left) == Min(W + w - (q + d) * w / q, left)
    ensures d * w >= q && left <= w ==> JoinTicks(w, q, W - d, left) == left
  {
    hide JoinTicks, Mul, Div;
    var p := (q + d) * w;
    PastTheWhole(q, w, d);
    MulIsProduct(q + d, w);
    SmallMod(p);
    DivIsQuotient(p, q);
    GrantFrom(w, q, W - d, left, p);
  }

  /**
   * A queue whose count has been used up while its one heavy process has had its ticks renewed; a process of weight 2
   * that has run before and has left the queue from behind the heavy one is about to join.
   */
  ghost function Exhausted(): Sched {
    var a, b := Proc(1, 0x8000_0000, 0, 0), Proc(2, 2, 0, 0);
    Sched([a, b], Proc(3, 1, 0, 0), [a], map[a := Hint(Nil, Nil), b := Hint(To(a), Nil)],
          map[a := 0x8000_0000, b := 1], 0, a, Nil)
  }

  lemma ExhaustedInv()
    ensures SchedInv(Exhausted())
  {
    var s := Exhausted();
    var a, b := s.table[0], s.table[1];
    assert s.ticks.Keys == {a, b} && {a, b} - {a} == {b} && {b} - {b} == {};
    assert [a, b][1..] == [b] && [b][1..] == [] && [a][1..] == [] && [a][0] == a;
    assert Roster([b], {b}) && Roster([a, b], {a, b});
    assert Total([b]) == b.schedticks + Total([]) && Total([a]) == a.schedticks + Total([]);
    assert Total([a, b]) == a.schedticks + Total([b]);
  }

  /** Beyond 32 bits the product wraps: nothing is left in the queue, yet the joining process gets all that it kept. */
  lemma ShareOverflows()
    ensures var s, p := Exhausted(), Proc(2, 2, 0, 0);
      && SchedInv(s) && p in s.ticks && p !in s.ready
      && s.qticks == 0 && s.ticks[p] == 1 && Total(s.ready) > 0
      && (Total(s.ready) - s.qticks) * p.schedticks >= W
      && CeilDiv(p.schedticks * s.qticks, Total(s.ready)) == 0 && Enqueue(s, p).ticks[p] == 1
  {
    ExhaustedInv();
    assert Total(Exhausted().ready) == 0x8000_0000 by {
      assert Exhausted().ready[1..] == [];
    }
    assert Mul(0x8000_0000, 1) == 0x8000_0000;
    assert Mul(0x8000_0000, 2) == 0;
  }
}
