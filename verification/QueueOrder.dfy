/** Where processes go in the ready queue, and when the next one is eligible, without the tests the model uses. */
module QueueOrder {
  import opened Word32
  import opened Processes
  import opened ReadyQueue

  // ---------- coming back ----------

  /** Between `k - 1` and `k` the weight fits. */
  ghost predicate Fits(q: seq<Proc>, k: nat, p: Proc)
    requires k <= |q|
  {
    (k > 0 ==> q[k - 1].schedticks >= p.schedticks) && (k < |q| ==> q[k].schedticks <= p.schedticks)
  }

  /** The neighbours the process had when it last left the queue stand around this place, or nobody where nobody did. */
  ghost predicate Remembered(s: Sched, p: Proc, k: nat)
    requires p in s.hints && k <= |s.ready|
  {
    s.hints[p] == Hint(if k > 0 then To(s.ready[k - 1]) else Nil, if k < |s.ready| then To(s.ready[k]) else Nil)
  }

  /** A process whose old neighbours stand next to each other comes back between them, if its weight fits there. */
  lemma ComesBetween(s: Sched, p: Proc, k: nat)
    requires SchedInv(s) && p in s.ticks && p in s.hints && p !in s.ready && Total(s.ready) < W
    requires 0 < |s.ready| && k <= |s.ready| && Remembered(s, p, k) && Fits(s.ready, k, p)
    ensures Enqueue(s, p).ready == s.ready[..k] + [p] + s.ready[k..]
  {
    hide SchedInv, Descending, Total;
    EnqueueShape(s, p);
    Unrepeated(s);
    if k < |s.ready| {
      IndexUnique(s.ready, k);
    }
    assert Position(s, p) == k;
  }

  lemma Unrepeated(s: Sched)
    requires SchedInv(s)
    ensures NoDup(s.ready)
  {
  }

  /** Any other process goes in front of the first that is not heavier. */
  lemma ComesByWeight(s: Sched, p: Proc, k: nat)
    requires SchedInv(s) && p in s.ticks && p in s.hints && p !in s.ready && Total(s.ready) < W && k <= |s.ready|
    requires s.ready == [] || forall n: nat {:trigger Remembered(s, p, n)} ::
      n <= |s.ready| && Remembered(s, p, n) ==> !Fits(s.ready, n, p)
    requires forall i :: 0 <= i < k ==> s.ready[i].schedticks > p.schedticks
    requires k < |s.ready| ==> s.ready[k].schedticks <= p.schedticks
    ensures Enqueue(s, p).ready == s.ready[..k] + [p] + s.ready[k..]
  {
    hide SchedInv, Descending, Total;
    EnqueueShape(s, p);
    assert !HintFits(s.ready, s.hints[p], p) by {
      if s.ready != [] && HintFits(s.ready, s.hints[p], p) {
        HintNames(s, p);
        assert false;
      }
    }
    assert Position(s, p) == k;
  }

  lemma HintNames(s: Sched, p: Proc)
    requires p in s.hints && HintFits(s.ready, s.hints[p], p)
    ensures exists n: nat {:trigger Remembered(s, p, n)} ::
      n <= |s.ready| && Remembered(s, p, n) && Fits(s.ready, n, p)
  {
    var n := HintPosition(s.ready, s.hints[p]);
    assert Remembered(s, p, n) && Fits(s.ready, n, p);
  }

  /** Leaving the queue and coming back while nothing else has changed restores the queue, order and all. */
  lemma RoundTrip(s: Sched, p: Proc)
    requires CanDequeue(s, p) && p in s.ready
    ensures var r := Dequeue(s, p);
      SchedInv(r) && p in r.ticks && p in r.hints && Total(r.ready) < W && Enqueue(r, p).ready == s.ready
  {
    hide SchedInv, Total, Dequeue, CanDequeue, Enqueue, Remembered, Fits, RemoveAt, Neighbours;
    var r, i := Dequeue(s, p), IndexOf(s.ready, p);
    Leaves(s, p);
    Joinable(r, p);
    if s.ready == [p] {
      JoinsEmpty(r, p);
    } else {
      LeavesHint(s, p, i);
      ComesBetween(r, p, i);
      PutBack(s.ready, i);
    }
  }

  lemma PutBack(q: seq<Proc>, i: nat)
    requires i < |q|
    ensures i <= |RemoveAt(q, i)| && RemoveAt(q, i)[..i] + [q[i]] + RemoveAt(q, i)[i..] == q
  {
  }

  lemma JoinsEmpty(s: Sched, p: Proc)
    requires SchedInv(s) && p in s.ticks && p in s.hints && s.ready == [] && Total(s.ready) < W
    ensures Enqueue(s, p).ready == [p]
  {
    EnqueueShape(s, p);
    assert InsertAt([], 0, p) == [p];
  }

  lemma Joinable(s: Sched, p: Proc)
    requires SchedInv(s) && p in s.ticks
    ensures p in s.hints && Total(s.ready) < W
  {
    assert p in s.hints.Keys;
  }

  lemma Leaves(s: Sched, p: Proc)
    requires CanDequeue(s, p) && p in s.ready
    ensures var r, i := Dequeue(s, p), IndexOf(s.ready, p);
      && SchedInv(r) && r.ready == RemoveAt(s.ready, i) && p in r.ticks && p !in r.ready
      && (s.ready == [p] ==> r.ready == [])
      && (s.ready != [p] ==> p in r.hints && r.hints[p] == Neighbours(s.ready, p) && |r.ready| > 0)
  {
    hide Yield;
    DequeueKeeps(s, p);
    DequeueHints(s, p);
    SoleMember(s, p);
    assert s.ready[IndexOf(s.ready, p)] in s.ticks.Keys;
  }

  lemma LeavesHint(s: Sched, p: Proc, i: nat)
    requires CanDequeue(s, p) && i < |s.ready| && s.ready[i] == p && IndexOf(s.ready, p) == i
    requires var r := Dequeue(s, p);
      r.ready == RemoveAt(s.ready, i) && p in r.hints && r.hints[p] == Neighbours(s.ready, p)
    ensures Remembered(Dequeue(s, p), p, i) && Fits(Dequeue(s, p).ready, i, p)
  {
    hide Dequeue, Yield, Total;
    Sorted(s.ready);
  }

  // ---------- the next process ----------

  /** `r` is `s` with the process picked, its ticks renewed to its weight if `renew`. */
  ghost predicate Picks(s: Sched, r: Sched, p: Proc, renew: bool) {
    r == s.(nxt := To(p), ticks := if renew then s.ticks[p := p.schedticks] else s.ticks)
  }

  /**
   * Behind the idle task comes the head. Behind a queue member comes its successor, renewed if the member has just used
   * the first of its ticks, or not renewed if it is eligible; and otherwise, or if there is none, the head, renewed if
   * it has nothing left.
   */
  lemma PickMeans(s: Sched, last: Proc)
    requires SchedInv(s) && CanPick(s) && Total(s.ready) < W && last == if s.nxt.To? then s.nxt.p else s.cur
    ensures s.ready == [] ==> Picks(s, Pick(s), s.idle, false)
    ensures s.ready != [] && last == s.idle ==> Picks(s, Pick(s), s.ready[0], false)
    ensures forall i {:trigger s.ready[i]} :: 0 <= i < |s.ready| && s.ready[i] == last && last != s.idle ==>
      && last in s.ticks && s.ready[0] in s.ticks
      && if i + 1 == |s.ready| then Picks(s, Pick(s), s.ready[0], s.ticks[s.ready[0]] == 0)
         else
           var next := s.ready[i + 1];
           if s.ticks[last] == last.schedticks - 1 then Picks(s, Pick(s), next, true)
           else if next in s.ticks && Eligible(s.ticks[last], next.schedticks, s.ticks[next], Total(s.ready), s.qticks)
           then Picks(s, Pick(s), next, false)
           else Picks(s, Pick(s), s.ready[0], s.ticks[s.ready[0]] == 0)
  {
    TotalIsWord(s);
    forall i {:trigger s.ready[i]} | 0 <= i < |s.ready| && s.ready[i] == last && last != s.idle
      ensures IndexOf(s.ready, last) == i && last in s.ticks && s.ready[0] in s.ticks
    {
      IndexUnique(s.ready, i);
      assert s.ready[i] in s.ticks.Keys && s.ready[0] in s.ticks.Keys;
    }
  }

  // ---------- eligibility ----------

  /**
   * The test that lets the successor (weight `qw`, `qt` left) run next after a process with `pt` left, in a queue of
   * weight `w` with `t` left, as long as no product reaches 2^32: it has more left, or it is ahead of the queue's own
   * progress by less than one round; being behind does not help, unless the unsigned difference wraps that far.
   */
  lemma EligibleMeans(pt: Word, qw: Word, qt: Word, w: Word, t: Word)
    requires qt <= qw && t <= w && (qw - qt + 1) * w < W && (w - t + 1) * qw < W && w > 0 && qw > 0
    ensures var ahead := (qw - qt + 1) * w - (w - t + 1) * qw;
      Eligible(pt, qw, qt, w, t) <==> qt > pt || 0 <= ahead < w || ahead < w - W
  {
    hide Mul, Sub, Add;
    ProgressMeans(qw, qt, w);
    ProgressMeans(w, t, qw);
    DifferenceMeans(Mul(Numerator(qw, qt), w), Mul(Numerator(w, t), qw), w);
  }

  lemma ProgressMeans(weight: Word, left: Word, scale: Word)
    requires left <= weight && scale > 0 && (weight - left + 1) * scale < W
    ensures Mul(Numerator(weight, left), scale) == (weight - left + 1) * scale
  {
    var n := weight - left + 1;
    ProductGrows(n, scale);
    assert Numerator(weight, left) == n;
    MulIsProduct(n, scale);
    NonNegative(n, scale);
    Small(n * scale);
  }

  lemma Small(p: nat)
    requires p < W
    ensures p % W == p
  {
  }

  lemma DifferenceMeans(x: Word, y: Word, w: Word)
    ensures Sub(x, y) < w <==> 0 <= x - y < w || x - y < w - W
  {
  }
}
