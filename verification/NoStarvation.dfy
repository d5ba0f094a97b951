/** With unit weights nobody starves: whoever is ready runs within a bound given by the number of records alone. */
module NoStarvation {
  import opened Word32
  import opened Processes
  import opened ReadyQueue
  import opened KernelModel
  import opened KernelRuns
  import opened UnitWeights

  // ---------- waiting for the processor ----------

  /**
   * The running process stands at `i` and the waiting one at `j`. The due processes are those that may still run
   * before the processor next passes the waiting process or, if that is behind it, the end of the queue.
   */
  datatype Wait = Wait(i: nat, j: nat, due: set<Proc>)

  /** Between the running process and the waiting one, or between the running one and the end of the queue. */
  predicate Ahead(w: Wait, t: int) {
    w.i < t && (w.j < w.i || t < w.j)
  }

  /** A process that comes back behind this neighbour does not come back ahead. */
  ghost predicate Back(s: Sched, p: Proc, w: Wait, l: Link) {
    l == Nil || (l.To? && l.p !in w.due && l.p != s.cur && (w.j < w.i || l.p != p))
  }

  ghost predicate Places(s: Sched, p: Proc, w: Wait) {
    && w.i < |s.ready| && s.ready[w.i] == s.cur && w.j < |s.ready| && s.ready[w.j] == p && s.cur != p
    && w.due <= s.ticks.Keys
  }

  /** Exactly the due members of the queue are ahead. */
  ghost predicate DueAhead(q: seq<Proc>, w: Wait) {
    forall t {:trigger q[t]} :: 0 <= t < |q| ==> (q[t] in w.due <==> Ahead(w, t))
  }

  /** Whoever has left the queue and is not due comes back behind. */
  ghost predicate ReturnsBehind(s: Sched, p: Proc, w: Wait) {
    forall q {:trigger s.hints[q]} :: q in s.hints && q !in s.ready && q !in w.due ==> Back(s, p, w, s.hints[q].prev)
  }

  /** `p` waits in the queue, and at most the due processes run before the processor passes it or the queue's end. */
  ghost predicate Waiting(s: Sched, p: Proc, w: Wait) {
    Places(s, p, w) && DueAhead(s.ready, w) && ReturnsBehind(s, p, w)
  }

  /** How many picks `p` may still have to wait. */
  function Picks(s: Sched, w: Wait): int {
    (if w.j < w.i then |s.ticks| - 1 else 0) + |w.due|
  }

  /** Everybody who is ahead or has left the queue is due. */
  ghost function InitialWait(s: Sched, i: nat, j: nat): Wait
    requires i < |s.ready| && j < |s.ready|
  {
    Wait(i, j, set x | x in s.ticks.Keys && (x !in s.ready || Ahead(Wait(i, j, {}), IndexOf(s.ready, x))))
  }

  lemma InitialWaits(s: Sched, p: Proc, i: nat, j: nat)
    requires SchedInv(s) && i < |s.ready| && j < |s.ready| && s.ready[i] == s.cur && s.ready[j] == p && s.cur != p
    ensures Waiting(s, p, InitialWait(s, i, j)) && |InitialWait(s, i, j).due| <= |s.ticks| - 2
  {
    var w := InitialWait(s, i, j);
    forall t {:trigger s.ready[t]} | 0 <= t < |s.ready|
      ensures s.ready[t] in w.due <==> Ahead(w, t)
    {
      IndexUnique(s.ready, t);
    }
    FewDue(s, p, w);
  }

  lemma SubsetSize<T>(a: set<T>, b: set<T>)
    requires a <= b
    ensures |a| <= |b|
    decreases a
  {
    if x :| x in a {
      SubsetSize(a - {x}, b - {x});
    }
  }

  lemma FewDue(s: Sched, p: Proc, w: Wait)
    requires SchedInv(s) && Waiting(s, p, w)
    ensures |w.due| <= |s.ticks| - 2
  {
    assert s.ready[w.i] in s.ticks.Keys && s.ready[w.j] in s.ticks.Keys;
    assert s.cur !in w.due && p !in w.due;
    SubsetSize(w.due + {s.cur, p}, s.ticks.Keys);
  }

  // ---------- joining ----------

  /** Nobody who is not due joins the queue ahead. */
  lemma JoinsBehind(s: Sched, q: Proc, p: Proc, w: Wait)
    requires SchedInv(s) && Unit(s) && Waiting(s, p, w) && q in s.hints && q !in s.ready && q !in w.due
    ensures var k := Position(s, q); k <= w.i || (w.i < w.j && w.j < k)
  {
    var k := Position(s, q);
    if HintFits(s.ready, s.hints[q], q) {
      assert Back(s, p, w, s.hints[q].prev);
      if k > w.i {
        assert s.hints[q].prev == To(s.ready[k - 1]);
      }
    } else {
      assert s.ready[0] in s.ticks.Keys;
      assert q in s.ticks.Keys;
    }
  }

  /** The wait after `q` has joined at `k`. */
  ghost function Joined(q: Proc, k: nat, w: Wait): Wait {
    var r := Wait(if k <= w.i then w.i + 1 else w.i, if k <= w.j then w.j + 1 else w.j, w.due);
    if Ahead(r, k) then r else r.(due := w.due - {q})
  }

  lemma JoinDue(ready: seq<Proc>, q: Proc, k: nat, w: Wait)
    requires k <= |ready| && q !in ready && DueAhead(ready, w) && w.i < |ready| && w.j < |ready|
    requires q !in w.due ==> k <= w.i || (w.i < w.j && w.j < k)
    ensures DueAhead(InsertAt(ready, k, q), Joined(q, k, w))
  {
    var r, x := InsertAt(ready, k, q), Joined(q, k, w);
    forall t {:trigger r[t]} | 0 <= t < |r|
      ensures r[t] in x.due <==> Ahead(x, t)
    {
      if t != k {
        assert r[t] == ready[if t < k then t else t - 1];
      }
    }
  }

  lemma InsertMembers(ready: seq<Proc>, q: Proc, k: nat)
    requires k <= |ready|
    ensures forall y :: y in InsertAt(ready, k, q) <==> y in ready || y == q
  {
    var r := InsertAt(ready, k, q);
    forall y
      ensures y in r <==> y in ready || y == q
    {
      if y in ready {
        var t := IndexOf(ready, y);
        assert r[if t < k then t else t + 1] == y;
      } else if y == q {
        assert r[k] == q;
      }
    }
  }

  lemma JoinReturns(s: Sched, r: Sched, q: Proc, k: nat, p: Proc, w: Wait)
    requires k <= |s.ready| && Places(s, p, w) && ReturnsBehind(s, p, w)
    requires r.ready == InsertAt(s.ready, k, q) && r.hints == s.hints && r.cur == s.cur
    ensures ReturnsBehind(r, p, Joined(q, k, w))
  {
    hide InsertAt;
    InsertMembers(s.ready, q, k);
  }

  lemma TotalFits(s: Sched)
    requires SchedInv(s)
    ensures Total(s.ready) < W && NoDup(s.ready)
  {
  }

  lemma JoinWaits(s: Sched, q: Proc, p: Proc, w: Wait)
    requires SchedInv(s) && Unit(s) && Waiting(s, p, w) && q in s.ticks && q in s.hints && q !in s.ready
    ensures var x := Joined(q, Position(s, q), w);
      Waiting(Enqueue(s, q), p, x) && Picks(Enqueue(s, q), x) <= Picks(s, w)
  {
    hide Enqueue, SchedInv, Unit, DueAhead, ReturnsBehind, Position;
    TotalFits(s);
    EnqueueShape(s, q);
    if q !in w.due {
      JoinsBehind(s, q, p, w);
    }
    var r, k := Enqueue(s, q), Position(s, q);
    var x := Joined(q, k, w);
    assert |r.ticks| == |r.ticks.Keys| && |s.ticks| == |s.ticks.Keys|;
    JoinDue(s.ready, q, k, w);
    JoinReturns(s, r, q, k, p, w);
    SubsetSize(x.due, w.due);
  }

  // ---------- the processor moves on ----------

  /** Within the queue the next one was due. */
  lemma MovesOn(s: Sched, r: Sched, p: Proc, w: Wait)
    requires NoDup(s.ready) && Waiting(s, p, w) && w.i + 1 < |s.ready|
    requires r.ready == s.ready && r.hints == s.hints && r.ticks.Keys == s.ticks.Keys
    requires r.cur == s.ready[w.i + 1] && r.cur != p
    ensures r.cur in w.due && Waiting(r, p, Wait(w.i + 1, w.j, w.due - {r.cur}))
    ensures |w.due - {r.cur}| < |w.due|
  {
    assert s.ready[w.i + 1] in w.due;
    DistinctFrom(s.ready, w.i + 1);
    SubsetSize(w.due - {r.cur}, w.due);
  }

  /** The processor goes to the next in the queue; `p` either has it or has less to wait. */
  lemma MoveWaits(s: Sched, r: Sched, p: Proc, w: Wait) returns (x: Wait)
    requires SchedInv(s) && SchedInv(r) && Waiting(s, p, w)
    requires r.ready == s.ready && r.hints == s.hints && r.ticks.Keys == s.ticks.Keys
    requires r.cur == s.ready[After(w.i, |s.ready|)]
    ensures r.cur != p ==> Waiting(r, p, x) && Picks(r, x) < Picks(s, w)
    ensures r.cur != p ==> x.i == After(w.i, |s.ready|) && x.j == w.j
  {
    hide DueAhead, ReturnsBehind;
    assert |r.ticks| == |r.ticks.Keys| && |s.ticks| == |s.ticks.Keys|;
    x := w;
    if r.cur != p {
      if w.i + 1 == |s.ready| {
        x := InitialWait(r, 0, w.j);
        InitialWaits(r, p, 0, w.j);
      } else {
        x := Wait(w.i + 1, w.j, w.due - {r.cur});
        MovesOn(s, r, p, w);
      }
    }
  }

  lemma {:induction false} AllJoinWait(s: Sched, wake: seq<Proc>, p: Proc, w: Wait) returns (x: Wait)
    requires SchedInv(s) && Unit(s) && Waiting(s, p, w) && (s.cur == s.idle || s.cur in s.ready)
    requires forall i :: 0 <= i < |wake| ==> wake[i] in s.ticks
    ensures Waiting(EnqueueAll(s, wake), p, x) && Picks(EnqueueAll(s, wake), x) <= Picks(s, w)
    decreases |wake|
  {
    hide Waiting, Unit, SchedInv;
    x := w;
    if wake != [] {
      var q := wake[0];
      EnqueueUnit(s, q);
      EnqueueKeeps(s, q);
      if q !in s.ready {
        HintKnown(s, q);
        JoinWaits(s, q, p, w);
        x := Joined(q, Position(s, q), w);
      }
      x := AllJoinWait(Enqueue(s, q), wake[1..], p, x);
    }
  }

  lemma HintKnown(s: Sched, q: Proc)
    requires SchedInv(s) && q in s.ticks
    ensures q in s.hints
  {
    assert q in s.hints.Keys;
  }

  // ---------- the running process leaves ----------

  lemma LeaveDue(ready: seq<Proc>, i: nat, j: nat, due: set<Proc>)
    requires NoDup(ready) && i + 1 < |ready| && j < |ready| && i != j && j != i + 1 && DueAhead(ready, Wait(i, j, due))
    ensures DueAhead(RemoveAt(ready, i), Wait(i, if j < i then j else j - 1, due - {ready[i + 1]}))
  {
    DistinctFrom(ready, i + 1);
    var r, x := RemoveAt(ready, i), Wait(i, if j < i then j else j - 1, due - {ready[i + 1]});
    forall t {:trigger r[t]} | 0 <= t < |r|
      ensures r[t] in x.due <==> Ahead(x, t)
    {
      assert r[t] == ready[if t < i then t else t + 1];
    }
  }

  lemma RemoveMembers(ready: seq<Proc>, i: nat)
    requires NoDup(ready) && i < |ready|
    ensures forall y :: y in RemoveAt(ready, i) <==> y in ready && y != ready[i]
  {
    DistinctFrom(ready, i);
    var r := RemoveAt(ready, i);
    forall y
      ensures y in r <==> y in ready && y != ready[i]
    {
      if y in ready && y != ready[i] {
        var t := IndexOf(ready, y);
        assert r[if t < i then t else t - 1] == y;
      }
    }
  }

  lemma LeaveReturns(s: Sched, r: Sched, p: Proc, w: Wait)
    requires NoDup(s.ready) && Waiting(s, p, w) && w.i + 1 < |s.ready| && s.ready[w.i + 1] != p
    requires r.ready == RemoveAt(s.ready, w.i) && r.hints == s.hints[s.cur := Neighbours(s.ready, s.cur)]
    requires r.cur == s.ready[w.i + 1]
    ensures ReturnsBehind(r, p, Wait(w.i, if w.j < w.i then w.j else w.j - 1, w.due - {r.cur}))
  {
    hide RemoveAt, NoDup;
    var x := Wait(w.i, if w.j < w.i then w.j else w.j - 1, w.due - {r.cur});
    RemoveMembers(s.ready, w.i);
    IndexUnique(s.ready, w.i);
    DistinctFrom(s.ready, w.i + 1);
    DistinctFrom(s.ready, w.j);
    assert s.ready[w.i + 1] in w.due;
    forall q {:trigger r.hints[q]} | q in r.hints && q !in r.ready && q !in x.due
      ensures Back(r, p, x, r.hints[q].prev)
    {
      if q == s.cur {
        assert r.hints[q].prev == At(s.ready, w.i - 1);
      } else {
        assert q in s.hints && q !in s.ready;
      }
    }
  }

  /** From the end of the queue the processor goes to the head. */
  lemma LeavesRound(s: Sched, r: Sched, p: Proc, w: Wait)
    requires SchedInv(r) && Places(s, p, w) && w.i + 1 == |s.ready| && r.ready == RemoveAt(s.ready, w.i)
    requires r.cur == s.ready[0] && r.cur != p
    ensures |r.ready| > 0 && w.j < |r.ready| && Waiting(r, p, InitialWait(r, 0, w.j))
    ensures |InitialWait(r, 0, w.j).due| <= |r.ticks| - 2
  {
    hide SchedInv, Waiting, InitialWait;
    InitialWaits(r, p, 0, w.j);
  }

  lemma LeavesOn(s: Sched, r: Sched, p: Proc, w: Wait)
    requires SchedInv(s) && Waiting(s, p, w) && w.i + 1 < |s.ready|
    requires r.ready == RemoveAt(s.ready, w.i) && r.hints == s.hints[s.cur := Neighbours(s.ready, s.cur)]
    requires r.ticks.Keys == s.ticks.Keys && r.cur == s.ready[w.i + 1] && r.cur != p
    ensures Waiting(r, p, Wait(w.i, if w.j < w.i then w.j else w.j - 1, w.due - {r.cur}))
    ensures |w.due - {r.cur}| < |w.due|
  {
    hide DueAhead, ReturnsBehind, SchedInv;
    TotalFits(s);
    LeaveDue(s.ready, w.i, w.j, w.due);
    LeaveReturns(s, r, p, w);
    NextDue(s, w);
  }

  /** The running process leaves the queue, and its successor runs. */
  lemma LeaveWaits(s: Sched, r: Sched, p: Proc, w: Wait) returns (x: Wait)
    requires SchedInv(s) && SchedInv(r) && Waiting(s, p, w)
    requires r.ready == RemoveAt(s.ready, w.i) && r.hints == s.hints[s.cur := Neighbours(s.ready, s.cur)]
    requires r.ticks.Keys == s.ticks.Keys && r.cur == s.ready[After(w.i, |s.ready|)]
    ensures r.cur != p ==> Waiting(r, p, x) && Picks(r, x) < Picks(s, w)
  {
    hide DueAhead, ReturnsBehind, RemoveAt, SchedInv, InitialWait, Neighbours;
    assert |r.ticks| == |r.ticks.Keys| && |s.ticks| == |s.ticks.Keys|;
    x := w;
    if r.cur != p {
      if w.i + 1 == |s.ready| {
        LeavesRound(s, r, p, w);
        x := InitialWait(r, 0, w.j);
        assert x.i == 0 && x.j == w.j by {
          InitialPlaces(r, 0, w.j);
        }
      } else {
        LeavesOn(s, r, p, w);
        x := Wait(w.i, if w.j < w.i then w.j else w.j - 1, w.due - {r.cur});
      }
    }
  }

  lemma InitialPlaces(s: Sched, i: nat, j: nat)
    requires i < |s.ready| && j < |s.ready|
    ensures InitialWait(s, i, j).i == i && InitialWait(s, i, j).j == j
  {
  }

  lemma NextDue(s: Sched, w: Wait)
    requires DueAhead(s.ready, w) && w.i + 1 < |s.ready| && w.j != w.i + 1 && w.j != w.i
    ensures s.ready[w.i + 1] in w.due && |w.due - {s.ready[w.i + 1]}| < |w.due|
  {
    assert w.due - {s.ready[w.i + 1]} + {s.ready[w.i + 1]} == w.due;
  }

  // ---------- steps and runs ----------

  /** Nobody blocks: the running process is charged and its successor picked. */
  lemma PassWaits(s: Sched, p: Proc, w: Wait) returns (x: Wait)
    requires SchedInv(s) && Unit(s) && Waiting(s, p, w) && s.nxt == Nil && s.cur != s.idle
    ensures CanPick(s) && Dispatch(s).nxt.To?
    ensures var r := Schedule(Dispatch(s));
      SchedInv(r) && r.ticks.Keys == s.ticks.Keys && (r.cur != p ==> Waiting(r, p, x) && Picks(r, x) < Picks(s, w))
  {
    hide Waiting, Unit, SchedInv, Picks;
    RunningPlace(s, p, w);
    PickAfterCharge(s, w.i);
    DispatchKeeps(s);
    var r := Schedule(Dispatch(s));
    x := MoveWaits(s, r, p, w);
  }

  lemma RunningPlace(s: Sched, p: Proc, w: Wait)
    requires SchedInv(s) && Waiting(s, p, w)
    ensures w.i < |s.ready| && s.cur == s.ready[w.i] && s.cur in s.ready && p in s.ready && s.cur != p && |s.ready| >= 2
    ensures IndexOf(s.ready, s.cur) == w.i && s.cur in s.ticks
  {
    IndexUnique(s.ready, w.i);
    assert s.ready[w.i] in s.ticks.Keys;
  }

  /** What is left when the running process blocks: its successor has been picked while yielding. */
  lemma BlockedQueue(s: Sched, p: Proc, w: Wait)
    requires SchedInv(s) && Unit(s) && Waiting(s, p, w) && s.nxt == Nil
    ensures CanDequeue(s, s.cur)
    ensures var r := Dequeue(s, s.cur);
      && SchedInv(r) && r.ticks.Keys == s.ticks.Keys && r.cur == s.ready[After(w.i, |s.ready|)] && r.nxt == To(r.cur)
      && r.cur in s.ticks && s.cur in s.ready && w.i < |s.ready| && r.ready == RemoveAt(s.ready, w.i)
      && r.hints == s.hints[s.cur := Neighbours(s.ready, s.cur)]
  {
    hide Waiting, Unit, Neighbours, RemoveAt;
    RunningPlace(s, p, w);
    DequeueHints(s, s.cur);
    DequeueKeeps(s, s.cur);
    SoleMember(s, s.cur);
    YieldUnit(s, s.cur);
    PickAfterCharge(s, w.i);
    assert s.ready[After(w.i, |s.ready|)] in s.ticks.Keys;
  }

  lemma BlockWaits(s: Sched, p: Proc, w: Wait) returns (x: Wait)
    requires SchedInv(s) && Unit(s) && Waiting(s, p, w) && s.nxt == Nil
    ensures CanDequeue(s, s.cur) && Dequeue(s, s.cur).nxt.To?
    ensures var r := Schedule(Dequeue(s, s.cur));
      SchedInv(r) && r.ticks.Keys == s.ticks.Keys && (r.cur != p ==> Waiting(r, p, x) && Picks(r, x) < Picks(s, w))
  {
    hide Waiting, Unit, SchedInv, Picks, Dequeue, CanDequeue;
    BlockedQueue(s, p, w);
    SchedInvTicks(Dequeue(s, s.cur), Schedule(Dequeue(s, s.cur)));
    x := LeaveWaits(s, Schedule(Dequeue(s, s.cur)), p, w);
  }

  lemma Rests(k: State)
    requires Inv(k)
    ensures SchedInv(k.sched) && k.sched.nxt == Nil
  {
  }

  lemma StepBlocks(k: State, e: Event)
    requires Inv(k) && Possible(k, e) && Outcome(k, e).block
    requires SchedInv(k.sched) && forall i :: 0 <= i < |Outcome(k, e).wake| ==> Outcome(k, e).wake[i] in k.sched.ticks
    requires var s := EnqueueAll(k.sched, Outcome(k, e).wake); CanDequeue(s, s.cur) && Dequeue(s, s.cur).nxt.To?
    ensures var s := EnqueueAll(k.sched, Outcome(k, e).wake); Step(k, e).sched == Schedule(Dequeue(s, s.cur))
  {
    hide Outcome, Dequeue, Inv, SchedInv, CanDequeue;
  }

  lemma StepPasses(k: State, e: Event)
    requires Inv(k) && Possible(k, e) && !Outcome(k, e).block
    requires SchedInv(k.sched) && forall i :: 0 <= i < |Outcome(k, e).wake| ==> Outcome(k, e).wake[i] in k.sched.ticks
    requires var s := EnqueueAll(k.sched, Outcome(k, e).wake); CanPick(s) && Dispatch(s).nxt.To?
    ensures var s := EnqueueAll(k.sched, Outcome(k, e).wake); Step(k, e).sched == Schedule(Dispatch(s))
  {
    hide Outcome, Dispatch, Inv, SchedInv, CanPick;
  }

  /** With every interrupt a waiting process gets the processor or has fewer picks to wait. */
  lemma StepWaits(k: State, e: Event, p: Proc, w: Wait) returns (x: Wait)
    requires Inv(k) && Possible(k, e) && Unit(k.sched) && Waiting(k.sched, p, w)
    ensures var r := Step(k, e).sched; r.cur != p ==> Waiting(r, p, x) && Picks(r, x) < Picks(k.sched, w)
  {
    hide Inv, SchedInv, Waiting, Unit, Picks, Outcome, Step, EnqueueAll, Dequeue, Dispatch;
    StepFacts(k, e);
    Rests(k);
    RunningPlace(k.sched, p, w);
    IdleNotReady(k.sched);
    var o := Outcome(k, e);
    x := AllJoinWait(k.sched, o.wake, p, w);
    EnqueueAllUnit(k.sched, o.wake);
    var s := EnqueueAll(k.sched, o.wake);
    if o.block {
      x := BlockWaits(s, p, x);
      StepBlocks(k, e);
    } else {
      x := PassWaits(s, p, x);
      StepPasses(k, e);
    }
  }

  /** Some event of the run hands the processor to `p`. */
  ghost predicate Reaches(k: State, es: seq<Event>, p: Proc)
    requires Inv(k) && Feasible(k, es)
    decreases |es|
  {
    es != [] && (Step(k, es[0]).sched.cur == p || (StepKeeps(k, es[0]); Reaches(Step(k, es[0]), es[1..], p)))
  }

  lemma SomePicks(k: State, p: Proc, w: Wait)
    requires Inv(k) && Waiting(k.sched, p, w)
    ensures Picks(k.sched, w) >= 0
  {
    FewDue(k.sched, p, w);
  }

  lemma {:induction false} WaitEnds(k: State, es: seq<Event>, p: Proc, w: Wait)
    requires Inv(k) && Feasible(k, es) && Unit(k.sched) && Waiting(k.sched, p, w) && |es| > Picks(k.sched, w)
    ensures Reaches(k, es, p)
    decreases |es|
  {
    hide Inv, Possible, Unit, Waiting, Picks, Step;
    SomePicks(k, p, w);
    StepKeeps(k, es[0]);
    StepUnit(k, es[0]);
    var x := StepWaits(k, es[0], p, w);
    if Step(k, es[0]).sched.cur != p {
      WaitEnds(Step(k, es[0]), es[1..], p, x);
    }
  }

  /**
   * Nobody starves: among n process records, whoever is ready without running gets the processor within 2n - 2
   * interrupts, whatever the others do meanwhile.
   */
  lemma NobodyStarves(k: State, es: seq<Event>, p: Proc)
    requires Inv(k) && Feasible(k, es) && Unit(k.sched) && p in k.sched.ready && p != k.sched.cur
    requires |es| >= 2 * |k.sched.ticks| - 2
    ensures Reaches(k, es, p)
  {
    hide Unit, Feasible, Waiting, Step;
    var s := k.sched;
    var i, j := IndexOf(s.ready, s.cur), IndexOf(s.ready, p);
    InitialWaits(s, p, i, j);
    WaitEnds(k, es, p, InitialWait(s, i, j));
  }
}
