/** With unit weights, as the kernel ships, the weighted picker is round robin. */
module UnitWeights {
  import opened Word32
  import opened Processes
  import opened ReadyQueue
  import opened KernelModel
  import opened KernelRuns
  import Ipc

  /** Every weight is 1, every count 0 or 1, and the running process holds the tick it will be charged. */
  ghost predicate Unit(s: Sched) {
    && (forall p {:trigger s.ticks[p]} :: p in s.ticks ==> p.schedticks == 1 && s.ticks[p] <= 1)
    && (s.cur in s.ticks ==> s.ticks[s.cur] == 1)
  }

  function After(i: nat, n: nat): nat {
    if i + 1 == n then 0 else i + 1
  }

  lemma EnqueueUnit(s: Sched, p: Proc)
    requires SchedInv(s) && Unit(s) && p in s.ticks && (s.cur == s.idle || s.cur in s.ready)
    ensures var r := Enqueue(s, p);
      && Unit(r)
      && (s.ready == [] ==> r.ticks[p] == 1)
  {
    if p !in s.ready {
      EnqueueShape(s, p);
    }
  }

  lemma {:induction false} EnqueueAllUnit(s: Sched, wake: seq<Proc>)
    requires SchedInv(s) && Unit(s) && (s.cur == s.idle || s.cur in s.ready)
    requires forall i :: 0 <= i < |wake| ==> wake[i] in s.ticks
    ensures Unit(EnqueueAll(s, wake))
    decreases |wake|
  {
    if wake != [] {
      EnqueueUnit(s, wake[0]);
      EnqueueKeeps(s, wake[0]);
      EnqueueAllUnit(Enqueue(s, wake[0]), wake[1..]);
    }
  }

  /** Charged down to nothing, a process hands over to its successor, which is renewed if it was out of ticks. */
  lemma PickAfterCharge(s: Sched, i: nat)
    requires SchedInv(s) && Unit(s) && i < |s.ready| && s.cur == s.ready[i] && LastRun(s) == s.cur
    ensures var r := Pick(Charge(s));
      && r.nxt == To(s.ready[After(i, |s.ready|)])
      && r.nxt.p in s.ticks
      && r.ticks[r.nxt.p] == 1
      && r.ticks.Keys == s.ticks.Keys
      && (forall p {:trigger r.ticks[p]} :: p in r.ticks ==> r.ticks[p] <= 1)
  {
    IndexUnique(s.ready, i);
    var c := Charge(s);
    SchedInvTicks(s, c);
    DistinctFrom(s.ready, i);
    assert s.ready[i] in s.ticks && s.ready[After(i, |s.ready|)] in s.ticks;
    assert c.ticks[s.cur] == 0;
  }

  lemma YieldUnit(s: Sched, p: Proc)
    requires CanYield(s, p) && Unit(s)
    ensures Unit(Yield(s, p)) && Yield(s, p) == YieldOnce(s)
  {
    var i := IndexOf(s.ready, p);
    PickAfterCharge(s, i);
    YieldUnfold(s, p);
    DistinctFrom(s.ready, i);
  }

  lemma DequeueUnit(s: Sched)
    requires CanDequeue(s, s.cur) && Unit(s) && s.cur in s.ready
    ensures Unit(Dequeue(s, s.cur))
  {
    var p := s.cur;
    SoleMember(s, p);
    if s.ready != [p] {
      YieldUnit(s, p);
      DequeueGlobals(s, p);
    }
  }

  /** Dispatching from a state where a process just charged is the running one, or was picked while yielding. */
  lemma DispatchUnit(s: Sched)
    requires SchedInv(s) && Unit(s) && (s.nxt == Nil ==> CanPick(s))
    requires s.nxt != Nil ==> s.nxt == To(s.cur)
    requires s.nxt == Nil && s.cur == s.idle && s.ready != [] ==> s.ready[0] in s.ticks && s.ticks[s.ready[0]] == 1
    ensures Unit(Schedule(Dispatch(s)))
  {
    if s.nxt == Nil {
      if s.cur in s.ready {
        PickAfterCharge(s, IndexOf(s.ready, s.cur));
      } else if s.cur == s.idle {
      } else {
        assert s.ready == [];
        SchedInvTicks(s, Charge(s));
      }
    }
  }

  // ---------- steps and runs ----------

  /** While the idle task runs, at most one process can become ready. */
  lemma IdleWakes(k: State, e: Event)
    requires Inv(k) && Possible(k, e) && k.sched.cur == k.sched.idle
    ensures !Outcome(k, e).block && |Outcome(k, e).wake| <= 1
  {
  }

  lemma SettleUnit(s: Sched, wake: seq<Proc>, block: bool)
    requires SchedInv(s) && Resting(s) && Unit(s)
    requires forall i :: 0 <= i < |wake| ==> wake[i] in s.ticks
    requires block ==> s.cur in s.ready && s.cur !in wake
    requires s.cur == s.idle ==> |wake| <= 1 && !block
    ensures Unit(Settle(s, wake, block))
    ensures var r := Settle(s, wake, block);
      r.nxt == Nil && r.cur == s.idle && r.ready != [] ==> r.ready[0] in r.ticks && r.ticks[r.ready[0]] == 1
  {
    if block {
      BlockUnit(s, wake);
    } else {
      EnqueueAllUnit(s, wake);
      if s.cur == s.idle && |wake| == 1 {
        IdleWakesOne(s, wake[0]);
        assert wake == [wake[0]];
      }
    }
  }

  lemma BlockUnit(s: Sched, wake: seq<Proc>)
    requires SchedInv(s) && Resting(s) && Unit(s)
    requires forall i :: 0 <= i < |wake| ==> wake[i] in s.ticks
    requires s.cur in s.ready && s.cur !in wake
    ensures Unit(Settle(s, wake, true))
    ensures Settle(s, wake, true).cur != s.idle
  {
    EnqueueAllUnit(s, wake);
    var w := EnqueueAll(s, wake);
    DequeueUnit(w);
    DequeueKeeps(w, w.cur);
    IdleNotReady(s);
    IdleNotReady(Dequeue(w, w.cur));
  }

  lemma IdleWakesOne(s: Sched, p: Proc)
    requires SchedInv(s) && s.ready == [] && p in s.ticks && s.cur == s.idle && Unit(s)
    ensures var r := EnqueueAll(s, [p]); r.ready == [p] && p in r.ticks && r.ticks[p] == 1
  {
    EnqueueUnit(s, p);
    EnqueueShape(s, p);
    EnqueueKeeps(s, p);
    assert [p][1..] == [];
  }

  lemma SettledUnit(k: State, e: Event)
    requires Inv(k) && Possible(k, e) && Unit(k.sched)
    ensures Unit(Settled(k, e))
    ensures var s := Settled(k, e);
      s.nxt == Nil && s.cur == k.sched.idle && s.ready != [] ==> s.ready[0] in s.ticks && s.ticks[s.ready[0]] == 1
  {
    StepFacts(k, e);
    if k.sched.cur == k.sched.idle {
      IdleWakes(k, e);
    }
    SettleUnit(k.sched, Outcome(k, e).wake, Outcome(k, e).block);
  }

  lemma StepUnit(k: State, e: Event)
    requires Inv(k) && Possible(k, e) && Unit(k.sched)
    ensures Unit(Settled(k, e)) && Unit(Step(k, e).sched)
  {
    SettledUnit(k, e);
    StepFacts(k, e);
    SettleKeeps(k.sched, Outcome(k, e).wake, Outcome(k, e).block);
    DispatchUnit(Settled(k, e));
  }

  /** The yielding loop charges somebody who holds exactly 1, and ends after one round. */
  ghost predicate YieldsOnce(s: Sched) {
    CanYield(s, s.cur) ==> s.cur in s.ticks && s.ticks[s.cur] == 1 && Yield(s, s.cur) == YieldOnce(s)
  }

  /**
   * Whoever a step charges holds exactly 1: the blocking caller in the yielding loop, which then ends after one round,
   * and the running process when the next one is picked.
   */
  ghost predicate ChargesOnes(k: State, e: Event)
    requires Inv(k) && Possible(k, e)
  {
    StepFacts(k, e);
    var w, s := EnqueueAll(k.sched, Outcome(k, e).wake), Settled(k, e);
    && (Outcome(k, e).block ==> YieldsOnce(w))
    && (s.nxt == Nil && s.cur != s.idle ==> s.cur in s.ticks && s.ticks[s.cur] == 1)
  }

  lemma StepCharges(k: State, e: Event)
    requires Inv(k) && Possible(k, e) && Unit(k.sched)
    ensures ChargesOnes(k, e)
  {
    StepFacts(k, e);
    SettledUnit(k, e);
    SettleKeeps(k.sched, Outcome(k, e).wake, Outcome(k, e).block);
    EnqueueAllUnit(k.sched, Outcome(k, e).wake);
    var w := EnqueueAll(k.sched, Outcome(k, e).wake);
    if Outcome(k, e).block && CanYield(w, w.cur) {
      YieldUnit(w, w.cur);
    }
  }

  /** After any run the next step charges nobody who does not hold exactly 1. */
  lemma RunCharges(k: State, es: seq<Event>, e: Event)
    requires Inv(k) && Feasible(k, es) && Unit(k.sched) && Possible(Run(k, es), e)
    ensures ChargesOnes(Run(k, es), e)
  {
    RunUnit(k, es);
    StepCharges(Run(k, es), e);
  }

  /** In every run all counts stay 0 or 1, and the running process holds exactly 1. */
  lemma {:induction false} RunUnit(k: State, es: seq<Event>)
    requires Inv(k) && Feasible(k, es) && Unit(k.sched)
    ensures Unit(Run(k, es).sched)
    decreases |es|
  {
    if es != [] {
      StepUnit(k, es[0]);
      StepKeeps(k, es[0]);
      RunUnit(Step(k, es[0]), es[1..]);
    }
  }

  // ---------- booting ----------

  /** As shipped: all weights and counts are 1, and nothing of the queue's ticks has been used. */
  ghost predicate AllOnes(s: Sched) {
    && (forall p {:trigger s.ticks[p]} :: p in s.ticks ==> p.schedticks == 1 && s.ticks[p] == 1)
    && s.qticks == Total(s.ready)
  }

  lemma StartOnes(k: State, p: Proc)
    requires Booting(k) && AllOnes(k.sched) && p in k.ipc.status && k.ipc.status[p] == Ipc.Empty
    ensures p in k.sched.ticks && AllOnes(Start(k, p).sched)
  {
    hide Ipc.Inv;
    assert p in k.ipc.status.Keys;
    if p !in k.sched.ready {
      EnqueueGlobals(k.sched, p);
      EnqueueShape(k.sched, p);
      FullShare(Total(k.sched.ready));
    }
  }

  /** Joining a queue that has used nothing costs nothing. */
  lemma FullShare(q: Word)
    ensures JoinTicks(1, q, q, 1) == 1
  {
    assert Mul(0, 1) == Add(Mul(0, 0), 0) == 0;
  }

  /** The runs of a freshly booted kernel with unit weights are unit runs. */
  lemma FirstPickUnit(k: State)
    requires Booting(k) && AllOnes(k.sched)
    ensures CanPick(k.sched) && Dispatch(k.sched).nxt.To? && Unit(Schedule(Dispatch(k.sched)))
  {
    hide Ipc.Inv;
  }

  // ---------- round robin ----------

  /** Nobody joins or leaves the queue. */
  ghost predicate Quiet(k: State, e: Event)
    requires Inv(k) && Possible(k, e)
  {
    Outcome(k, e).wake == [] && !Outcome(k, e).block
  }

  ghost predicate QuietRun(k: State, es: seq<Event>)
    requires Inv(k) && Feasible(k, es)
    decreases |es|
  {
    es == [] || (Quiet(k, es[0]) && (StepKeeps(k, es[0]); QuietRun(Step(k, es[0]), es[1..])))
  }

  /** A quiet step passes the processor to the next in the queue, cyclically. */
  lemma QuietStep(k: State, e: Event, i: nat)
    requires Inv(k) && Possible(k, e) && Quiet(k, e) && Unit(k.sched)
    requires i < |k.sched.ready| && k.sched.cur == k.sched.ready[i]
    ensures var r := Step(k, e).sched;
      r.ready == k.sched.ready && r.cur == k.sched.ready[After(i, |k.sched.ready|)]
  {
    StepFacts(k, e);
    assert Settled(k, e) == k.sched;
    PickAfterCharge(k.sched, i);
    IdleNotReady(k.sched);
  }

  /** The place `m` steps further round a queue of `n`. */
  function Around(i: nat, m: nat, n: nat): (r: nat)
    requires i < n
    ensures r < n
    decreases m
  {
    if m == 0 then i else Around(After(i, n), m - 1, n)
  }

  lemma {:induction false} AroundClosed(i: nat, m: nat, n: nat)
    requires i < n && m <= n
    ensures Around(i, m, n) == if i + m < n then i + m else i + m - n
    decreases m
  {
    if m > 0 {
      AroundClosed(After(i, n), m - 1, n);
    }
  }

  lemma QuietTail(k: State, es: seq<Event>, i: nat)
    requires Inv(k) && Feasible(k, es) && QuietRun(k, es) && Unit(k.sched) && es != []
    requires i < |k.sched.ready| && k.sched.cur == k.sched.ready[i]
    ensures Possible(k, es[0])
    ensures var r := Step(k, es[0]);
      && Inv(r) && Feasible(r, es[1..]) && QuietRun(r, es[1..]) && Unit(r.sched)
      && r.sched.ready == k.sched.ready && r.sched.cur == k.sched.ready[After(i, |k.sched.ready|)]
      && Run(k, es) == Run(r, es[1..])
  {
    StepKeeps(k, es[0]);
    QuietStep(k, es[0], i);
    StepUnit(k, es[0]);
  }

  /** After any number of quiet steps the processor is that many places further round the queue. */
  lemma {:induction false} QuietTurns(k: State, es: seq<Event>, i: nat)
    requires Inv(k) && Feasible(k, es) && QuietRun(k, es) && Unit(k.sched)
    requires i < |k.sched.ready| && k.sched.cur == k.sched.ready[i]
    ensures var r := Run(k, es).sched;
      r.ready == k.sched.ready && r.cur == k.sched.ready[Around(i, |es|, |k.sched.ready|)]
    decreases |es|
  {
    hide Inv, Unit, Possible, Overwrites, Step;
    if es != [] {
      QuietTail(k, es, i);
      QuietTurns(Step(k, es[0]), es[1..], After(i, |k.sched.ready|));
    }
  }

  lemma QuietCharge(k: State, e: Event, i: nat)
    requires Inv(k) && Possible(k, e) && Quiet(k, e) && Unit(k.sched)
    requires i < |k.sched.ready| && k.sched.cur == k.sched.ready[i]
    ensures Step(k, e).sched.qticks == Sub(k.sched.qticks, 1)
  {
    StepFacts(k, e);
    assert Settled(k, e) == k.sched;
    PickAfterCharge(k.sched, i);
    IdleNotReady(k.sched);
  }

  lemma OneLess(x: Word, n: nat)
    ensures (Sub(x, 1) - n) % W == (x - (n + 1)) % W
  {
  }

  /** Nothing renews the queue's own count: it falls by one in every quiet step and wraps at 0. */
  lemma {:induction false} QuietCounter(k: State, es: seq<Event>, i: nat)
    requires Inv(k) && Feasible(k, es) && QuietRun(k, es) && Unit(k.sched)
    requires i < |k.sched.ready| && k.sched.cur == k.sched.ready[i]
    ensures Run(k, es).sched.qticks == (k.sched.qticks - |es|) % W
    decreases |es|
  {
    hide Inv, Unit, Possible, Overwrites, Step, Quiet;
    if es != [] {
      QuietTail(k, es, i);
      QuietHead(k, es);
      QuietCharge(k, es[0], i);
      QuietCounter(Step(k, es[0]), es[1..], After(i, |k.sched.ready|));
      OneLess(k.sched.qticks, |es| - 1);
    }
  }

  lemma QuietHead(k: State, es: seq<Event>)
    requires Inv(k) && Feasible(k, es) && QuietRun(k, es) && es != []
    ensures Possible(k, es[0]) && Quiet(k, es[0])
  {
  }

  /** When, counting from the process at `i`, the one at `t` gets its turn within one round of `n`. */
  function Turn(i: nat, t: nat, n: nat): (m: nat)
    requires i < n && t < n
    ensures 1 <= m <= n
  {
    if t > i then t - i else t + n - i
  }

  /** With an unchanging queue of n processes, any n consecutive picks run each process exactly once. */
  lemma RoundRobin(k: State, es: seq<Event>, i: nat, t: nat)
    requires Inv(k) && Unit(k.sched) && 1 <= |es| <= |k.sched.ready|
    requires Feasible(k, es) && QuietRun(k, es)
    requires i < |k.sched.ready| && k.sched.cur == k.sched.ready[i] && t < |k.sched.ready|
    ensures Run(k, es).sched.cur == k.sched.ready[t] <==> |es| == Turn(i, t, |k.sched.ready|)
  {
    QuietTurns(k, es, i);
    RoundPick(k.sched.ready, i, |es|, t);
  }

  lemma RoundPick(q: seq<Proc>, i: nat, m: nat, t: nat)
    requires NoDup(q) && i < |q| && t < |q| && 1 <= m <= |q|
    ensures q[Around(i, m, |q|)] == q[t] <==> m == Turn(i, t, |q|)
  {
    AroundClosed(i, m, |q|);
    DistinctFrom(q, t);
  }
}
