/** The whole kernel as a state machine: one step is one interrupt followed by the switch to the process picked. */
module KernelModel {
  import opened Processes
  import opened ReadyQueue
  import Ipc
  import IpcInvariant

  datatype State = State(sched: Sched, ipc: Ipc.Ipc)

  /** An interrupt line, the registers saved from the interrupted process, and what a device call reports. */
  datatype Event = Event(number: nat, regs: Regs, device: Ipc.Device)

  // ---------- the invariant ----------

  /** The ready queue holds exactly the processes whose state says ready. */
  ghost predicate Agree(s: Sched, v: Ipc.Ipc) {
    && v.status.Keys == s.ticks.Keys
    && forall p {:trigger v.status[p]} :: p in v.status ==> (v.status[p] == Ipc.Ready <==> p in s.ready)
  }

  /** Between steps the idle task runs exactly when nothing is ready, and otherwise a queue member runs. */
  ghost predicate Resting(s: Sched) {
    s.nxt == Nil && if s.ready == [] then s.cur == s.idle else s.cur in s.ready
  }

  ghost predicate Inv(k: State) {
    SchedInv(k.sched) && Ipc.Inv(k.ipc) && Agree(k.sched, k.ipc) && Resting(k.sched)
  }

  /** What the environment guarantees: lines 0 to 15, no system call by the idle task, no feature beyond the table. */
  ghost predicate Possible(k: State, e: Event) {
    && e.number <= Ipc.MAX_IRQ
    && (e.number == 2 ==> k.sched.cur != k.sched.idle && Ipc.CallOk(e.regs))
  }

  // ---------- one step ----------

  /** The interrupted process's registers are saved. */
  ghost function Save(k: State, e: Event): Ipc.Ipc {
    if k.sched.cur == k.sched.idle then k.ipc
    else k.ipc.(regs := k.ipc.regs[k.sched.cur := e.regs])
  }

  lemma SaveKeeps(k: State, e: Event)
    requires Inv(k)
    ensures Ipc.Inv(Save(k, e)) && Save(k, e).status == k.ipc.status
    ensures k.sched.cur != k.sched.idle ==>
      k.sched.cur in k.ipc.status && k.ipc.status[k.sched.cur] == Ipc.Ready && Save(k, e).regs[k.sched.cur] == e.regs
  {
    if k.sched.cur != k.sched.idle {
      assert k.sched.ready != [] && k.sched.cur in k.ipc.status.Keys;
      assert k.ipc.status[k.sched.cur] == Ipc.Ready;
    }
    IpcInvariant.SameWaitingKeeps(k.ipc, Save(k, e));
  }

  ghost function Outcome(k: State, e: Event): Ipc.Outcome
    requires Inv(k) && Possible(k, e)
  {
    SaveKeeps(k, e);
    Ipc.Interrupt(Save(k, e), k.sched.cur, e.number, e.device)
  }

  ghost function EnqueueAll(s: Sched, wake: seq<Proc>): (r: Sched)
    requires SchedInv(s) && forall i :: 0 <= i < |wake| ==> wake[i] in s.ticks
    ensures SchedInv(r) && r.ticks.Keys == s.ticks.Keys
    ensures r.idle == s.idle && r.cur == s.cur && r.nxt == s.nxt
    ensures forall p :: p in r.ready <==> p in s.ready || p in wake
    decreases |wake|
  {
    if wake == [] then s
    else
      EnqueueKeeps(s, wake[0]);
      EnqueueAll(Enqueue(s, wake[0]), wake[1..])
  }

  /** The queue operations a call causes: enqueue the woken, then dequeue a blocking caller. */
  ghost function Settle(s: Sched, wake: seq<Proc>, block: bool): (r: Sched)
    requires SchedInv(s) && forall i :: 0 <= i < |wake| ==> wake[i] in s.ticks
    requires block ==> s.cur in s.ticks && s.nxt == Nil
  {
    var w := EnqueueAll(s, wake);
    if block then Dequeue(w, s.cur) else w
  }

  /** If no process was picked on the way, charge the running one and pick. */
  ghost function Dispatch(s: Sched): Sched
    requires SchedInv(s) && (s.nxt == Nil ==> CanPick(s))
  {
    if s.nxt == Nil then Pick(Charge(s)) else s
  }

  /** The switch: the process picked runs. */
  ghost function Schedule(s: Sched): Sched
    requires s.nxt.To?
  {
    s.(cur := s.nxt.p, nxt := Nil)
  }

  lemma SettleKeeps(s: Sched, wake: seq<Proc>, block: bool)
    requires SchedInv(s) && Resting(s)
    requires forall i :: 0 <= i < |wake| ==> wake[i] in s.ticks
    requires block ==> s.cur in s.ready && s.cur !in wake
    ensures var r := Settle(s, wake, block);
      && SchedInv(r) && r.ticks.Keys == s.ticks.Keys && r.idle == s.idle
      && (forall p :: p in r.ready <==> (p in s.ready || p in wake) && !(block && p == s.cur))
      && (r.nxt == Nil ==> CanPick(r))
      && (r.nxt != Nil ==> r.ready != [] && r.nxt == To(r.cur) && r.cur in r.ready)
  {
    var w := EnqueueAll(s, wake);
    if block {
      DequeueKeeps(w, s.cur);
      DequeueKeys(w, s.cur);
    } else {
      if s.cur == s.idle {
      } else {
        assert s.cur in s.ready;
        assert s.cur in w.ready;
      }
    }
  }

  lemma DequeueKeys(s: Sched, p: Proc)
    requires CanDequeue(s, p) && p in s.ready
    ensures Dequeue(s, p).ticks.Keys == s.ticks.Keys && Dequeue(s, p).idle == s.idle
  {
    DequeueHints(s, p);
    SoleMember(s, p);
  }

  lemma DispatchKeeps(s: Sched)
    requires SchedInv(s) && (s.nxt == Nil ==> CanPick(s))
    requires s.nxt != Nil ==> s.ready != [] && s.nxt == To(s.cur) && s.cur in s.ready
    ensures var d := Dispatch(s);
      && SchedInv(d) && d.nxt.To? && d.ready == s.ready && d.ticks.Keys == s.ticks.Keys && d.idle == s.idle
      && (if s.ready == [] then d.nxt == To(s.idle) else d.nxt.p in s.ready)
      && SchedInv(Schedule(d)) && Resting(Schedule(d))
  {
    var d := Dispatch(s);
    if s.nxt == Nil {
      SchedInvTicks(s, Charge(s));
      SchedInvTicks(Charge(s), d);
    }
    SchedInvTicks(d, Schedule(d));
  }

  lemma StepFacts(k: State, e: Event)
    requires Inv(k) && Possible(k, e)
    ensures var o := Outcome(k, e);
      && IpcInvariant.Moves(Save(k, e), k.sched.cur, o)
      && (forall i :: 0 <= i < |o.wake| ==> o.wake[i] in k.sched.ticks)
      && (o.block ==> k.sched.cur in k.sched.ready && k.sched.cur !in o.wake && k.sched.cur in k.sched.ticks)
  {
    SaveKeeps(k, e);
    var o := Outcome(k, e);
    IpcInvariant.InterruptMoves(Save(k, e), k.sched.cur, e.number, e.device);
    forall i | 0 <= i < |o.wake|
      ensures o.wake[i] in k.sched.ticks
    {
      assert o.wake[i] in k.ipc.status.Keys;
    }
    if o.block {
      assert k.ipc.status[k.sched.cur] == Ipc.Ready;
    }
  }

  ghost function Settled(k: State, e: Event): Sched
    requires Inv(k) && Possible(k, e)
  {
    StepFacts(k, e);
    Settle(k.sched, Outcome(k, e).wake, Outcome(k, e).block)
  }

  ghost function Dispatched(k: State, e: Event): (d: Sched)
    requires Inv(k) && Possible(k, e)
    ensures d.nxt.To?
  {
    StepFacts(k, e);
    SettleKeeps(k.sched, Outcome(k, e).wake, Outcome(k, e).block);
    DispatchKeeps(Settled(k, e));
    Dispatch(Settled(k, e))
  }

  lemma DispatchedFacts(k: State, e: Event)
    requires Inv(k) && Possible(k, e)
    ensures SchedInv(Dispatched(k, e))
    ensures Dispatched(k, e).idle == k.sched.idle
    ensures if Dispatched(k, e).ready == [] then Dispatched(k, e).nxt == To(k.sched.idle)
            else Dispatched(k, e).nxt.p in Dispatched(k, e).ready
  {
    StepFacts(k, e);
    SettleKeeps(k.sched, Outcome(k, e).wake, Outcome(k, e).block);
    DispatchKeeps(Settled(k, e));
  }

  /** One interrupt, served and followed by the switch. */
  ghost function Step(k: State, e: Event): State
    requires Inv(k) && Possible(k, e)
  {
    State(Schedule(Dispatched(k, e)), Outcome(k, e).ipc)
  }

  /** The step registers a free feature for a process that already has senders waiting. */
  ghost predicate Overwrites(k: State, e: Event)
    requires Inv(k) && Possible(k, e)
  {
    SaveKeeps(k, e);
    e.number == 2 && IpcInvariant.Overwrites(Save(k, e), k.sched.cur)
  }

  lemma StepSched(k: State, e: Event)
    requires Inv(k) && Possible(k, e)
    ensures var r := Step(k, e); SchedInv(r.sched) && Agree(r.sched, r.ipc) && Resting(r.sched)
  {
    StepFacts(k, e);
    var o := Outcome(k, e);
    SettleKeeps(k.sched, o.wake, o.block);
    DispatchKeeps(Settled(k, e));
    var r := Step(k, e);
    assert r.sched.ready == Settled(k, e).ready;
    forall p {:trigger r.ipc.status[p]} | p in r.ipc.status
      ensures r.ipc.status[p] == Ipc.Ready <==> p in r.sched.ready
    {
      assert k.ipc.status[p] == Ipc.Ready <==> p in k.sched.ready;
    }
  }

  /** Every step keeps the invariant. */
  lemma StepKeeps(k: State, e: Event)
    requires Inv(k) && Possible(k, e)
    ensures Inv(Step(k, e))
  {
    SaveKeeps(k, e);
    StepSched(k, e);
    IpcInvariant.InterruptKeeps(Save(k, e), k.sched.cur, e.number, e.device);
  }

  // ---------- who is lost ----------

  /** The step overwrites the list in which `x` waits. */
  ghost predicate Loses(k: State, e: Event, x: Proc)
    requires Inv(k) && Possible(k, e)
  {
    Overwrites(k, e) && Ipc.Senders(k.sched.cur) in k.ipc.lists && x in k.ipc.lists[Ipc.Senders(k.sched.cur)]
  }

  lemma SavedLost(k: State, e: Event, x: Proc)
    requires Inv(k) && Possible(k, e)
    ensures Ipc.Lost(Save(k, e), x) <==> Ipc.Lost(k.ipc, x)
    ensures Loses(k, e, x) <==>
      (SaveKeeps(k, e); e.number == 2 && IpcInvariant.Loses(Save(k, e), k.sched.cur, x))
  {
    hide Ipc.Exclusive, Ipc.NoMissed;
    SaveKeeps(k, e);
  }

  /** After a step exactly those are lost who were before or whose list it overwrote. */
  lemma StepLoses(k: State, e: Event, x: Proc)
    requires Inv(k) && Possible(k, e)
    ensures Ipc.Lost(Step(k, e).ipc, x) <==> Ipc.Lost(k.ipc, x) || Loses(k, e, x)
  {
    hide Inv, Ipc.Inv, Ipc.Interrupt, Ipc.Lost, Save, Dispatched, Loses, IpcInvariant.Loses;
    SaveKeeps(k, e);
    SavedLost(k, e, x);
    if e.number == 2 {
      Callable(k, e);
    }
    IpcInvariant.InterruptLoses(Save(k, e), k.sched.cur, e.number, e.device, x);
  }

  lemma Callable(k: State, e: Event)
    requires Inv(k) && Possible(k, e) && e.number == 2
    ensures var v := Save(k, e);
      && k.sched.cur in v.status && v.status[k.sched.cur] == Ipc.Ready
      && k.sched.cur in v.regs && Ipc.CallOk(v.regs[k.sched.cur])
  {
    SaveKeeps(k, e);
  }

  lemma LosesOverwrites(k: State, e: Event, x: Proc)
    requires Inv(k) && Possible(k, e) && Loses(k, e, x)
    ensures Overwrites(k, e)
  {
  }

  /** A step leaves nobody lost exactly when nobody was and it overwrites no list of waiting senders. */
  lemma StepCompleteIff(k: State, e: Event)
    requires Inv(k) && Possible(k, e)
    ensures Ipc.Complete(Step(k, e).ipc) <==> Ipc.Complete(k.ipc) && !Overwrites(k, e)
  {
    hide Inv, Possible, Step, Overwrites, Loses, Ipc.Lost;
    if Overwrites(k, e) {
      var x := SomebodyLost(k, e);
      StepLoses(k, e, x);
    }
    forall x | Loses(k, e, x)
      ensures Overwrites(k, e)
    {
      LosesOverwrites(k, e, x);
    }
    forall x {:trigger Ipc.Lost(k.ipc, x)} {:trigger Ipc.Lost(Step(k, e).ipc, x)}
      ensures Ipc.Lost(Step(k, e).ipc, x) <==> Ipc.Lost(k.ipc, x) || Loses(k, e, x)
    {
      StepLoses(k, e, x);
    }
  }

  lemma SomebodyLost(k: State, e: Event) returns (x: Proc)
    requires Inv(k) && Possible(k, e) && Overwrites(k, e)
    ensures Loses(k, e, x)
  {
    SaveKeeps(k, e);
    x := k.ipc.lists[Ipc.Senders(k.sched.cur)][0];
  }

  /** A process that is out does not run, and no step wakes it, moves it or tells it anything. */
  lemma StepLeavesOut(k: State, e: Event, x: Proc)
    requires Inv(k) && Possible(k, e) && IpcInvariant.Out(k.ipc, x)
    ensures IpcInvariant.Untouched(k.ipc, Step(k, e).ipc, x)
    ensures x !in k.sched.ready && x != k.sched.cur
  {
    hide Ipc.Interrupt, Ipc.Exclusive, Ipc.NoMissed;
    SaveKeeps(k, e);
    IpcInvariant.OutUntouched(Save(k, e), k.sched.cur, e.number, e.device, x);
  }

  /** The step makes `x` wait for a process that has left. */
  ghost predicate Abandons(k: State, e: Event, x: Proc)
    requires Inv(k) && Possible(k, e)
  {
    SaveKeeps(k, e);
    e.number == 2 && IpcInvariant.Abandons(Save(k, e), k.sched.cur, x)
  }

  lemma SavedAbandoned(k: State, e: Event, x: Proc)
    requires Inv(k) && Possible(k, e)
    ensures IpcInvariant.Abandoned(Save(k, e), x) <==> IpcInvariant.Abandoned(k.ipc, x)
  {
    SaveKeeps(k, e);
  }

  /** After a step exactly those wait for a process that has left who did before or whom the step abandons. */
  lemma StepAbandons(k: State, e: Event, x: Proc)
    requires Inv(k) && Possible(k, e)
    ensures IpcInvariant.Abandoned(Step(k, e).ipc, x) <==> IpcInvariant.Abandoned(k.ipc, x) || Abandons(k, e, x)
  {
    hide Inv, Ipc.Inv, Ipc.Interrupt, IpcInvariant.Abandoned, IpcInvariant.Abandons, Save, Dispatched;
    SaveKeeps(k, e);
    SavedAbandoned(k, e, x);
    if e.number == 2 {
      Callable(k, e);
    }
    IpcInvariant.InterruptAbandons(Save(k, e), k.sched.cur, e.number, e.device, x);
  }
}
