/** No interrupt is lost: over whole runs, what is latched for a process is exactly what it has not collected yet. */
module IrqDelivery {
  import opened Processes
  import opened KernelModel
  import opened KernelRuns
  import Ipc

  // ---------- latched interrupts as a set ----------

  /** The interrupt numbers a latch word stands for. */
  ghost function Bits(b: bv16): set<nat> {
    set n: nat | n <= Ipc.MAX_IRQ && b & Ipc.Mask(n) != 0
  }

  lemma LatchAdds(b: bv16, n: nat)
    requires n <= Ipc.MAX_IRQ
    ensures Bits(Ipc.Latch(b, n)) == Bits(b) + {n}
  {
    forall i: nat | i <= Ipc.MAX_IRQ
      ensures (b | Ipc.Mask(n)) & Ipc.Mask(i) != 0 <==> b & Ipc.Mask(i) != 0 || i == n
    {
      OrBits(b, Ipc.Mask(n), Ipc.Mask(i));
      OneBit(n, i);
    }
  }

  lemma OrBits(b: bv16, m: bv16, x: bv16)
    ensures (b | m) & x != 0 <==> b & x != 0 || m & x != 0
  {
  }

  lemma OneBit(n: nat, i: nat)
    requires n <= Ipc.MAX_IRQ && i <= Ipc.MAX_IRQ
    ensures Ipc.Mask(n) & Ipc.Mask(i) != 0 <==> i == n
  {
  }

  /** A latch word is zero exactly when nothing is latched. */
  lemma NothingLatched(b: bv16)
    ensures b == 0 <==> Bits(b) == {}
  {
    if b != 0 {
      SomeBit(b);
      var n: nat :| n <= Ipc.MAX_IRQ && b & Ipc.Mask(n) != 0;
      assert n in Bits(b);
    }
  }

  lemma SomeBit(b: bv16)
    requires b != 0
    ensures exists n: nat {:trigger Ipc.Mask(n)} :: n <= Ipc.MAX_IRQ && b & Ipc.Mask(n) != 0
  {
    assert b & Ipc.Mask(0) != 0 || b & Ipc.Mask(1) != 0 || b & Ipc.Mask(2) != 0 || b & Ipc.Mask(3) != 0
        || b & Ipc.Mask(4) != 0 || b & Ipc.Mask(5) != 0 || b & Ipc.Mask(6) != 0 || b & Ipc.Mask(7) != 0
        || b & Ipc.Mask(8) != 0 || b & Ipc.Mask(9) != 0 || b & Ipc.Mask(10) != 0 || b & Ipc.Mask(11) != 0
        || b & Ipc.Mask(12) != 0 || b & Ipc.Mask(13) != 0 || b & Ipc.Mask(14) != 0 || b & Ipc.Mask(15) != 0;
  }

  // ---------- histories ----------

  /** The event is a hardware interrupt that `o` owns. */
  ghost predicate Raises(k: State, e: Event, o: Proc)
    requires Inv(k) && Possible(k, e)
  {
    e.number != 0 && e.number != 2 && k.ipc.irqs[e.number] == To(o)
  }

  /** The event is a receive by `o` with a valid buffer. */
  ghost predicate Collects(k: State, e: Event, o: Proc) {
    && e.number == 2 && k.sched.cur == o
    && e.regs.eax == Ipc.SYS_RECEIVE && Ipc.ValidArea(o, e.regs)
  }

  /** What remains to be collected by `o` after an event: raised and not delivered at once, and not collected. */
  ghost function After(k: State, e: Event, o: Proc, waiting: set<nat>): set<nat>
    requires Inv(k) && Possible(k, e) && o in k.ipc.status
  {
    if Raises(k, e, o) && !k.ipc.status[o].Receiving? then waiting + {e.number}
    else if Collects(k, e, o) then {}
    else waiting
  }

  ghost function Pending(k: State, es: seq<Event>, o: Proc, waiting: set<nat>): set<nat>
    requires Inv(k) && Feasible(k, es) && o in k.ipc.status
    decreases |es|
  {
    if es == [] then waiting
    else
      StepKeeps(k, es[0]);
      StepKeys(k, es[0]);
      Pending(Step(k, es[0]), es[1..], o, After(k, es[0], o, waiting))
  }

  lemma StepKeys(k: State, e: Event)
    requires Inv(k) && Possible(k, e)
    ensures Step(k, e).ipc.status.Keys == k.ipc.status.Keys
  {
    SaveKeeps(k, e);
    StepFacts(k, e);
  }

  /** One event changes what is latched as the history says. */
  lemma StepLatches(k: State, e: Event, o: Proc)
    requires Inv(k) && Possible(k, e) && o in k.ipc.status
    ensures o in Step(k, e).ipc.interrupts
    ensures Bits(Step(k, e).ipc.interrupts[o]) == After(k, e, o, Bits(k.ipc.interrupts[o]))
  {
    if e.number == 2 {
      StepCallLatches(k, e, o);
    } else {
      StepLineLatches(k, e, o);
    }
  }

  /** What saving the registers leaves alone. */
  lemma SaveFacts(k: State, e: Event, o: Proc)
    requires Inv(k) && Possible(k, e) && o in k.ipc.status
    ensures var v := Save(k, e);
      && Ipc.Inv(v) && v.status == k.ipc.status && v.interrupts == k.ipc.interrupts && v.irqs == k.ipc.irqs
      && o in v.interrupts && |v.irqs| == Ipc.MAX_IRQ + 1
      && (k.sched.cur != k.sched.idle ==>
           k.sched.cur in v.status && k.sched.cur in v.regs && v.regs[k.sched.cur] == e.regs)
  {
    SaveKeeps(k, e);
  }

  lemma StepCallLatches(k: State, e: Event, o: Proc)
    requires Inv(k) && Possible(k, e) && o in k.ipc.status && e.number == 2
    ensures o in Step(k, e).ipc.interrupts
    ensures Bits(Step(k, e).ipc.interrupts[o]) == if Collects(k, e, o) then {} else Bits(k.ipc.interrupts[o])
  {
    hide Inv, Bits, Ipc.Inv, Ipc.Syscall, Dispatched;
    SaveFacts(k, e, o);
    CallLatches(Save(k, e), k.sched.cur, e.device, o);
    NothingLatched(0);
  }

  lemma StepLineLatches(k: State, e: Event, o: Proc)
    requires Inv(k) && Possible(k, e) && o in k.ipc.status && e.number != 2
    ensures o in Step(k, e).ipc.interrupts
    ensures Bits(Step(k, e).ipc.interrupts[o]) ==
      if Raises(k, e, o) && !k.ipc.status[o].Receiving? then Bits(k.ipc.interrupts[o]) + {e.number}
      else Bits(k.ipc.interrupts[o])
  {
    hide Inv, Bits, Ipc.Inv, Ipc.Notify, Dispatched;
    SaveFacts(k, e, o);
    LineLatches(Save(k, e), k.sched.cur, e.number, e.device, o);
  }

  lemma LineLatches(v: Ipc.Ipc, c: Proc, n: nat, dev: Ipc.Device, o: Proc)
    requires Ipc.Inv(v) && n <= Ipc.MAX_IRQ && n != 2 && o in v.status
    ensures var r := Ipc.Interrupt(v, c, n, dev).ipc;
      && o in r.interrupts
      && Bits(r.interrupts[o]) ==
         if n != 0 && v.irqs[n] == To(o) && !v.status[o].Receiving? then Bits(v.interrupts[o]) + {n}
         else Bits(v.interrupts[o])
  {
    hide Bits, Ipc.Exclusive, Ipc.NoMissed, Ipc.Mask, Ipc.Latch;
    LatchAdds(v.interrupts[o], n);
  }

  /** Only a valid receive by the caller itself touches what is latched, and it clears everything. */
  lemma CallLatches(v: Ipc.Ipc, c: Proc, dev: Ipc.Device, o: Proc)
    requires Ipc.Inv(v) && c in v.status && Ipc.CallOk(v.regs[c]) && o in v.status
    ensures var r := Ipc.Syscall(v, c, dev).ipc;
      && o in r.interrupts
      && r.interrupts[o] ==
         if o == c && v.regs[c].eax == Ipc.SYS_RECEIVE && Ipc.ValidArea(c, v.regs[c]) then 0 else v.interrupts[o]
  {
    var call := v.regs[c].eax;
    if call == Ipc.SYS_RECEIVE {
      ReceiveLatches(v, c);
    } else if call == Ipc.SYS_SEND_BY_FEATURE {
      SendLatches(v, c);
    } else if call == Ipc.SYS_SETFEATURE {
      assert Ipc.SetFeature(v, c).ipc.interrupts == v.interrupts;
    } else if call == Ipc.SYS_EXIT {
      assert Ipc.Exit(v, c).ipc.interrupts == v.interrupts;
    } else if call == Ipc.SYS_REQUEST_IRQ {
      assert Ipc.RequestIrq(v, c).ipc.interrupts == v.interrupts;
    }
  }

  lemma SendLatches(v: Ipc.Ipc, c: Proc)
    requires Ipc.Shape(v) && c in v.status && Ipc.FeatureOk(v.regs[c].ebx)
    ensures Ipc.SendByFeature(v, c).ipc.interrupts == v.interrupts
  {
  }

  lemma ReceiveLatches(v: Ipc.Ipc, c: Proc)
    requires Ipc.Inv(v) && c in v.status
    ensures var o := Ipc.Receive(v, c);
      && o.ipc.interrupts == (if Ipc.ValidArea(c, v.regs[c]) then v.interrupts[c := 0] else v.interrupts)
      && (Ipc.ValidArea(c, v.regs[c]) && v.interrupts[c] != 0 ==>
           && o.ipc.regs == v.regs[c := v.regs[c].(eax := 0, esi := v.interrupts[c] as int)]
           && o.ipc.status == v.status)
  {
    if Ipc.ValidArea(c, v.regs[c]) && v.interrupts[c] == 0 {
      assert v.interrupts[c := 0] == v.interrupts;
    }
  }

  /** In every run the latch word of a process holds exactly the interrupts that are pending for it. */
  lemma {:induction false} LatchedIsPending(k: State, es: seq<Event>, o: Proc)
    requires Inv(k) && Feasible(k, es) && o in k.ipc.status
    ensures o in Run(k, es).ipc.interrupts
    ensures Bits(Run(k, es).ipc.interrupts[o]) == Pending(k, es, o, Bits(k.ipc.interrupts[o]))
    decreases |es|
  {
    if es != [] {
      StepKeeps(k, es[0]);
      StepKeys(k, es[0]);
      StepLatches(k, es[0], o);
      LatchedIsPending(Step(k, es[0]), es[1..], o);
    }
  }

  // ---------- delivery ----------

  /** An interrupt for a receiver is delivered at once: it becomes ready and finds the interrupt's bit in esi. */
  lemma DeliveredAtOnce(k: State, es: seq<Event>, e: Event, o: Proc)
    requires Inv(k) && Feasible(k, es) && Possible(Run(k, es), e)
    requires o in Run(k, es).ipc.status && Raises(Run(k, es), e, o) && Run(k, es).ipc.status[o].Receiving?
    ensures var r := Step(Run(k, es), e);
      && o in r.ipc.status && o in r.ipc.regs && o in r.ipc.interrupts
      && o in r.sched.ready && r.ipc.status[o] == Ipc.Ready
      && r.ipc.regs[o].esi == Ipc.Mask(e.number) as int && r.ipc.regs[o].eax == 0
      && r.ipc.interrupts[o] == 0
  {
    var x := Run(k, es);
    SaveKeeps(x, e);
    StepSched(x, e);
    assert Step(x, e).ipc.status[o] == Ipc.Ready;
  }

  /** A valid receive after any run returns exactly the pending interrupts, if there are any, and clears them. */
  lemma ReceiveCollects(k: State, es: seq<Event>, e: Event, o: Proc)
    requires Inv(k) && Feasible(k, es) && Possible(Run(k, es), e)
    requires o in k.ipc.status && Collects(Run(k, es), e, o)
    ensures var p, r := Pending(k, es, o, Bits(k.ipc.interrupts[o])), Step(Run(k, es), e);
      && o in r.ipc.status && o in r.ipc.regs && o in r.ipc.interrupts
      && r.ipc.interrupts[o] == 0
      && (p != {} ==>
           && r.ipc.status[o] == Ipc.Ready && r.ipc.regs[o].eax == 0
           && 0 <= r.ipc.regs[o].esi < 0x1_0000 && Bits(r.ipc.regs[o].esi as bv16) == p)
  {
    hide Inv, Bits, Step, Possible;
    var x := Run(k, es);
    LatchedIsPending(k, es, o);
    NothingLatched(x.ipc.interrupts[o]);
    StatusKnown(x, o);
    CollectStep(x, e, o);
  }

  lemma StatusKnown(k: State, o: Proc)
    requires Inv(k) && o in k.ipc.interrupts
    ensures o in k.ipc.status
  {
  }

  lemma CollectStep(k: State, e: Event, o: Proc)
    requires Inv(k) && Possible(k, e) && o in k.ipc.status && Collects(k, e, o)
    ensures var r := Step(k, e).ipc;
      && o in r.status && o in r.regs && o in r.interrupts && r.interrupts[o] == 0
      && (k.ipc.interrupts[o] != 0 ==>
           r.status[o] == Ipc.Ready && r.regs[o].eax == 0 && r.regs[o].esi == k.ipc.interrupts[o] as int)
  {
    hide Inv, Ipc.Inv, Ipc.Receive, Dispatched;
    SaveFacts(k, e, o);
    SaveKeeps(k, e);
    CurrentCollects(k, e, o);
    ReceiveLatches(Save(k, e), o);
    ReceiveRegs(Save(k, e), o);
  }

  /** The step of a collecting receive is that receive. */
  lemma CurrentCollects(k: State, e: Event, o: Proc)
    requires Inv(k) && Possible(k, e) && o in k.ipc.status && Collects(k, e, o)
    ensures Ipc.Inv(Save(k, e)) && Step(k, e).ipc == Ipc.Receive(Save(k, e), o).ipc
    ensures k.ipc.status[o] == Ipc.Ready && k.sched.cur != k.sched.idle
  {
    SaveKeeps(k, e);
  }

  lemma ReceiveRegs(v: Ipc.Ipc, c: Proc)
    requires Ipc.Inv(v) && c in v.status
    ensures c in Ipc.Receive(v, c).ipc.regs && c in Ipc.Receive(v, c).ipc.status
  {
  }

  /** The events contain no valid receive by `o`. */
  ghost predicate NeverCollects(k: State, es: seq<Event>, o: Proc)
    requires Inv(k) && Feasible(k, es)
    decreases |es|
  {
    es == [] || (!Collects(k, es[0], o) && (StepKeeps(k, es[0]); NeverCollects(Step(k, es[0]), es[1..], o)))
  }

  lemma StepStays(k: State, e: Event, o: Proc, n: nat)
    requires Inv(k) && Possible(k, e) && o in k.ipc.status && !Collects(k, e, o)
    requires n in Bits(k.ipc.interrupts[o])
    ensures o in Step(k, e).ipc.interrupts && n in Bits(Step(k, e).ipc.interrupts[o])
  {
    StepLatches(k, e, o);
  }

  /** Once latched, an interrupt stays latched until the next valid receive of its owner. */
  lemma {:induction false} StaysLatched(k: State, es: seq<Event>, o: Proc, n: nat)
    requires Inv(k) && Feasible(k, es) && o in k.ipc.status && NeverCollects(k, es, o)
    requires n in Bits(k.ipc.interrupts[o])
    ensures o in Run(k, es).ipc.interrupts && n in Bits(Run(k, es).ipc.interrupts[o])
    decreases |es|
  {
    if es != [] {
      StepKeeps(k, es[0]);
      StepKeys(k, es[0]);
      StepStays(k, es[0], o, n);
      StaysLatched(Step(k, es[0]), es[1..], o, n);
    }
  }
}
