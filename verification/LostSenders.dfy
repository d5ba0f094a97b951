/** Who waits in vain: senders lost to a registration or left behind by a receiver, exactly who, and for how long. */
module LostSenders {
  import opened Processes
  import opened ReadyQueue
  import opened KernelModel
  import opened KernelRuns
  import Features
  import Ipc
  import IpcInvariant
  import Ram

  // ---------- whole runs ----------

  /** Some event of the run overwrites the list in which `x` waits at that time. */
  ghost predicate LosesIn(k: State, es: seq<Event>, x: Proc)
    requires Inv(k) && Feasible(k, es)
    decreases |es|
  {
    es != [] && (Loses(k, es[0], x) || (StepKeeps(k, es[0]); LosesIn(Step(k, es[0]), es[1..], x)))
  }

  /** No event of the run overwrites a list of waiting senders. */
  ghost predicate NeverOverwrites(k: State, es: seq<Event>)
    requires Inv(k) && Feasible(k, es)
    decreases |es|
  {
    es == [] || (!Overwrites(k, es[0]) && (StepKeeps(k, es[0]); NeverOverwrites(Step(k, es[0]), es[1..])))
  }

  /** After a run exactly those are lost who were before or whose list was overwritten on the way. */
  lemma {:induction false} RunLoses(k: State, es: seq<Event>, x: Proc)
    requires Inv(k) && Feasible(k, es)
    ensures Ipc.Lost(Run(k, es).ipc, x) <==> Ipc.Lost(k.ipc, x) || LosesIn(k, es, x)
    decreases |es|
  {
    hide Inv, Possible, Step, Loses, Ipc.Lost;
    if es != [] {
      StepKeeps(k, es[0]);
      StepLoses(k, es[0], x);
      RunLoses(Step(k, es[0]), es[1..], x);
    }
  }

  /** Everybody who waits stands in his list after a run exactly if so before and no list was overwritten. */
  lemma {:induction false} RunCompleteIff(k: State, es: seq<Event>)
    requires Inv(k) && Feasible(k, es)
    ensures Ipc.Complete(Run(k, es).ipc) <==> Ipc.Complete(k.ipc) && NeverOverwrites(k, es)
    decreases |es|
  {
    hide Inv, Possible, Step, Overwrites, Ipc.Complete;
    if es != [] {
      StepKeeps(k, es[0]);
      StepCompleteIff(k, es[0]);
      RunCompleteIff(Step(k, es[0]), es[1..]);
    }
  }

  /** Once lost, always lost: the process never becomes ready, never runs, and nobody tells it anything. */
  lemma {:induction false} LostForEver(k: State, es: seq<Event>, x: Proc)
    requires Inv(k) && Feasible(k, es) && Ipc.Lost(k.ipc, x)
    ensures var r := Run(k, es);
      && Ipc.Lost(r.ipc, x) && IpcInvariant.Untouched(k.ipc, r.ipc, x)
      && x !in r.sched.ready && x != r.sched.cur
    decreases |es|
  {
    hide Inv, Possible, Step, Ipc.Lost;
    LostIsOut(k, x);
    OutIsIdle(k, x);
    if es != [] {
      StepKeeps(k, es[0]);
      StepLoses(k, es[0], x);
      StepLeavesOut(k, es[0], x);
      LostForEver(Step(k, es[0]), es[1..], x);
    }
  }

  lemma LostIsOut(k: State, x: Proc)
    requires Inv(k) && Ipc.Lost(k.ipc, x)
    ensures IpcInvariant.Out(k.ipc, x)
  {
    IpcInvariant.OutCases(k.ipc, x);
  }

  lemma AbandonedIsOut(k: State, x: Proc)
    requires Inv(k) && IpcInvariant.Abandoned(k.ipc, x)
    ensures IpcInvariant.Out(k.ipc, x)
  {
    IpcInvariant.OutCases(k.ipc, x);
  }

  lemma OutIsIdle(k: State, x: Proc)
    requires Inv(k) && IpcInvariant.Out(k.ipc, x)
    ensures x !in k.sched.ready && x != k.sched.cur && IpcInvariant.Untouched(k.ipc, k.ipc, x)
  {
    assert x in k.sched.ticks.Keys;
  }

  /** Some event of the run makes `x` wait for a process that has left. */
  ghost predicate AbandonsIn(k: State, es: seq<Event>, x: Proc)
    requires Inv(k) && Feasible(k, es)
    decreases |es|
  {
    es != [] && (Abandons(k, es[0], x) || (StepKeeps(k, es[0]); AbandonsIn(Step(k, es[0]), es[1..], x)))
  }

  /** After a run exactly those wait for a process that has left who did before or whom one of its events abandoned. */
  lemma {:induction false} RunAbandons(k: State, es: seq<Event>, x: Proc)
    requires Inv(k) && Feasible(k, es)
    ensures IpcInvariant.Abandoned(Run(k, es).ipc, x) <==> IpcInvariant.Abandoned(k.ipc, x) || AbandonsIn(k, es, x)
    decreases |es|
  {
    hide Inv, Possible, Step, Abandons, IpcInvariant.Abandoned;
    if es != [] {
      StepKeeps(k, es[0]);
      StepAbandons(k, es[0], x);
      RunAbandons(Step(k, es[0]), es[1..], x);
    }
  }

  /** A feature's slot outlives its supplier: whoever waits for a process that has left waits for ever. */
  lemma {:induction false} AbandonedForEver(k: State, es: seq<Event>, x: Proc)
    requires Inv(k) && Feasible(k, es) && IpcInvariant.Abandoned(k.ipc, x)
    ensures var r := Run(k, es);
      && IpcInvariant.Abandoned(r.ipc, x) && IpcInvariant.Untouched(k.ipc, r.ipc, x)
      && x !in r.sched.ready && x != r.sched.cur
    decreases |es|
  {
    hide Inv, Possible, Step, Abandons, IpcInvariant.Abandoned;
    AbandonedIsOut(k, x);
    OutIsIdle(k, x);
    if es != [] {
      StepKeeps(k, es[0]);
      StepAbandons(k, es[0], x);
      StepLeavesOut(k, es[0], x);
      AbandonedForEver(Step(k, es[0]), es[1..], x);
    }
  }

  // ---------- leaving ----------

  lemma AbsentIsOut(k: State, x: Proc)
    requires Inv(k) && x in k.ipc.status && k.ipc.status[x] == Ipc.Empty
    ensures IpcInvariant.Out(k.ipc, x)
  {
    IpcInvariant.OutCases(k.ipc, x);
  }

  /** An absent process stays absent. */
  lemma {:induction false} AbsentForEver(k: State, es: seq<Event>, x: Proc)
    requires Inv(k) && Feasible(k, es) && x in k.ipc.status && k.ipc.status[x] == Ipc.Empty
    ensures var r := Run(k, es);
      && x in r.ipc.status && r.ipc.status[x] == Ipc.Empty && x !in r.sched.ready && x != r.sched.cur
    decreases |es|
  {
    hide Inv, Possible, Step;
    AbsentIsOut(k, x);
    OutIsIdle(k, x);
    if es != [] {
      StepKeeps(k, es[0]);
      StepLeavesOut(k, es[0], x);
      AbsentForEver(Step(k, es[0]), es[1..], x);
    }
  }

  /** What leaving does to `p`: one of the leaver's senders becomes ready and is told, anybody else is left alone. */
  ghost predicate Parted(v: Ipc.Ipc, r: Ipc.Ipc, c: Proc, p: Proc) {
    && c in r.status && r.status[c] == Ipc.Empty && p in r.status && p in r.regs && p in v.status && p in v.regs
    && (if p in SendersOf(v, c) then r.status[p] == Ipc.Ready && r.regs[p].esi == Ipc.PROCESSDIED
        else p != c ==> r.status[p] == v.status[p] && r.regs[p] == v.regs[p])
  }

  lemma ExitParts(v: Ipc.Ipc, c: Proc, p: Proc)
    requires Ipc.Inv(v) && c in v.status && v.status[c] == Ipc.Ready && p in v.status
    ensures Parted(v, Ipc.Exit(v, c).ipc, c, p)
  {
    hide Ipc.Exclusive, Ipc.NoMissed;
    IpcInvariant.ExitEffects(v, c, p);
  }

  lemma SaveParts(k: State, e: Event, r: Ipc.Ipc, p: Proc)
    requires Inv(k) && Possible(k, e) && e.number == 2 && Parted(Save(k, e), r, k.sched.cur, p)
    ensures Parted(k.ipc, r, k.sched.cur, p)
  {
    SaveKeeps(k, e);
  }

  lemma LeavingStep(k: State, e: Event, p: Proc)
    requires Inv(k) && Possible(k, e) && e.number == 2 && e.regs.eax == Ipc.SYS_EXIT && p in k.ipc.status
    ensures Parted(k.ipc, Step(k, e).ipc, k.sched.cur, p)
    ensures p in SendersOf(k.ipc, k.sched.cur) ==> p in Step(k, e).sched.ready
  {
    hide Ipc.Exit, Ipc.Inv, Dispatched, Save;
    SaveKeeps(k, e);
    StepSched(k, e);
    ExitParts(Save(k, e), k.sched.cur, p);
    assert Step(k, e).ipc == Ipc.Exit(Save(k, e), k.sched.cur).ipc;
    SaveParts(k, e, Step(k, e).ipc, p);
  }

  /** After a process has left, its senders know and are ready, and whatever happens later it never runs again. */
  lemma LeavingIsFinal(k: State, e: Event, es: seq<Event>)
    requires Inv(k) && Possible(k, e) && e.number == 2 && e.regs.eax == Ipc.SYS_EXIT
    ensures Inv(Step(k, e))
    ensures forall p :: p in SendersOf(k.ipc, k.sched.cur) ==>
      p in Step(k, e).sched.ready && p in Step(k, e).ipc.regs && Step(k, e).ipc.regs[p].esi == Ipc.PROCESSDIED
    ensures Feasible(Step(k, e), es) ==>
      k.sched.cur !in Run(Step(k, e), es).sched.ready && k.sched.cur != Run(Step(k, e), es).sched.cur
  {
    hide Inv, Possible, Step;
    StepKeeps(k, e);
    forall p | p in SendersOf(k.ipc, k.sched.cur)
      ensures p in Step(k, e).sched.ready && p in Step(k, e).ipc.regs
      ensures Step(k, e).ipc.regs[p].esi == Ipc.PROCESSDIED
    {
      SenderKnown(k, p);
      LeavingStep(k, e, p);
    }
    if Feasible(Step(k, e), es) {
      CallerKnown(k, e);
      LeavingStep(k, e, k.sched.cur);
      AbsentForEver(Step(k, e), es, k.sched.cur);
    }
  }

  lemma SenderKnown(k: State, p: Proc)
    requires Inv(k) && p in SendersOf(k.ipc, k.sched.cur)
    ensures p in k.ipc.status
  {
    var q := SendersOf(k.ipc, k.sched.cur);
    assert k.ipc.lists[Ipc.Senders(k.sched.cur)][IndexOf(q, p)] in k.ipc.status;
  }

  lemma CallerKnown(k: State, e: Event)
    requires Inv(k) && Possible(k, e) && e.number == 2
    ensures k.sched.cur in k.ipc.status
  {
    SaveKeeps(k, e);
  }

  // ---------- who can lose others ----------

  /** Only suppliers of a feature are ever waited for. */
  ghost predicate Supplied(v: Ipc.Ipc) {
    forall p {:trigger Ipc.Senders(p)} ::
      Ipc.Senders(p) in v.lists && v.lists[Ipc.Senders(p)] != [] ==> To(p) in v.suppliers
  }

  lemma SendSupplied(v: Ipc.Ipc, c: Proc)
    requires Ipc.Inv(v) && Supplied(v) && c in v.status && Ipc.FeatureOk(v.regs[c].ebx)
    ensures Supplied(Ipc.SendByFeature(v, c).ipc)
  {
    hide Ipc.Exclusive, Ipc.NoMissed, Ram.Copy;
  }

  lemma ReceiveSupplied(v: Ipc.Ipc, c: Proc)
    requires Ipc.Inv(v) && Supplied(v) && c in v.status
    ensures Supplied(Ipc.Receive(v, c).ipc)
  {
    hide Ipc.NoMissed, Ram.Copy, Ipc.Placed, ReadyQueue.NoDup;
  }

  lemma SetFeatureSupplied(v: Ipc.Ipc, c: Proc)
    requires Ipc.Inv(v) && Supplied(v) && c in v.status && Ipc.FeatureOk(v.regs[c].ebx)
    ensures Supplied(Ipc.SetFeature(v, c).ipc)
  {
    hide Ipc.NoMissed, Ipc.Exclusive;
    var f := v.regs[c].ebx;
    if Features.IsFeature(f) && v.suppliers[Features.LowBit(f)] == Nil {
      var slot := Features.LowBit(f);
      var s := v.suppliers[slot := To(c)];
      assert s[slot] == To(c);
      forall l | l in v.suppliers && l != Nil
        ensures l in s
      {
        var i :| 0 <= i < |v.suppliers| && v.suppliers[i] == l;
        assert s[i] == l;
      }
    }
  }

  lemma InterruptSupplied(v: Ipc.Ipc, c: Proc, n: nat, dev: Ipc.Device)
    requires Ipc.Inv(v) && Supplied(v) && n <= Ipc.MAX_IRQ
    requires n == 2 ==> c in v.status && Ipc.CallOk(v.regs[c])
    ensures Supplied(Ipc.Interrupt(v, c, n, dev).ipc)
  {
    hide Ipc.SetFeature, Ipc.Receive, Ipc.SendByFeature, Ipc.NoMissed;
    if n == 2 {
      var call := v.regs[c].eax;
      if call == Ipc.SYS_SETFEATURE {
        SetFeatureSupplied(v, c);
      } else if call == Ipc.SYS_RECEIVE {
        ReceiveSupplied(v, c);
      } else if call == Ipc.SYS_SEND_BY_FEATURE {
        SendSupplied(v, c);
      }
    }
  }

  lemma StepSupplied(k: State, e: Event)
    requires Inv(k) && Possible(k, e) && Supplied(k.ipc)
    ensures Supplied(Step(k, e).ipc)
  {
    hide Ipc.Interrupt;
    SaveKeeps(k, e);
    assert Supplied(Save(k, e));
    InterruptSupplied(Save(k, e), k.sched.cur, e.number, e.device);
  }

  lemma {:induction false} RunSupplied(k: State, es: seq<Event>)
    requires Inv(k) && Feasible(k, es) && Supplied(k.ipc)
    ensures Supplied(Run(k, es).ipc)
    decreases |es|
  {
    hide Inv, Possible, Step, Supplied;
    if es != [] {
      StepKeeps(k, es[0]);
      StepSupplied(k, es[0]);
      RunSupplied(Step(k, es[0]), es[1..]);
    }
  }

  lemma OverwriterSupplies(k: State, e: Event)
    requires Inv(k) && Possible(k, e) && Supplied(k.ipc) && Overwrites(k, e)
    ensures To(k.sched.cur) in k.ipc.suppliers
  {
    SaveKeeps(k, e);
    assert Ipc.Senders(k.sched.cur) in Save(k, e).lists;
  }

  /** A process can only lose others if it supplies a feature already: a first registration loses nobody. */
  lemma OnlySuppliersOverwrite(k: State, es: seq<Event>, e: Event)
    requires Inv(k) && Feasible(k, es) && Supplied(k.ipc)
    requires Possible(Run(k, es), e) && Overwrites(Run(k, es), e)
    ensures To(Run(k, es).sched.cur) in Run(k, es).ipc.suppliers
  {
    hide Inv, Possible, Overwrites, Supplied;
    RunSupplied(k, es);
    OverwriterSupplies(Run(k, es), e);
  }
}
