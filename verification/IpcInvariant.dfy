/**
 * What every system call and interrupt keeps: a process stands in no list but its own and no rendezvous is missed;
 * and who, in spite of that, gets lost.
 */
module IpcInvariant {
  import opened Word32
  import opened Processes
  import opened Ipc
  import ReadyQueue
  import Features
  import Ram

  // ---------- effects that leave status and lists alone ----------

  /** `r` differs from `v` only in registers, memory, suppliers and interrupt owners, all still well shaped. */
  ghost predicate SameWaiting(v: Ipc, r: Ipc) {
    r.status == v.status && r.lists == v.lists && r.interrupts == v.interrupts && Shape(r)
  }

  lemma SameWaitingKeeps(v: Ipc, r: Ipc)
    requires Inv(v) && SameWaiting(v, r)
    ensures Inv(r)
  {
    forall p, o {:trigger Placed(r, p, o)} | p in r.status && o in r.lists
      ensures Placed(r, p, o)
    {
      assert Placed(v, p, o);
    }
  }

  lemma FailKeeps(v: Ipc, c: Proc, e: int)
    requires Inv(v) && c in v.status
    ensures SameWaiting(v, SetErr(v, c, e)) && Inv(SetErr(v, c, e))
  {
    SameWaitingKeeps(v, SetErr(v, c, e));
  }

  lemma EaxKeeps(v: Ipc, c: Proc, n: Word)
    requires Inv(v) && c in v.status
    ensures SameWaiting(v, SetEax(v, c, n)) && Inv(SetEax(v, c, n))
  {
    SameWaitingKeeps(v, SetEax(v, c, n));
  }

  lemma ExchangeKeeps(v: Ipc, s: Proc, r: Proc)
    requires Inv(v) && s in v.status && r in v.status
    ensures SameWaiting(v, Exchange(v, s, r)) && Inv(Exchange(v, s, r))
  {
    SameWaitingKeeps(v, Exchange(v, s, r));
  }

  // ---------- status changes ----------

  /** Waking a receiver. */
  lemma WakeReceiverKeeps(v: Ipc, p: Proc)
    requires Inv(v) && p in v.status && v.status[p].Receiving?
    ensures Inv(Wake(v, p))
  {
    var r := Wake(v, p);
    forall x, o {:trigger Placed(r, x, o)} | x in r.status && o in r.lists
      ensures Placed(r, x, o)
    {
      assert Placed(v, x, o);
    }
  }

  /** A process that finds nothing to receive may wait. */
  lemma StartReceivingKeeps(v: Ipc, c: Proc, from: Word)
    requires Inv(v) && c in v.status && v.status[c] == Ready
    requires v.interrupts[c] == 0 && FindSender(v.lists[Senders(c)], from) == Nil
    ensures Inv(v.(status := v.status[c := Receiving(from)]))
  {
    var r := v.(status := v.status[c := Receiving(from)]);
    forall x, o {:trigger Placed(r, x, o)} | x in r.status && o in r.lists
      ensures Placed(r, x, o)
    {
      assert Placed(v, x, o);
    }
  }

  lemma NoDupAppend(q: seq<Proc>, p: Proc)
    requires ReadyQueue.NoDup(q) && p !in q
    ensures ReadyQueue.NoDup(q + [p])
  {
    ReadyQueue.Distinct(q);
    ReadyQueue.Distinct(q + [p]);
  }

  lemma {:induction false} FindAppend(q: seq<Proc>, p: Proc, desired: Word)
    ensures FindSender(q + [p], desired) ==
      if FindSender(q, desired) != Nil then FindSender(q, desired)
      else if desired == ANYPROC || p.addr == desired then To(p) else Nil
  {
    if q != [] {
      assert (q + [p])[1..] == q[1..] + [p];
      FindAppend(q[1..], p, desired);
    }
  }

  /** A running process may line up behind the others of a list whose receiver would not take it now. */
  lemma AppendKeeps(v: Ipc, c: Proc, o: Owner, flagged: bool)
    requires Inv(v) && c in v.status && o in v.lists && v.status[c] == Ready
    requires o.Senders? ==> !ReceivingFrom(v, o.p, c)
    ensures Inv(Append(v, c, o, flagged))
  {
    var r := Append(v, c, o, flagged);
    assert Placed(v, c, o);
    NoDupAppend(v.lists[o], c);
    forall x, w {:trigger Placed(r, x, w)} | x in r.status && w in r.lists
      ensures Placed(r, x, w)
    {
      assert Placed(v, x, w);
    }
    AppendNoMissed(v, c, o, flagged);
  }

  lemma AppendNoMissed(v: Ipc, c: Proc, o: Owner, flagged: bool)
    requires Inv(v) && c in v.status && o in v.lists && v.status[c] == Ready
    requires o.Senders? ==> !ReceivingFrom(v, o.p, c)
    ensures NoMissed(Append(v, c, o, flagged))
  {
    var r := Append(v, c, o, flagged);
    forall p {:trigger r.status[p]} | p in r.status && r.status[p].Receiving?
      ensures p in r.interrupts && r.interrupts[p] == 0
      ensures Senders(p) in r.lists && FindSender(r.lists[Senders(p)], r.status[p].from) == Nil
    {
      assert p != c;
      FindAppend(v.lists[Senders(p)], c, v.status[p].from);
    }
  }

  /** Taking one process out of a list and waking it. */
  ghost function TakeOut(v: Ipc, p: Proc, o: Owner): Ipc
    requires o in v.lists
  {
    Wake(v, p).(lists := v.lists[o := ReadyQueue.Remove(v.lists[o], p)])
  }

  lemma RemoveMembers(q: seq<Proc>, p: Proc)
    requires p in q && ReadyQueue.NoDup(q)
    ensures ReadyQueue.NoDup(ReadyQueue.Remove(q, p))
    ensures forall x :: x in ReadyQueue.Remove(q, p) <==> x in q && x != p
  {
    ReadyQueue.RemoveFacts(q, p);
  }

  lemma TakeOutKeeps(v: Ipc, p: Proc, c: Proc)
    requires Inv(v) && p in v.status && c in v.status && p in v.lists[Senders(c)]
    requires !v.status[c].Receiving?
    ensures Inv(TakeOut(v, p, Senders(c)))
  {
    var o := Senders(c);
    var r := TakeOut(v, p, o);
    assert Placed(v, p, o);
    RemoveMembers(v.lists[o], p);
    forall x, w {:trigger Placed(r, x, w)} | x in r.status && w in r.lists
      ensures Placed(r, x, w)
    {
      assert Placed(v, x, w);
    }
    assert Exclusive(r) by {
      forall w, i {:trigger r.lists[w][i]} | w in r.lists && 0 <= i < |r.lists[w]|
        ensures r.lists[w][i] in r.status
      {
        if w == o {
          assert r.lists[o][i] in v.lists[o];
        }
      }
    }
  }

  // ---------- registering a feature ----------

  /** Handing a slot's waiters to their supplier keeps the invariant, even over a list that is not empty. */
  lemma HandOverKeeps(v: Ipc, c: Proc, slot: nat)
    requires Inv(v) && c in v.status && v.status[c] == Ready && slot < FEATURE_SLOTS
    ensures Inv(HandOver(v, c, slot))
  {
    HandOverExclusive(v, c, slot);
    HandOverShape(v, c, slot);
  }

  lemma HandOverShape(v: Ipc, c: Proc, slot: nat)
    requires Inv(v) && c in v.status && v.status[c] == Ready && slot < FEATURE_SLOTS
    ensures Shape(HandOver(v, c, slot)) && NoMissed(HandOver(v, c, slot))
  {
    var r := HandOver(v, c, slot);
    assert r.status.Keys == v.status.Keys;
    forall x {:trigger r.status[x]} | x in r.status && r.status[x].Receiving?
      ensures x in r.interrupts && r.interrupts[x] == 0
      ensures Senders(x) in r.lists && FindSender(r.lists[Senders(x)], r.status[x].from) == Nil
    {
      assert v.status[x].Receiving?;
    }
  }

  lemma HandOverExclusive(v: Ipc, c: Proc, slot: nat)
    requires Inv(v) && c in v.status && v.status[c] == Ready && slot < FEATURE_SLOTS
    ensures Exclusive(HandOver(v, c, slot))
  {
    var r := HandOver(v, c, slot);
    forall x, w {:trigger Placed(r, x, w)} | x in r.status && w in r.lists
      ensures Placed(r, x, w)
    {
      assert Placed(v, x, w) && Placed(v, x, Waiters(slot)) && Placed(v, x, Senders(c));
    }
    forall w, i {:trigger r.lists[w][i]} | w in r.lists && 0 <= i < |r.lists[w]|
      ensures r.lists[w][i] in r.status
    {
      if w == Senders(c) {
        assert r.lists[w][i] == v.lists[Waiters(slot)][i];
      }
    }
  }

  // ---------- leaving ----------

  lemma ExitShape(v: Ipc, c: Proc)
    requires Inv(v) && c in v.status
    ensures Shape(Exit(v, c).ipc)
  {
    hide Exclusive, NoMissed;
    var r := Exit(v, c).ipc;
    assert r.status.Keys == v.status.Keys && r.regs.Keys == v.regs.Keys;
  }

  lemma ExitExclusive(v: Ipc, c: Proc)
    requires Inv(v) && c in v.status && v.status[c] == Ready
    ensures Exclusive(Exit(v, c).ipc)
  {
    hide NoMissed;
    var r := Exit(v, c).ipc;
    assert Placed(v, c, Senders(c));
    forall x, w {:trigger Placed(r, x, w)} | x in r.status && w in r.lists
      ensures Placed(r, x, w)
    {
      assert Placed(v, x, w) && Placed(v, x, Senders(c));
    }
  }

  lemma ExitKeeps(v: Ipc, c: Proc)
    requires Inv(v) && c in v.status && v.status[c] == Ready
    ensures Inv(Exit(v, c).ipc)
  {
    hide Exclusive, NoMissed, Shape, Exit;
    ExitShape(v, c);
    ExitExclusive(v, c);
    ExitNoMissed(v, c);
  }

  /** What leaving means for others: its senders are ready and know, its lines are free, except the last one. */
  lemma ExitEffects(v: Ipc, c: Proc, p: Proc)
    requires Inv(v) && c in v.status && v.status[c] == Ready && p in v.status
    ensures var r, q := Exit(v, c).ipc, v.lists[Senders(c)];
      && r.status[c] == Empty && r.lists[Senders(c)] == []
      && (p in q ==> r.status[p] == Ready && r.regs[p] == v.regs[p].(esi := PROCESSDIED))
      && (p !in q && p != c ==> r.status[p] == v.status[p] && r.regs[p] == v.regs[p])
      && (forall n :: 0 <= n < MAX_IRQ ==> r.irqs[n] == if v.irqs[n] == To(c) then Nil else v.irqs[n])
      && r.irqs[MAX_IRQ] == v.irqs[MAX_IRQ]
  {
    hide NoMissed;
    assert Placed(v, c, Senders(c)) && Placed(v, p, Senders(c));
  }

  lemma ExitNoMissed(v: Ipc, c: Proc)
    requires Inv(v) && c in v.status && v.status[c] == Ready
    ensures NoMissed(Exit(v, c).ipc)
  {
    hide Exclusive, FindSender;
    var r := Exit(v, c).ipc;
    forall x {:trigger r.status[x]} | x in r.status && r.status[x].Receiving?
      ensures x in r.interrupts && r.interrupts[x] == 0
      ensures Senders(x) in r.lists && FindSender(r.lists[Senders(x)], r.status[x].from) == Nil
    {
      assert v.status[x].Receiving?;
    }
  }

  // ---------- interrupts ----------

  lemma LatchKeeps(v: Ipc, o: Proc, bits: bv16)
    requires Inv(v) && o in v.status && !v.status[o].Receiving?
    ensures Inv(v.(interrupts := v.interrupts[o := bits]))
  {
    var r := v.(interrupts := v.interrupts[o := bits]);
    forall x, w {:trigger Placed(r, x, w)} | x in r.status && w in r.lists
      ensures Placed(r, x, w)
    {
      assert Placed(v, x, w);
    }
  }

  lemma NotifyKeeps(v: Ipc, o: Proc, n: nat)
    requires Inv(v) && o in v.status && n <= MAX_IRQ
    ensures Inv(Notify(v, o, n).ipc)
  {
    if v.status[o].Receiving? {
      WakeReceiverKeeps(v, o);
      FailKeeps(Wake(v, o), o, Mask(n) as int);
      EaxKeeps(SetErr(Wake(v, o), o, Mask(n) as int), o, 0);
    } else {
      LatchKeeps(v, o, Latch(v.interrupts[o], n));
    }
  }

  lemma RequestIrqKeeps(v: Ipc, c: Proc)
    requires Inv(v) && c in v.status
    ensures Inv(RequestIrq(v, c).ipc)
  {
    var irq := v.regs[c].ebx;
    if irq == 0 || irq == 2 || irq > MAX_IRQ {
      FailKeeps(v, c, INVALIDIRQ);
    } else if v.irqs[irq] != Nil && v.irqs[irq] != To(c) {
      FailKeeps(v, c, IRQINUSE);
    } else {
      var x := v.(irqs := v.irqs[irq := To(c)]);
      SameWaitingKeeps(v, x);
      FailKeeps(x, c, OK);
    }
  }

  // ---------- rendezvous ----------

  lemma SendKeeps(v: Ipc, c: Proc, r: Proc)
    requires Inv(v) && c in v.status && r in v.status && v.status[c] == Ready
    ensures Inv(Send(v, c, r).ipc)
  {
    if !ValidArea(c, v.regs[c]) {
      FailKeeps(v, c, INVALIDBUFFER);
    } else if ReceivingFrom(v, r, c) {
      var x := Exchange(v, c, r);
      ExchangeKeeps(v, c, r);
      WakeReceiverKeeps(x, r);
      FailKeeps(Wake(x, r), c, OK);
      FailKeeps(SetErr(Wake(x, r), c, OK), r, OK);
    } else {
      AppendKeeps(v, c, Senders(r), true);
    }
  }

  lemma SendByFeatureKeeps(v: Ipc, c: Proc)
    requires Inv(v) && c in v.status && v.status[c] == Ready && FeatureOk(v.regs[c].ebx)
    ensures Inv(SendByFeature(v, c).ipc)
  {
    var f := v.regs[c].ebx;
    if !Features.IsFeature(f) {
      FailKeeps(v, c, INVALIDFEATURE);
    } else {
      SendToSlotKeeps(v, c, Features.LowBit(f));
    }
  }

  lemma SendToSlotKeeps(v: Ipc, c: Proc, slot: nat)
    requires Inv(v) && c in v.status && v.status[c] == Ready && slot < FEATURE_SLOTS
    ensures Inv(SendToSlot(v, c, slot).ipc)
  {
    var supplier := v.suppliers[slot];
    if supplier == To(c) {
      FailKeeps(v, c, CIRCULARSEND);
    } else if supplier.To? {
      var x := v.(regs := v.regs[c := v.regs[c].(ebx := supplier.p.addr)]);
      SameWaitingKeeps(v, x);
      SendKeeps(x, c, supplier.p);
    } else if v.regs[c].edi == BLOCK {
      AppendKeeps(v, c, Waiters(slot), false);
    } else {
      FailKeeps(v, c, WOULDBLOCK);
    }
  }

  lemma ReceiveKeeps(v: Ipc, c: Proc)
    requires Inv(v) && c in v.status && v.status[c] == Ready
    ensures Inv(Receive(v, c).ipc)
  {
    if !ValidArea(c, v.regs[c]) {
      FailKeeps(v, c, INVALIDBUFFER);
    } else if v.interrupts[c] != 0 {
      LatchKeeps(v, c, 0);
      EaxKeeps(v.(interrupts := v.interrupts[c := 0]), c, 0);
      FailKeeps(SetEax(v.(interrupts := v.interrupts[c := 0]), c, 0), c, v.interrupts[c] as int);
    } else {
      var q := v.lists[Senders(c)];
      var s := FindSender(q, v.regs[c].ebx);
      if s.To? {
        var i := ReadyQueue.IndexOf(q, s.p);
        assert v.lists[Senders(c)][i] in v.status;
        var x := Exchange(v, s.p, c);
        ExchangeKeeps(v, s.p, c);
        TakeOutKeeps(x, s.p, c);
        var y := TakeOut(x, s.p, Senders(c));
        FailKeeps(y, s.p, OK);
        FailKeeps(SetErr(y, s.p, OK), c, OK);
      } else {
        StartReceivingKeeps(v, c, v.regs[c].ebx);
      }
    }
  }

  // ---------- all calls together ----------

  lemma HandOverHasShape(v: Ipc, c: Proc, slot: nat)
    requires Inv(v) && c in v.status && slot < FEATURE_SLOTS
    ensures Shape(HandOver(v, c, slot))
  {
    assert HandOver(v, c, slot).status.Keys == v.status.Keys;
  }

  /** The one call that loses processes: registering a free feature while senders already wait. */
  ghost predicate Overwrites(v: Ipc, c: Proc)
    requires Shape(v) && c in v.status && CallOk(v.regs[c])
  {
    var f := v.regs[c].ebx;
    && v.regs[c].eax == SYS_SETFEATURE && Features.IsFeature(f)
    && v.suppliers[Features.LowBit(f)] == Nil
    && v.lists[Senders(c)] != []
  }

  lemma SetFeatureKeeps(v: Ipc, c: Proc)
    requires Inv(v) && c in v.status && v.status[c] == Ready && FeatureOk(v.regs[c].ebx)
    ensures Inv(SetFeature(v, c).ipc)
  {
    var f := v.regs[c].ebx;
    if !Features.IsFeature(f) {
      FailKeeps(v, c, INVALIDFEATURE);
    } else if v.suppliers[Features.LowBit(f)] != Nil {
      FailKeeps(v, c, FEATUREBUSY);
    } else {
      HandOverKeeps(v, c, Features.LowBit(f));
      FailKeeps(HandOver(v, c, Features.LowBit(f)), c, OK);
    }
  }

  /** Every system call keeps the invariant. */
  lemma SyscallKeeps(v: Ipc, c: Proc, dev: Device)
    requires Inv(v) && c in v.status && v.status[c] == Ready && CallOk(v.regs[c])
    ensures Inv(Syscall(v, c, dev).ipc)
  {
    var n := v.regs[c].eax;
    if n >= NO_SYSCALLS {
      FailKeeps(v, c, UNKNOWNSYSCALL);
    } else if n == SYS_EXIT {
      ExitKeeps(v, c);
    } else if n == SYS_SETFEATURE {
      SetFeatureKeeps(v, c);
    } else if n == SYS_RECEIVE {
      ReceiveKeeps(v, c);
    } else if n == SYS_SEND_BY_FEATURE {
      SendByFeatureKeeps(v, c);
    } else if n == SYS_REQUEST_IRQ {
      RequestIrqKeeps(v, c);
    } else {
      EaxKeeps(v, c, dev.eax);
      FailKeeps(SetEax(v, c, dev.eax), c, dev.esi);
    }
  }

  lemma InterruptKeeps(v: Ipc, c: Proc, n: nat, dev: Device)
    requires Inv(v) && n <= MAX_IRQ
    requires n == 2 ==> c in v.status && v.status[c] == Ready && CallOk(v.regs[c])
    ensures Inv(Interrupt(v, c, n, dev).ipc)
  {
    if n == 2 {
      SyscallKeeps(v, c, dev);
    } else if n != 0 && v.irqs[n].To? {
      NotifyKeeps(v, v.irqs[n].p, n);
    }
  }

  // ---------- who is lost ----------

  /** Before and after, the same processes are lost. */
  ghost predicate SameLost(v: Ipc, r: Ipc) {
    forall x {:trigger Lost(r, x)} :: Lost(r, x) <==> Lost(v, x)
  }

  lemma AppendLoses(v: Ipc, c: Proc, o: Owner, flagged: bool)
    requires Inv(v) && c in v.status && o in v.lists && v.status[c] == Ready
    ensures SameLost(v, Append(v, c, o, flagged))
  {
    hide NoMissed;
  }

  lemma SendLoses(v: Ipc, c: Proc, r: Proc)
    requires Inv(v) && c in v.status && r in v.status && v.status[c] == Ready
    ensures SameLost(v, Send(v, c, r).ipc)
  {
    hide Exclusive, NoMissed, Ram.Copy, Append;
    if ValidArea(c, v.regs[c]) && !ReceivingFrom(v, r, c) {
      AppendLoses(v, c, Senders(r), true);
    }
  }

  lemma SendByFeatureLoses(v: Ipc, c: Proc)
    requires Inv(v) && c in v.status && v.status[c] == Ready && FeatureOk(v.regs[c].ebx)
    ensures SameLost(v, SendByFeature(v, c).ipc)
  {
    hide Exclusive, NoMissed, Append, Send;
    if Features.IsFeature(v.regs[c].ebx) {
      var slot := Features.LowBit(v.regs[c].ebx);
      var supplier := v.suppliers[slot];
      if supplier.To? && supplier != To(c) {
        var x := v.(regs := v.regs[c := v.regs[c].(ebx := supplier.p.addr)]);
        SameWaitingKeeps(v, x);
        SendLoses(x, c, supplier.p);
      } else if supplier == Nil && v.regs[c].edi == BLOCK {
        AppendLoses(v, c, Waiters(slot), false);
      }
    }
  }

  lemma ReceiveLoses(v: Ipc, c: Proc)
    requires Inv(v) && c in v.status && v.status[c] == Ready
    ensures SameLost(v, Receive(v, c).ipc)
  {
    hide NoMissed, Ram.Copy, ReadyQueue.Remove, ReadyQueue.NoDup;
    var q := v.lists[Senders(c)];
    var s := FindSender(q, v.regs[c].ebx);
    if s.To? {
      var i := ReadyQueue.IndexOf(q, s.p);
      assert q[i] in v.status && Placed(v, q[i], Senders(c));
      RemoveMembers(q, s.p);
    }
  }

  lemma ExitLoses(v: Ipc, c: Proc)
    requires Inv(v) && c in v.status && v.status[c] == Ready
    ensures SameLost(v, Exit(v, c).ipc)
  {
    hide NoMissed;
    var r := Exit(v, c).ipc;
    forall x {:trigger Lost(r, x)} | x in v.status
      ensures Lost(r, x) <==> Lost(v, x)
    {
      assert Placed(v, x, Senders(c));
    }
  }

  /** A registration loses exactly the processes whose list it overwrites. */
  lemma HandOverLoses(v: Ipc, c: Proc, slot: nat, x: Proc)
    requires Inv(v) && c in v.status && v.status[c] == Ready && slot < FEATURE_SLOTS
    ensures Lost(HandOver(v, c, slot), x) <==> Lost(v, x) || x in v.lists[Senders(c)]
  {
    hide NoMissed;
    var q := v.lists[Senders(c)];
    if x in q {
      assert q[ReadyQueue.IndexOf(q, x)] in v.status;
    }
    if x in v.status {
      assert Placed(v, x, Waiters(slot)) && Placed(v, x, Senders(c));
    }
  }

  /** Whom the call loses. */
  ghost predicate Loses(v: Ipc, c: Proc, x: Proc)
    requires Shape(v) && c in v.status && CallOk(v.regs[c])
  {
    Overwrites(v, c) && x in v.lists[Senders(c)]
  }

  lemma SetFeatureLoses(v: Ipc, c: Proc, x: Proc)
    requires Inv(v) && c in v.status && v.status[c] == Ready && CallOk(v.regs[c])
    requires v.regs[c].eax == SYS_SETFEATURE
    ensures Lost(SetFeature(v, c).ipc, x) <==> Lost(v, x) || Loses(v, c, x)
  {
    hide Exclusive, NoMissed, HandOver;
    var f := v.regs[c].ebx;
    if Features.IsFeature(f) && v.suppliers[Features.LowBit(f)] == Nil {
      HandOverHasShape(v, c, Features.LowBit(f));
      HandOverLoses(v, c, Features.LowBit(f), x);
    }
  }

  /** After any interrupt exactly those are lost who were before or whose list was overwritten. */
  lemma InterruptLoses(v: Ipc, c: Proc, n: nat, dev: Device, x: Proc)
    requires Inv(v) && n <= MAX_IRQ
    requires n == 2 ==> c in v.status && v.status[c] == Ready && CallOk(v.regs[c])
    ensures Lost(Interrupt(v, c, n, dev).ipc, x) <==> Lost(v, x) || (n == 2 && Loses(v, c, x))
  {
    hide Exit, SetFeature, Receive, SendByFeature, NoMissed;
    if n == 2 {
      var call := v.regs[c].eax;
      if call == SYS_EXIT {
        ExitLoses(v, c);
      } else if call == SYS_SETFEATURE {
        SetFeatureLoses(v, c, x);
      } else if call == SYS_RECEIVE {
        ReceiveLoses(v, c);
      } else if call == SYS_SEND_BY_FEATURE {
        SendByFeatureLoses(v, c);
      }
    }
  }

  // ---------- who is never served again ----------

  /** Neither ready nor receiving, and in no list from which somebody could still take the process. */
  ghost predicate Out(v: Ipc, x: Proc) {
    && x in v.status && v.status[x] != Ready && !v.status[x].Receiving?
    && (forall o {:trigger v.lists[o]} :: o in v.lists && x in v.lists[o] ==>
         o.Senders? && o.p in v.status && v.status[o.p] == Empty)
  }

  /** Waiting for a process that has left. */
  ghost predicate Abandoned(v: Ipc, x: Proc) {
    && x in v.status && v.status[x].Queued? && v.status[x].at.Senders?
    && v.status[x].at.p in v.status && v.status[v.status[x].at.p] == Empty
  }

  /** The lost, the abandoned and the absent are out. */
  lemma OutCases(v: Ipc, x: Proc)
    requires Inv(v) && x in v.status
    requires Lost(v, x) || Abandoned(v, x) || v.status[x] == Empty
    ensures Out(v, x)
  {
    forall o {:trigger v.lists[o]} | o in v.lists && x in v.lists[o]
      ensures o.Senders? && o.p in v.status && v.status[o.p] == Empty
    {
      assert Placed(v, x, o);
    }
  }

  /** The process is not woken, not moved and not told anything. */
  ghost predicate Untouched(v: Ipc, r: Ipc, x: Proc) {
    x in v.status && x in v.regs && x in r.status && x in r.regs && r.status[x] == v.status[x] && r.regs[x] == v.regs[x]
  }

  lemma OutByReceive(v: Ipc, c: Proc, x: Proc)
    requires Inv(v) && c in v.status && v.status[c] == Ready && Out(v, x)
    ensures Untouched(v, Receive(v, c).ipc, x)
  {
    hide NoMissed, Ram.Copy, ReadyQueue.Remove, ReadyQueue.NoDup;
    assert x !in v.lists[Senders(c)];
  }

  lemma OutBySetFeature(v: Ipc, c: Proc, x: Proc)
    requires Inv(v) && c in v.status && v.status[c] == Ready && FeatureOk(v.regs[c].ebx) && Out(v, x)
    ensures Untouched(v, SetFeature(v, c).ipc, x)
  {
    hide NoMissed, Exclusive;
  }

  lemma OutByExit(v: Ipc, c: Proc, x: Proc)
    requires Inv(v) && c in v.status && v.status[c] == Ready && Out(v, x)
    ensures Untouched(v, Exit(v, c).ipc, x)
  {
    hide NoMissed, Exclusive;
  }

  lemma OutBySend(v: Ipc, c: Proc, x: Proc)
    requires Inv(v) && c in v.status && v.status[c] == Ready && FeatureOk(v.regs[c].ebx) && Out(v, x)
    ensures Untouched(v, SendByFeature(v, c).ipc, x)
  {
    hide Exclusive, NoMissed, Ram.Copy;
  }

  /** No call and no interrupt serves a process that is out. */
  lemma OutUntouched(v: Ipc, c: Proc, n: nat, dev: Device, x: Proc)
    requires Inv(v) && n <= MAX_IRQ && Out(v, x)
    requires n == 2 ==> c in v.status && v.status[c] == Ready && CallOk(v.regs[c])
    ensures Untouched(v, Interrupt(v, c, n, dev).ipc, x)
  {
    hide Exit, SetFeature, Receive, SendByFeature, Placed, ReadyQueue.NoDup, NoMissed;
    if n == 2 {
      var call := v.regs[c].eax;
      if call == SYS_EXIT {
        OutByExit(v, c, x);
      } else if call == SYS_SETFEATURE {
        OutBySetFeature(v, c, x);
      } else if call == SYS_RECEIVE {
        OutByReceive(v, c, x);
      } else if call == SYS_SEND_BY_FEATURE {
        OutBySend(v, c, x);
      }
    }
  }

  /** The call is a send by `c` to a feature whose supplier has left, from a valid area. */
  ghost predicate SendsToDead(v: Ipc, c: Proc)
    requires Shape(v) && c in v.status && CallOk(v.regs[c])
  {
    var f := v.regs[c].ebx;
    && v.regs[c].eax == SYS_SEND_BY_FEATURE && Features.IsFeature(f) && ValidArea(c, v.regs[c])
    && var supplier := v.suppliers[Features.LowBit(f)];
    && supplier.To? && supplier.p != c && v.status[supplier.p] == Empty
  }

  /** The call makes `x` wait for a process that has left: its own send does, or the leaving of one that had lost it. */
  ghost predicate Abandons(v: Ipc, c: Proc, x: Proc)
    requires Shape(v) && c in v.status && CallOk(v.regs[c])
  {
    || (x == c && SendsToDead(v, c))
    || (v.regs[c].eax == SYS_EXIT && Lost(v, x) && v.status[x].at == Senders(c))
  }

  lemma SendToAbandons(v: Ipc, c: Proc, r: Proc, x: Proc)
    requires Inv(v) && c in v.status && v.status[c] == Ready && r in v.status && r != c
    ensures Abandoned(Send(v, c, r).ipc, x) <==>
      Abandoned(v, x) || (x == c && ValidArea(c, v.regs[c]) && v.status[r] == Empty)
  {
    hide Exclusive, NoMissed, Ram.Copy;
  }

  lemma SendAbandons(v: Ipc, c: Proc, x: Proc)
    requires Inv(v) && c in v.status && v.status[c] == Ready && CallOk(v.regs[c])
    requires v.regs[c].eax == SYS_SEND_BY_FEATURE
    ensures Abandoned(SendByFeature(v, c).ipc, x) <==> Abandoned(v, x) || Abandons(v, c, x)
  {
    hide Exclusive, NoMissed, Send;
    if Features.IsFeature(v.regs[c].ebx) {
      var supplier := v.suppliers[Features.LowBit(v.regs[c].ebx)];
      if supplier.To? && supplier != To(c) {
        var w := v.(regs := v.regs[c := v.regs[c].(ebx := supplier.p.addr)]);
        SameWaitingKeeps(v, w);
        SendToAbandons(w, c, supplier.p, x);
      }
    }
  }

  lemma ReceiveAbandons(v: Ipc, c: Proc, x: Proc)
    requires Inv(v) && c in v.status && v.status[c] == Ready
    ensures Abandoned(Receive(v, c).ipc, x) <==> Abandoned(v, x)
  {
    hide NoMissed, Ram.Copy, ReadyQueue.Remove, ReadyQueue.NoDup;
    var q := v.lists[Senders(c)];
    var s := FindSender(q, v.regs[c].ebx);
    if s.To? {
      assert q[ReadyQueue.IndexOf(q, s.p)] in v.status && Placed(v, s.p, Senders(c));
    }
  }

  lemma SetFeatureAbandons(v: Ipc, c: Proc, x: Proc)
    requires Inv(v) && c in v.status && v.status[c] == Ready && FeatureOk(v.regs[c].ebx)
    ensures Abandoned(SetFeature(v, c).ipc, x) <==> Abandoned(v, x)
  {
    hide NoMissed;
    var f := v.regs[c].ebx;
    if Features.IsFeature(f) && x in v.status {
      var slot := Features.LowBit(f);
      assert Placed(v, x, Waiters(slot));
      if v.status[x].Queued? && v.status[x].at.Senders? && v.status[x].at.p in v.status {
        assert Placed(v, v.status[x].at.p, Waiters(slot));
      }
    }
  }

  lemma ExitAbandons(v: Ipc, c: Proc, x: Proc)
    requires Inv(v) && c in v.status && v.status[c] == Ready && CallOk(v.regs[c]) && v.regs[c].eax == SYS_EXIT
    ensures Abandoned(Exit(v, c).ipc, x) <==> Abandoned(v, x) || Abandons(v, c, x)
  {
    hide NoMissed;
    if x in v.status {
      assert Placed(v, x, Senders(c)) && Placed(v, c, Senders(c));
      if v.status[x].Queued? && v.status[x].at.Senders? && v.status[x].at.p in v.status {
        assert Placed(v, v.status[x].at.p, Senders(c));
      }
    }
  }

  /** A device interrupt leaves nobody waiting for a process that has left who did not before. */
  lemma NotifyAbandons(v: Ipc, o: Proc, n: nat, x: Proc)
    requires Inv(v) && o in v.status && n <= MAX_IRQ
    ensures Abandoned(Notify(v, o, n).ipc, x) <==> Abandoned(v, x)
  {
    hide Exclusive, NoMissed;
  }

  /** After any interrupt exactly those wait for a process that has left who did before or whom the call abandons. */
  lemma InterruptAbandons(v: Ipc, c: Proc, n: nat, dev: Device, x: Proc)
    requires Inv(v) && n <= MAX_IRQ
    requires n == 2 ==> c in v.status && v.status[c] == Ready && CallOk(v.regs[c])
    ensures Abandoned(Interrupt(v, c, n, dev).ipc, x) <==> Abandoned(v, x) || (n == 2 && Abandons(v, c, x))
  {
    hide Exit, SetFeature, Receive, SendByFeature, Notify, Placed, ReadyQueue.NoDup, NoMissed;
    if n == 2 {
      var call := v.regs[c].eax;
      if call == SYS_EXIT {
        ExitAbandons(v, c, x);
      } else if call == SYS_SETFEATURE {
        SetFeatureAbandons(v, c, x);
      } else if call == SYS_RECEIVE {
        ReceiveAbandons(v, c, x);
      } else if call == SYS_SEND_BY_FEATURE {
        SendAbandons(v, c, x);
      }
    } else if n != 0 && v.irqs[n].To? {
      NotifyAbandons(v, v.irqs[n].p, n, x);
    }
  }

  // ---------- who becomes ready, who stops ----------

  /** Exactly the processes to wake become ready, and exactly a blocking caller stops being ready. */
  ghost predicate Moves(v: Ipc, c: Proc, o: Outcome) {
    && o.ipc.status.Keys == v.status.Keys
    && (o.block ==> c in v.status && v.status[c] == Ready)
    && (forall i {:trigger o.wake[i]} :: 0 <= i < |o.wake| ==> o.wake[i] in v.status && v.status[o.wake[i]] != Ready)
    && (forall p {:trigger o.ipc.status[p]} :: p in v.status ==>
         (o.ipc.status[p] == Ready <==> p in o.wake || (v.status[p] == Ready && !(o.block && p == c))))
  }

  lemma SendMoves(v: Ipc, c: Proc, r: Proc)
    requires Inv(v) && c in v.status && r in v.status && v.status[c] == Ready
    ensures Moves(v, c, Send(v, c, r))
  {
    hide Exclusive, NoMissed, Ram.Copy;
  }

  lemma SendByFeatureMoves(v: Ipc, c: Proc)
    requires Inv(v) && c in v.status && v.status[c] == Ready && FeatureOk(v.regs[c].ebx)
    ensures Moves(v, c, SendByFeature(v, c))
  {
    var f := v.regs[c].ebx;
    if Features.IsFeature(f) {
      var supplier := v.suppliers[Features.LowBit(f)];
      if supplier.To? && supplier != To(c) {
        var x := v.(regs := v.regs[c := v.regs[c].(ebx := supplier.p.addr)]);
        SameWaitingKeeps(v, x);
        SendMoves(x, c, supplier.p);
      }
    }
  }

  lemma ReceiveMoves(v: Ipc, c: Proc)
    requires Inv(v) && c in v.status && v.status[c] == Ready
    ensures Moves(v, c, Receive(v, c))
  {
    hide NoMissed, Ram.Copy, ReadyQueue.NoDup;
    var q := v.lists[Senders(c)];
    var s := FindSender(q, v.regs[c].ebx);
    if s.To? {
      var i := ReadyQueue.IndexOf(q, s.p);
      assert v.lists[Senders(c)][i] in v.status;
      assert Placed(v, s.p, Senders(c));
    }
  }

  lemma ExitMoves(v: Ipc, c: Proc)
    requires Inv(v) && c in v.status && v.status[c] == Ready
    ensures Moves(v, c, Exit(v, c))
  {
    var o := Exit(v, c);
    assert o.ipc.status.Keys == v.status.Keys;
    assert Placed(v, c, Senders(c));
    forall i {:trigger o.wake[i]} | 0 <= i < |o.wake|
      ensures o.wake[i] in v.status && v.status[o.wake[i]] != Ready
    {
      assert v.lists[Senders(c)][i] in v.status;
      assert Placed(v, o.wake[i], Senders(c));
    }
  }

  lemma SetFeatureMoves(v: Ipc, c: Proc)
    requires Inv(v) && c in v.status && v.status[c] == Ready && FeatureOk(v.regs[c].ebx)
    ensures Moves(v, c, SetFeature(v, c))
  {
    var f := v.regs[c].ebx;
    if Features.IsFeature(f) && v.suppliers[Features.LowBit(f)] == Nil {
      var slot := Features.LowBit(f);
      var r := HandOver(v, c, slot);
      assert r.status.Keys == v.status.Keys;
      forall p {:trigger r.status[p]} | p in v.status
        ensures r.status[p] == Ready <==> v.status[p] == Ready
      {
        assert Placed(v, p, Waiters(slot));
      }
    }
  }

  lemma InterruptMoves(v: Ipc, c: Proc, n: nat, dev: Device)
    requires Inv(v) && n <= MAX_IRQ
    requires n == 2 ==> c in v.status && v.status[c] == Ready && CallOk(v.regs[c])
    ensures Moves(v, c, Interrupt(v, c, n, dev))
  {
    hide Exit, SetFeature, Receive, SendByFeature, Exclusive, NoMissed;
    if n == 2 {
      var call := v.regs[c].eax;
      if call == SYS_EXIT {
        ExitMoves(v, c);
      } else if call == SYS_SETFEATURE {
        SetFeatureMoves(v, c);
      } else if call == SYS_RECEIVE {
        ReceiveMoves(v, c);
      } else if call == SYS_SEND_BY_FEATURE {
        SendByFeatureMoves(v, c);
      }
    }
  }
}
