/** Waiting processes are served in the order in which they blocked, over whole runs and across feature registration. */
module Fifo {
  import opened Word32
  import opened Processes
  import opened Ipc
  import IpcInvariant
  import Features
  import Ram
  import RQ = ReadyQueue

  /** The step at which each process last joined a list of waiting processes. */
  type Times = map<Proc, nat>

  /** Times strictly increase along the list. */
  ghost predicate Increasing(q: seq<Proc>, since: Times) {
    && (forall i {:trigger q[i]} :: 0 <= i < |q| ==> q[i] in since)
    && (forall i, j {:trigger q[i], q[j]} :: 0 <= i < j < |q| ==> since[q[i]] < since[q[j]])
  }

  /** Every list is in blocking order, and nobody blocked in the future. */
  ghost predicate Ordered(v: Ipc, since: Times, now: nat) {
    && since.Keys == v.status.Keys
    && (forall p {:trigger since[p]} :: p in v.status && v.status[p].Queued? ==> since[p] < now)
    && (forall o {:trigger v.lists[o]} :: o in v.lists ==> Increasing(v.lists[o], since))
  }

  /** A process that queues up in this step is stamped; one handed from list to list keeps its time. */
  ghost function Stamp(v: Ipc, r: Ipc, since: Times, now: nat): Times {
    map p | p in r.status ::
      if r.status[p].Queued? && !(p in v.status && v.status[p].Queued?) then now
      else if p in since then since[p] else 0
  }

  // ---------- lists assembled from waiting processes ----------

  ghost predicate AllQueued(v: Ipc, q: seq<Proc>) {
    forall i {:trigger q[i]} :: 0 <= i < |q| ==> q[i] in v.status && v.status[q[i]].Queued?
  }

  lemma ListQueued(v: Ipc, o: Owner)
    requires Inv(v) && o in v.lists
    ensures AllQueued(v, v.lists[o])
  {
    forall i {:trigger v.lists[o][i]} | 0 <= i < |v.lists[o]|
      ensures v.lists[o][i] in v.status && v.status[v.lists[o][i]].Queued?
    {
      assert Placed(v, v.lists[o][i], o);
    }
  }

  /** A list of the new state made of processes that already waited, in blocking order. */
  ghost predicate Old(v: Ipc, q: seq<Proc>, since: Times) {
    AllQueued(v, q) && Increasing(q, since)
  }

  lemma OldKeepsTimes(v: Ipc, r: Ipc, since: Times, now: nat, q: seq<Proc>)
    requires Ordered(v, since, now) && r.status.Keys == v.status.Keys && Old(v, q, since)
    ensures Increasing(q, Stamp(v, r, since, now))
  {
  }

  ghost predicate AllOld(v: Ipc, lists: map<Owner, seq<Proc>>, since: Times) {
    forall o {:trigger lists[o]} :: o in lists ==> Old(v, lists[o], since)
  }

  lemma OldLists(v: Ipc, r: Ipc, since: Times, now: nat)
    requires Ordered(v, since, now) && r.status.Keys == v.status.Keys && AllOld(v, r.lists, since)
    ensures Ordered(r, Stamp(v, r, since, now), now + 1)
  {
    forall o {:trigger r.lists[o]} | o in r.lists
      ensures Increasing(r.lists[o], Stamp(v, r, since, now))
    {
      OldKeepsTimes(v, r, since, now, r.lists[o]);
    }
  }

  lemma ListsOld(v: Ipc, since: Times, now: nat)
    requires Inv(v) && Ordered(v, since, now)
    ensures AllOld(v, v.lists, since)
  {
    forall o {:trigger v.lists[o]} | o in v.lists
      ensures Old(v, v.lists[o], since)
    {
      ListQueued(v, o);
    }
  }

  lemma ReplaceOld(v: Ipc, lists: map<Owner, seq<Proc>>, o: Owner, q: seq<Proc>, since: Times)
    requires AllOld(v, lists, since) && Old(v, q, since)
    ensures AllOld(v, lists[o := q], since)
  {
  }

  // ---------- what each call does to the order ----------

  /** The new list is the old one without one of its members, the others in their order. */
  lemma RemoveOld(v: Ipc, q: seq<Proc>, p: Proc, since: Times)
    requires RQ.NoDup(q) && p in q && Old(v, q, since)
    ensures Old(v, RQ.Remove(q, p), since)
  {
    var i := RQ.IndexOf(q, p);
    var r := RQ.RemoveAt(q, i);
    forall a {:trigger r[a]} | 0 <= a < |r|
      ensures r[a] in v.status && v.status[r[a]].Queued? && r[a] in since
    {
      assert r[a] == q[if a < i then a else a + 1];
    }
    forall a, b {:trigger r[a], r[b]} | 0 <= a < b < |r|
      ensures since[r[a]] < since[r[b]]
    {
      assert r[a] == q[if a < i then a else a + 1] && r[b] == q[if b < i then b else b + 1];
    }
  }

  /** Lining up at the end keeps the order, because nobody blocked later. */
  lemma AppendOrdered(v: Ipc, c: Proc, o: Owner, flagged: bool, since: Times, now: nat)
    requires Inv(v) && Ordered(v, since, now) && c in v.status && v.status[c] == Ready && o in v.lists
    ensures var r := Append(v, c, o, flagged); Ordered(r, Stamp(v, r, since, now), now + 1)
  {
    ListsOld(v, since, now);
    var r := Append(v, c, o, flagged);
    var t := Stamp(v, r, since, now);
    forall w {:trigger r.lists[w]} | w in r.lists
      ensures Increasing(r.lists[w], t)
    {
      OldKeepsTimes(v, r, since, now, v.lists[w]);
      if w == o {
        AppendIncreasing(v.lists[o], c, t, now);
      }
    }
  }

  lemma AppendIncreasing(q: seq<Proc>, c: Proc, since: Times, now: nat)
    requires Increasing(q, since) && c in since && since[c] == now
    requires forall i {:trigger q[i]} :: 0 <= i < |q| ==> q[i] in since && since[q[i]] < now
    ensures Increasing(q + [c], since)
  {
  }

  /** A call that leaves lists and waiting processes alone keeps the order. */
  lemma SameOrdered(v: Ipc, r: Ipc, since: Times, now: nat)
    requires Inv(v) && Ordered(v, since, now) && r.status.Keys == v.status.Keys && r.lists == v.lists
    ensures Ordered(r, Stamp(v, r, since, now), now + 1)
  {
    ListsOld(v, since, now);
    OldLists(v, r, since, now);
  }

  lemma ReceiveOrdered(v: Ipc, c: Proc, since: Times, now: nat)
    requires Inv(v) && Ordered(v, since, now) && c in v.status
    ensures var r := Receive(v, c).ipc; Ordered(r, Stamp(v, r, since, now), now + 1)
  {
    hide NoMissed, Ordered, Stamp, Old, AllOld, Placed, RQ.NoDup, RQ.Remove, Ram.Copy, FindSender;
    var r := Receive(v, c).ipc;
    var q := v.lists[Senders(c)];
    var s := FindSender(q, v.regs[c].ebx);
    if ValidArea(c, v.regs[c]) && v.interrupts[c] == 0 && s.To? {
      ListsOld(v, since, now);
      assert Placed(v, s.p, Senders(c)) by {
        assert v.lists[Senders(c)][RQ.IndexOf(q, s.p)] in v.status;
      }
      RemoveOld(v, q, s.p, since);
      ReplaceOld(v, v.lists, Senders(c), RQ.Remove(q, s.p), since);
      assert r.lists == v.lists[Senders(c) := RQ.Remove(q, s.p)];
      assert r.status == v.status[s.p := Ready];
      OldLists(v, r, since, now);
    } else {
      SameOrdered(v, r, since, now);
    }
  }

  lemma SendOrdered(v: Ipc, c: Proc, p: Proc, since: Times, now: nat)
    requires Inv(v) && Ordered(v, since, now) && c in v.status && v.status[c] == Ready && p in v.status
    ensures var r := Send(v, c, p).ipc; Ordered(r, Stamp(v, r, since, now), now + 1)
  {
    var r := Send(v, c, p).ipc;
    if ValidArea(c, v.regs[c]) && !ReceivingFrom(v, p, c) {
      AppendOrdered(v, c, Senders(p), true, since, now);
    } else {
      SameOrdered(v, r, since, now);
    }
  }

  lemma SendToSlotOrdered(v: Ipc, c: Proc, slot: nat, since: Times, now: nat)
    requires Inv(v) && Ordered(v, since, now) && c in v.status && v.status[c] == Ready && slot < FEATURE_SLOTS
    ensures var r := SendToSlot(v, c, slot).ipc; Ordered(r, Stamp(v, r, since, now), now + 1)
  {
    var supplier := v.suppliers[slot];
    var r := SendToSlot(v, c, slot).ipc;
    if supplier == To(c) {
      SameOrdered(v, r, since, now);
    } else if supplier.To? {
      var x := v.(regs := v.regs[c := v.regs[c].(ebx := supplier.p.addr)]);
      IpcInvariant.SameWaitingKeeps(v, x);
      SendOrdered(x, c, supplier.p, since, now);
      assert Stamp(v, r, since, now) == Stamp(x, r, since, now);
    } else if v.regs[c].edi == BLOCK {
      AppendOrdered(v, c, Waiters(slot), false, since, now);
    } else {
      SameOrdered(v, r, since, now);
    }
  }

  lemma SendByFeatureOrdered(v: Ipc, c: Proc, since: Times, now: nat)
    requires Inv(v) && Ordered(v, since, now) && c in v.status && v.status[c] == Ready && FeatureOk(v.regs[c].ebx)
    ensures var r := SendByFeature(v, c).ipc; Ordered(r, Stamp(v, r, since, now), now + 1)
  {
    if Features.IsFeature(v.regs[c].ebx) {
      SendToSlotOrdered(v, c, Features.LowBit(v.regs[c].ebx), since, now);
    } else {
      SameOrdered(v, SendByFeature(v, c).ipc, since, now);
    }
  }

  /** Waiters handed to their supplier keep their places and their times. */
  lemma HandOverOrdered(v: Ipc, c: Proc, slot: nat, since: Times, now: nat)
    requires Inv(v) && Ordered(v, since, now) && c in v.status && slot < FEATURE_SLOTS
    ensures var r := HandOver(v, c, slot); Ordered(r, Stamp(v, r, since, now), now + 1)
  {
    var r, w := HandOver(v, c, slot), v.lists[Waiters(slot)];
    ListsOld(v, since, now);
    ReplaceOld(v, v.lists, Senders(c), w, since);
    ReplaceOld(v, v.lists[Senders(c) := w], Waiters(slot), [], since);
    IpcInvariant.HandOverHasShape(v, c, slot);
    assert r.status.Keys == v.status.Keys;
    OldLists(v, r, since, now);
  }

  lemma SetFeatureOrdered(v: Ipc, c: Proc, since: Times, now: nat)
    requires Inv(v) && Ordered(v, since, now) && c in v.status && FeatureOk(v.regs[c].ebx)
    ensures var r := SetFeature(v, c).ipc; Ordered(r, Stamp(v, r, since, now), now + 1)
  {
    var f := v.regs[c].ebx;
    var r := SetFeature(v, c).ipc;
    if Features.IsFeature(f) && v.suppliers[Features.LowBit(f)] == Nil {
      var x := HandOver(v, c, Features.LowBit(f));
      HandOverOrdered(v, c, Features.LowBit(f), since, now);
      assert Stamp(v, r, since, now) == Stamp(v, x, since, now);
    } else {
      SameOrdered(v, r, since, now);
    }
  }

  lemma ExitOrdered(v: Ipc, c: Proc, since: Times, now: nat)
    requires Inv(v) && Ordered(v, since, now) && c in v.status
    ensures var r := Exit(v, c).ipc; Ordered(r, Stamp(v, r, since, now), now + 1)
  {
    var r := Exit(v, c).ipc;
    ListsOld(v, since, now);
    ReplaceOld(v, v.lists, Senders(c), [], since);
    assert r.status.Keys == v.status.Keys;
    OldLists(v, r, since, now);
  }

  /** Every interrupt keeps every list in blocking order. */
  lemma InterruptOrdered(v: Ipc, c: Proc, n: nat, dev: Device, since: Times, now: nat)
    requires Inv(v) && Ordered(v, since, now) && n <= MAX_IRQ
    requires n == 2 ==> c in v.status && v.status[c] == Ready && CallOk(v.regs[c])
    ensures var r := Interrupt(v, c, n, dev).ipc; Ordered(r, Stamp(v, r, since, now), now + 1)
  {
    hide Placed, RQ.NoDup, NoMissed, Ordered, Stamp;
    var call := if n == 2 then v.regs[c].eax else 0;
    if n == 2 && call == SYS_EXIT {
      ExitOrdered(v, c, since, now);
    } else if n == 2 && call == SYS_SETFEATURE {
      SetFeatureOrdered(v, c, since, now);
    } else if n == 2 && call == SYS_RECEIVE {
      ReceiveOrdered(v, c, since, now);
    } else if n == 2 && call == SYS_SEND_BY_FEATURE {
      SendByFeatureOrdered(v, c, since, now);
    } else {
      SameOrdered(v, Interrupt(v, c, n, dev).ipc, since, now);
    }
  }

  // ---------- who is served ----------

  /** The sender a receive takes: everybody before it in the list is someone the receive does not accept. */
  lemma {:induction false} FindSenderIsFirst(q: seq<Proc>, desired: Word)
    requires FindSender(q, desired).To?
    ensures var s := FindSender(q, desired).p;
      && s in q && (desired == ANYPROC || s.addr == desired)
      && (forall i :: 0 <= i < RQ.IndexOf(q, s) ==> desired != ANYPROC && q[i].addr != desired)
  {
    if desired != ANYPROC && q[0].addr != desired {
      FindSenderIsFirst(q[1..], desired);
    }
  }

  /** What a receive that finds the sender at index `i` of its list does. */
  lemma ReceiveTakes(v: Ipc, c: Proc, i: nat)
    requires Inv(v) && c in v.status && ValidArea(c, v.regs[c]) && v.interrupts[c] == 0
    requires i < |v.lists[Senders(c)]| && FindSender(v.lists[Senders(c)], v.regs[c].ebx) == To(v.lists[Senders(c)][i])
    requires RQ.IndexOf(v.lists[Senders(c)], v.lists[Senders(c)][i]) == i
    ensures var q, out := v.lists[Senders(c)], Receive(v, c);
      out.wake == [q[i]] && !out.block && out.ipc.lists == v.lists[Senders(c) := q[..i] + q[i + 1..]]
  {
    hide NoMissed, Placed, Ram.Copy, FindSender;
    var q := v.lists[Senders(c)];
    assert RQ.Remove(q, q[i]) == q[..i] + q[i + 1..];
  }

  /** The index of the sender a receive takes: it blocked before every other sender the receive would accept. */
  lemma EarliestAccepted(q: seq<Proc>, desired: Word, since: Times) returns (i: nat)
    requires Increasing(q, since) && FindSender(q, desired).To?
    ensures i < |q| && FindSender(q, desired) == To(q[i]) && RQ.IndexOf(q, q[i]) == i
    ensures if desired == ANYPROC then i == 0 else q[i].addr == desired
    ensures forall j {:trigger q[j]} :: 0 <= j < |q| && j != i && (desired == ANYPROC || q[j].addr == desired) ==>
      q[j] in since && q[i] in since && since[q[i]] < since[q[j]]
  {
    FindSenderIsFirst(q, desired);
    i := RQ.IndexOf(q, FindSender(q, desired).p);
  }
}

/** Service in blocking order over whole runs of the kernel. */
module FifoRuns {
  import opened Processes
  import opened KernelModel
  import opened KernelRuns
  import opened Fifo
  import Ipc
  import RQ = ReadyQueue

  lemma SaveOrdered(k: State, e: Event, since: Times, now: nat)
    requires Ordered(k.ipc, since, now)
    ensures Ordered(Save(k, e), since, now)
  {
  }

  lemma SaveStamp(k: State, e: Event, r: Ipc.Ipc, since: Times, now: nat)
    ensures Stamp(Save(k, e), r, since, now) == Stamp(k.ipc, r, since, now)
  {
  }

  lemma StepOrdered(k: State, e: Event, since: Times, now: nat)
    requires Inv(k) && Possible(k, e) && Ordered(k.ipc, since, now)
    ensures Ordered(Step(k, e).ipc, Stamp(k.ipc, Step(k, e).ipc, since, now), now + 1)
  {
    SaveKeeps(k, e);
    SaveOrdered(k, e, since, now);
    InterruptOrdered(Save(k, e), k.sched.cur, e.number, e.device, since, now);
    SaveStamp(k, e, Step(k, e).ipc, since, now);
  }

  /** When each process of the final state last blocked, in steps from the start of the run. */
  ghost function BlockedAt(k: State, es: seq<Event>, since: Times, now: nat): Times
    requires Inv(k) && Feasible(k, es)
    decreases |es|
  {
    if es == [] then since
    else
      StepKeeps(k, es[0]);
      BlockedAt(Step(k, es[0]), es[1..], Stamp(k.ipc, Step(k, es[0]).ipc, since, now), now + 1)
  }

  /** In every state of every run all lists are in blocking order. */
  lemma {:induction false} RunOrdered(k: State, es: seq<Event>, since: Times, now: nat)
    requires Inv(k) && Feasible(k, es) && Ordered(k.ipc, since, now)
    ensures Ordered(Run(k, es).ipc, BlockedAt(k, es, since, now), now + |es|)
    decreases |es|
  {
    hide Inv, Ordered, Overwrites, Possible, Step;
    if es != [] {
      StepKeeps(k, es[0]);
      StepOrdered(k, es[0], since, now);
      RunOrdered(Step(k, es[0]), es[1..], Stamp(k.ipc, Step(k, es[0]).ipc, since, now), now + 1);
    }
  }

  /** The event is a receive by `o` that finds a sender: valid area, nothing latched. */
  ghost predicate Serves(k: State, e: Event, o: Proc) {
    && e.number == 2 && k.sched.cur == o && e.regs.eax == Ipc.SYS_RECEIVE
    && Ipc.ValidArea(o, e.regs)
    && o in k.ipc.status && o in k.ipc.interrupts && k.ipc.interrupts[o] == 0
    && Ipc.FindSender(SendersOf(k.ipc, o), e.regs.ebx).To?
  }

  lemma ServeOutcome(k: State, e: Event, o: Proc, i: nat)
    requires Inv(k) && Possible(k, e) && Serves(k, e, o)
    requires i < |SendersOf(k.ipc, o)| && Ipc.FindSender(SendersOf(k.ipc, o), e.regs.ebx) == To(SendersOf(k.ipc, o)[i])
    requires RQ.IndexOf(SendersOf(k.ipc, o), SendersOf(k.ipc, o)[i]) == i
    ensures var q := SendersOf(k.ipc, o);
      && Outcome(k, e).wake == [q[i]]
      && Outcome(k, e).ipc.lists == k.ipc.lists[Ipc.Senders(o) := q[..i] + q[i + 1..]]
  {
    SaveKeeps(k, e);
    ReceiveTakes(Save(k, e), o, i);
  }

  lemma WokenIsReady(k: State, e: Event, p: Proc)
    requires Inv(k) && Possible(k, e) && Outcome(k, e).wake == [p]
    ensures p in Step(k, e).sched.ready && Step(k, e).ipc == Outcome(k, e).ipc
  {
    StepFacts(k, e);
    SettleKeeps(k.sched, Outcome(k, e).wake, Outcome(k, e).block);
    DispatchKeeps(Settled(k, e));
    assert Outcome(k, e).wake[0] == p;
    assert p in Settled(k, e).ready by {
      assert p in Outcome(k, e).wake;
      NotBlocked(k, e, p);
    }
  }

  lemma NotBlocked(k: State, e: Event, p: Proc)
    requires Inv(k) && Possible(k, e) && p in Outcome(k, e).wake
    ensures !(Outcome(k, e).block && p == k.sched.cur)
  {
    StepFacts(k, e);
  }

  /** The sender at `i` is ready and off its list after the step, blocked before all others the receive accepts. */
  ghost predicate Served(k: State, e: Event, o: Proc, t: Times, i: nat)
    requires Inv(k) && Possible(k, e)
  {
    var q, r := SendersOf(k.ipc, o), Step(k, e);
    && i < |q| && q[i] in r.sched.ready
    && r.ipc.lists == k.ipc.lists[Ipc.Senders(o) := q[..i] + q[i + 1..]]
    && (if e.regs.ebx == Ipc.ANYPROC then i == 0 else q[i].addr == e.regs.ebx)
    && (forall j {:trigger q[j]} ::
         0 <= j < |q| && j != i && (e.regs.ebx == Ipc.ANYPROC || q[j].addr == e.regs.ebx) ==>
         q[j] in t && q[i] in t && t[q[i]] < t[q[j]])
  }

  lemma SendersOrdered(k: State, o: Proc, t: Times, now: nat)
    requires Ordered(k.ipc, t, now)
    ensures Increasing(SendersOf(k.ipc, o), t)
  {
  }

  lemma ServesFinds(k: State, e: Event, o: Proc)
    requires Serves(k, e, o)
    ensures Ipc.FindSender(SendersOf(k.ipc, o), e.regs.ebx).To?
  {
  }

  lemma ServeStep(k: State, e: Event, o: Proc, t: Times, now: nat) returns (i: nat)
    requires Inv(k) && Possible(k, e) && Serves(k, e, o) && Ordered(k.ipc, t, now)
    ensures Served(k, e, o, t, i)
  {
    hide Inv, Ordered, Serves, Possible, Outcome, Step;
    SendersOrdered(k, o, t, now);
    assert Ipc.FindSender(SendersOf(k.ipc, o), e.regs.ebx).To? by {
      ServesFinds(k, e, o);
    }
    i := EarliestAccepted(SendersOf(k.ipc, o), e.regs.ebx, t);
    ServeOutcome(k, e, o, i);
    WokenIsReady(k, e, SendersOf(k.ipc, o)[i]);
  }

  /** After any run a receive completes, of the senders in its list that it accepts, the one blocked longest. */
  lemma ServesLongestBlocked(k: State, es: seq<Event>, e: Event, o: Proc, since: Times, now: nat) returns (i: nat)
    requires Inv(k) && Feasible(k, es) && Ordered(k.ipc, since, now)
    requires Possible(Run(k, es), e) && Serves(Run(k, es), e, o)
    ensures Served(Run(k, es), e, o, BlockedAt(k, es, since, now), i)
  {
    hide Inv, Possible, Serves, Ordered, Served, Step;
    RunOrdered(k, es, since, now);
    i := ServeStep(Run(k, es), e, o, BlockedAt(k, es, since, now), now + |es|);
  }
}
