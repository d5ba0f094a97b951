/** A rendezvous gives the same result whichever side comes first. */
module Rendezvous {
  import opened Word32
  import opened Processes
  import opened Ipc
  import IpcInvariant
  import Ram
  import RQ = ReadyQueue

  /** The receiver `r` would take a message from `s` and from nobody who waits already; both areas are valid. */
  ghost predicate Meeting(v: Ipc, s: Proc, r: Proc) {
    && Inv(v) && s in v.status && r in v.status && s != r
    && v.status[s] == Ready && v.status[r] == Ready
    && ValidArea(s, v.regs[s]) && ValidArea(r, v.regs[r])
    && v.interrupts[r] == 0
    && FindSender(v.lists[Senders(r)], v.regs[r].ebx) == Nil
    && (v.regs[r].ebx == ANYPROC || v.regs[r].ebx == s.addr)
  }

  /** The state after the message has passed: nobody's place has changed, both sides know the byte count and OK. */
  ghost function Met(v: Ipc, s: Proc, r: Proc): Ipc
    requires Meeting(v, s, r)
  {
    var n := if v.regs[s].ecx > v.regs[r].ecx then v.regs[r].ecx else v.regs[s].ecx;
    v.(ram := Ram.Copy(v.ram, Add(r.dsBase, v.regs[r].edx), Add(s.dsBase, v.regs[s].edx), n),
       regs := v.regs[s := v.regs[s].(eax := n, esi := OK)][r := v.regs[r].(eax := n, esi := OK)])
  }

  lemma SendFirst(v: Ipc, s: Proc, r: Proc)
    requires Meeting(v, s, r)
    ensures var a := Send(v, s, r);
      && a.block && a.wake == [] && a.ipc == Append(v, s, Senders(r), true) && Inv(a.ipc)
  {
    IpcInvariant.SendKeeps(v, s, r);
  }

  lemma TakenBack(q: seq<Proc>, s: Proc)
    requires s !in q
    ensures s in q + [s] && RQ.Remove(q + [s], s) == q
  {
    var i := RQ.IndexOf(q + [s], s);
    assert i == |q| by {
      assert forall j :: 0 <= j < |q| ==> (q + [s])[j] == q[j];
    }
    assert RQ.RemoveAt(q + [s], i) == q;
  }

  /** A receive that finds `s`, spelled out. */
  lemma ReceiveFinds(a: Ipc, s: Proc, r: Proc)
    requires Inv(a) && r in a.status && s in a.status && ValidArea(r, a.regs[r]) && a.interrupts[r] == 0
    requires FindSender(a.lists[Senders(r)], a.regs[r].ebx) == To(s)
    ensures Receive(a, r) == Outcome(Taken(a, s, r), [s], false)
  {
  }

  ghost function Taken(a: Ipc, s: Proc, r: Proc): Ipc
    requires Shape(a) && r in a.status && s in a.status
  {
    var x := Wake(Exchange(a, s, r), s);
    SetErr(SetErr(x.(lists := x.lists[Senders(r) := RQ.Remove(a.lists[Senders(r)], s)]), s, OK), r, OK)
  }

  lemma TakenIsMet(v: Ipc, s: Proc, r: Proc)
    requires Meeting(v, s, r) && Inv(Append(v, s, Senders(r), true)) && s !in v.lists[Senders(r)]
    ensures Taken(Append(v, s, Senders(r), true), s, r) == Met(v, s, r)
  {
    hide Exclusive, NoMissed;
    var a := Append(v, s, Senders(r), true);
    TakenBack(v.lists[Senders(r)], s);
    var x := Taken(a, s, r);
    assert x.status == v.status;
    assert x.lists == v.lists;
    assert x.regs == Met(v, s, r).regs;
  }

  lemma ThenReceive(v: Ipc, s: Proc, r: Proc)
    requires Meeting(v, s, r)
    ensures var a := Send(v, s, r).ipc;
      Inv(a) && Receive(a, r) == Outcome(Met(v, s, r), [s], false)
  {
    hide Receive, Taken, Met, Exclusive;
    SendFirst(v, s, r);
    NotYetQueued(v, s, r);
    IpcInvariant.FindAppend(v.lists[Senders(r)], s, v.regs[r].ebx);
    TakenIsMet(v, s, r);
    ReceiveFinds(Append(v, s, Senders(r), true), s, r);
  }

  lemma NotYetQueued(v: Ipc, s: Proc, r: Proc)
    requires Meeting(v, s, r)
    ensures s !in v.lists[Senders(r)]
  {
    assert Placed(v, s, Senders(r));
  }

  lemma ReceiveFirst(v: Ipc, s: Proc, r: Proc)
    requires Meeting(v, s, r)
    ensures var a := Receive(v, r);
      && a.block && a.wake == [] && Inv(a.ipc)
      && a.ipc == v.(status := v.status[r := Receiving(v.regs[r].ebx)])
  {
    IpcInvariant.ReceiveKeeps(v, r);
  }

  lemma ThenSend(v: Ipc, s: Proc, r: Proc)
    requires Meeting(v, s, r)
    ensures var a := Receive(v, r).ipc;
      Inv(a) && Send(a, s, r) == Outcome(Met(v, s, r), [r], false)
  {
    ReceiveFirst(v, s, r);
    SendReaches(v, s, r);
  }

  lemma SendReaches(v: Ipc, s: Proc, r: Proc)
    requires Meeting(v, s, r) && Shape(v.(status := v.status[r := Receiving(v.regs[r].ebx)]))
    ensures Send(v.(status := v.status[r := Receiving(v.regs[r].ebx)]), s, r) == Outcome(Met(v, s, r), [r], false)
  {
    hide Exclusive, NoMissed;
    var b := Send(v.(status := v.status[r := Receiving(v.regs[r].ebx)]), s, r).ipc;
    assert b.status == v.status;
    assert b.regs == Met(v, s, r).regs;
  }

  /** Confluence: first sender and then receiver, or the other way round, the whole IPC state comes out the same. */
  lemma Confluence(v: Ipc, s: Proc, r: Proc)
    requires Meeting(v, s, r)
    ensures var a, b := Send(v, s, r).ipc, Receive(v, r).ipc;
      && Inv(a) && Inv(b)
      && Receive(a, r).ipc == Send(b, s, r).ipc == Met(v, s, r)
  {
    hide Inv, Receive, Send, Met;
    ThenReceive(v, s, r);
    ThenSend(v, s, r);
  }

  /** The state after a meeting: places unchanged, the same byte count and OK on both sides, the message copied. */
  lemma MetFacts(v: Ipc, s: Proc, r: Proc)
    requires Meeting(v, s, r)
    ensures var x := Met(v, s, r);
      && Inv(x) && x.status == v.status && x.lists == v.lists
      && x.regs[s].eax == x.regs[r].eax == Min(v.regs[s].ecx, v.regs[r].ecx)
      && x.regs[s].esi == x.regs[r].esi == OK
      && var dst, src, n := Add(r.dsBase, v.regs[r].edx), Add(s.dsBase, v.regs[s].edx), x.regs[r].eax;
      && (Ram.Apart(dst, src, n) ==> x.ram == Ram.Replace(v.ram, dst, src, n))
  {
    hide Ram.Replace, Ram.Copy;
    IpcInvariant.SameWaitingKeeps(v, Met(v, s, r));
    var dst, src := Add(r.dsBase, v.regs[r].edx), Add(s.dsBase, v.regs[s].edx);
    var n: Word := Met(v, s, r).regs[r].eax;
    if Ram.Apart(dst, src, n) {
      Ram.CopyReplaces(v.ram, dst, src, n);
    }
  }

  // ---------- through a feature ----------

  /** Sending by feature first stores the supplier's handle in ebx. */
  ghost function Named(v: Ipc, s: Proc, r: Proc): Ipc
    requires s in v.regs
  {
    v.(regs := v.regs[s := v.regs[s].(ebx := r.addr)])
  }

  lemma NamedMeeting(v: Ipc, s: Proc, r: Proc)
    requires Meeting(v, s, r)
    ensures Meeting(Named(v, s, r), s, r)
  {
    IpcInvariant.SameWaitingKeeps(v, Named(v, s, r));
  }

  lemma SlotSends(v: Ipc, s: Proc, r: Proc, slot: nat)
    requires Shape(v) && s in v.status && r in v.status && s != r
    requires slot < FEATURE_SLOTS && v.suppliers[slot] == To(r)
    ensures SendToSlot(v, s, slot) == Send(Named(v, s, r), s, r)
  {
  }

  /** Confluence for a message to the supplier of a feature. */
  lemma FeatureConfluence(v: Ipc, s: Proc, r: Proc, slot: nat)
    requires Meeting(v, s, r) && slot < FEATURE_SLOTS && v.suppliers[slot] == To(r)
    ensures var a, b := SendToSlot(v, s, slot).ipc, Receive(v, r).ipc;
      && Inv(a) && Inv(b) && Meeting(Named(v, s, r), s, r)
      && Receive(a, r).ipc == SendToSlot(b, s, slot).ipc == Met(Named(v, s, r), s, r)
  {
    hide NoMissed, Send, Receive, SendToSlot, Met;
    NamedMeeting(v, s, r);
    SlotSends(v, s, r, slot);
    Confluence(Named(v, s, r), s, r);
    ReceiveFirst(v, s, r);
    ReceiveFirst(Named(v, s, r), s, r);
    SlotSends(Receive(v, r).ipc, s, r, slot);
  }
}
