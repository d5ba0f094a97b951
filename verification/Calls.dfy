/** What each system call and interrupt does to the state, said in numbers and without the tests the model uses. */
module Calls {
  import opened Word32
  import opened Processes
  import opened KernelModel
  import opened KernelRuns
  import Features
  import Ipc
  import IpcInvariant
  import IrqDelivery
  import Ram
  import RQ = ReadyQueue
  import Service

  // ---------- calls in general ----------

  ghost function Saved(v: Ipc.Ipc, c: Proc, regs: Regs): Ipc.Ipc {
    v.(regs := v.regs[c := regs])
  }

  /** The caller finds these answers in its registers, and nothing else has changed. */
  ghost predicate Told(v: Ipc.Ipc, r: Ipc.Ipc, c: Proc, regs: Regs, eax: Word, esi: int) {
    r == Saved(v, c, regs.(eax := eax, esi := esi))
  }

  /** A caller that makes a call with these registers, in a state of the kernel. */
  ghost predicate Asking(v: Ipc.Ipc, c: Proc, regs: Regs) {
    Ipc.Inv(v) && c in v.status && v.status[c] == Ipc.Ready && Ipc.CallOk(regs)
  }

  lemma SavedAsking(v: Ipc.Ipc, c: Proc, regs: Regs)
    requires Asking(v, c, regs)
    ensures var s := Saved(v, c, regs);
      && Ipc.Inv(s) && Ipc.Shape(s) && Ipc.Listed(s) && c in s.status && s.status[c] == Ipc.Ready
      && c in s.regs && s.regs[c] == regs && Ipc.CallOk(s.regs[c])
      && forall x: Regs {:trigger Saved(s, c, x)} :: Saved(s, c, x) == Saved(v, c, x)
  {
    var s := Saved(v, c, regs);
    IpcInvariant.SameWaitingKeeps(v, s);
    forall x: Regs {:trigger Saved(s, c, x)}
      ensures Saved(s, c, x) == Saved(v, c, x)
    {
      assert v.regs[c := regs][c := x] == v.regs[c := x];
    }
  }

  /** The state after the call. */
  ghost function After(v: Ipc.Ipc, c: Proc, regs: Regs, dev: Ipc.Device): Ipc.Ipc
    requires Asking(v, c, regs)
  {
    SavedAsking(v, c, regs);
    Ipc.Syscall(Saved(v, c, regs), c, dev).ipc
  }

  /** A system call in a step of the kernel: what is shown of `After` holds of the step, and who is ready is queued. */
  lemma CallStep(k: State, e: Event)
    requires Inv(k) && Possible(k, e) && e.number == 2
    ensures Asking(k.ipc, k.sched.cur, e.regs)
    ensures Step(k, e).ipc == After(k.ipc, k.sched.cur, e.regs, e.device)
    ensures forall p {:trigger Step(k, e).ipc.status[p]} :: p in Step(k, e).ipc.status ==>
      (Step(k, e).ipc.status[p] == Ipc.Ready <==> p in Step(k, e).sched.ready)
  {
    SaveKeeps(k, e);
    StepSched(k, e);
  }

  // ---------- areas ----------

  /** The 32-bit sum. */
  function Sum(a: Word, b: Word): Word {
    if a + b < 0x1_0000_0000 then a + b else a + b - 0x1_0000_0000
  }

  /** The call names an area that ends, by the 32-bit sum, behind the caller's segment limit. */
  predicate TooFar(c: Proc, regs: Regs) {
    c.dsLimit < Sum(regs.edx, regs.ecx)
  }

  lemma AreaMeans(c: Proc, regs: Regs)
    ensures Ipc.ValidArea(c, regs) <==> !TooFar(c, regs)
  {
  }

  function Smaller(a: Word, b: Word): Word {
    if a <= b then a else b
  }

  /** `to` has the first bytes of what `from` sends, as many as both areas hold. */
  ghost function Passed(ram: seq<Byte>, from: Proc, sent: Regs, to: Proc, wanted: Regs): seq<Byte>
    requires |ram| == W
  {
    Ram.Copy(ram, Sum(to.dsBase, wanted.edx), Sum(from.dsBase, sent.edx), Smaller(sent.ecx, wanted.ecx))
  }

  // ---------- features ----------

  /** The slot of a feature word; none for any other word. */
  function Slot(f: Word): int {
    if f == 1 then 0 else if f == 2 then 1 else if f == 4 then 2 else if f == 8 then 3 else -1
  }

  lemma SlotMeans(f: Word)
    requires Ipc.FeatureOk(f)
    ensures Features.IsFeature(f) <==> Slot(f) >= 0
    ensures Features.IsFeature(f) ==> f > 0 && Features.LowBit(f) == Slot(f)
  {
    assert Features.PopCount(0) == 0 && Features.PopCount(1) == 1;
    assert Features.PopCount(2) == 1 && Features.PopCount(4) == 1 && Features.PopCount(8) == 1;
    assert Features.LowBit(1) == 0 && Features.LowBit(2) == 1 && Features.LowBit(4) == 2;
    assert Features.LowBit(8) == 1 + Features.LowBit(4);
    if Features.IsFeature(f) {
      Features.FeatureIsPower(f);
      assert Features.Pow2(0) == 1 && Features.Pow2(1) == 2 && Features.Pow2(2) == 4;
      assert Features.Pow2(3) == 2 * Features.Pow2(2);
    }
  }

  // ---------- call 1: register a feature ----------

  /** The caller supplies the slot, takes over its waiters, and is told 0. */
  ghost predicate Registered(v: Ipc.Ipc, r: Ipc.Ipc, c: Proc, regs: Regs, slot: nat)
    requires slot < |v.suppliers| && Ipc.Waiters(slot) in v.lists
  {
    var w := v.lists[Ipc.Waiters(slot)];
    && r.suppliers == v.suppliers[slot := To(c)]
    && r.lists == v.lists[Ipc.Senders(c) := w][Ipc.Waiters(slot) := []]
    && r.regs == v.regs[c := regs.(esi := 0)]
    && r.irqs == v.irqs && r.interrupts == v.interrupts && r.ram == v.ram && r.status.Keys == v.status.Keys
    && (forall p {:trigger r.status[p]} :: p in v.status && !(p in w && v.status[p].Queued?) ==>
         r.status[p] == v.status[p])
    && (forall p {:trigger r.status[p]} :: p in v.status && p in w && v.status[p].Queued? ==>
         r.status[p] == Ipc.Queued(Ipc.Senders(c), v.status[p].flagged))
  }

  /** Registering is refused for anything but one bit (-5) and for a taken slot (-11). */
  ghost predicate RegisterDone(v: Ipc.Ipc, r: Ipc.Ipc, c: Proc, regs: Regs)
    requires Asking(v, c, regs)
  {
    var slot := Slot(regs.ebx);
    if slot < 0 then Told(v, r, c, regs, 1, -5)
    else if v.suppliers[slot] != Nil then Told(v, r, c, regs, 1, -11)
    else Registered(v, r, c, regs, slot)
  }

  lemma Registers(v: Ipc.Ipc, c: Proc, regs: Regs, dev: Ipc.Device)
    requires Asking(v, c, regs) && regs.eax == 1
    ensures RegisterDone(v, After(v, c, regs, dev), c, regs)
  {
    hide Ipc.Exclusive, Ipc.NoMissed, Features.IsFeature;
    SavedAsking(v, c, regs);
    SlotMeans(regs.ebx);
  }

  // ---------- call 2: receive ----------

  /** A receive accepts anybody for 0, else the process with that handle. */
  predicate Accepted(desired: Word, p: Proc) {
    desired == 0 || p.addr == desired
  }

  ghost predicate NobodyAccepted(q: seq<Proc>, desired: Word, n: nat)
    requires n <= |q|
  {
    forall j {:trigger q[j]} :: 0 <= j < n ==> !Accepted(desired, q[j])
  }

  /** The first sender in the list that the receive accepts. */
  ghost predicate First(q: seq<Proc>, desired: Word, i: nat) {
    i < |q| && Accepted(desired, q[i]) && NobodyAccepted(q, desired, i)
  }

  /** The message of the sender at `i` has passed: it is ready and off the list, both sides know the count and 0. */
  ghost predicate Received(v: Ipc.Ipc, r: Ipc.Ipc, c: Proc, regs: Regs, i: nat)
    requires Ipc.Shape(v) && Ipc.Listed(v) && c in v.status && i < |v.lists[Ipc.Senders(c)]|
  {
    var q := v.lists[Ipc.Senders(c)];
    assert q[i] in v.status.Keys;
    var s, sent := q[i], v.regs[q[i]];
    var n := Smaller(sent.ecx, regs.ecx);
    r == v.(status := v.status[s := Ipc.Ready],
            lists := v.lists[Ipc.Senders(c) := q[..i] + q[i + 1..]],
            regs := v.regs[s := sent.(eax := n, esi := 0)][c := regs.(eax := n, esi := 0)],
            ram := Passed(v.ram, s, sent, c, regs))
  }

  lemma {:induction false} FirstIs(q: seq<Proc>, desired: Word, i: nat)
    requires First(q, desired, i)
    ensures Ipc.FindSender(q, desired) == To(q[i])
    decreases i
  {
    if i > 0 {
      assert !Accepted(desired, q[0]);
      assert forall j {:trigger q[1..][j]} :: 0 <= j < |q[1..]| ==> q[1..][j] == q[j + 1];
      FirstIs(q[1..], desired, i - 1);
    }
  }

  lemma {:induction false} NoneIs(q: seq<Proc>, desired: Word)
    requires NobodyAccepted(q, desired, |q|)
    ensures Ipc.FindSender(q, desired) == Nil
  {
    if q != [] {
      assert !Accepted(desired, q[0]);
      assert forall j {:trigger q[1..][j]} :: 0 <= j < |q[1..]| ==> q[1..][j] == q[j + 1];
      NoneIs(q[1..], desired);
    }
  }

  lemma ReceivedIs(v: Ipc.Ipc, c: Proc, i: nat)
    requires Ipc.Inv(v) && c in v.status && v.status[c] == Ipc.Ready && !TooFar(c, v.regs[c]) && v.interrupts[c] == 0
    requires First(v.lists[Ipc.Senders(c)], v.regs[c].ebx, i)
    ensures Received(v, Ipc.Receive(v, c).ipc, c, v.regs[c], i)
  {
    hide Ipc.NoMissed, RQ.NoDup, Ram.Copy;
    var q := v.lists[Ipc.Senders(c)];
    FirstIs(q, v.regs[c].ebx, i);
    Service.ListNoDup(v, c);
    RQ.IndexUnique(q, i);
    assert q[i] in v.status && Ipc.Placed(v, q[i], Ipc.Senders(c));
    assert RQ.Remove(q, q[i]) == q[..i] + q[i + 1..];
  }

  lemma StoredTwice(m: map<Proc, Regs>, c: Proc, a: Regs, s: Proc, x: Regs, y: Regs)
    ensures m[c := a][s := x][c := y] == m[s := x][c := y]
  {
  }

  /** The registers saved for the caller are overwritten by its answer. */
  lemma ReceivedSaved(v: Ipc.Ipc, r: Ipc.Ipc, c: Proc, regs: Regs, i: nat)
    requires Asking(v, c, regs) && i < |v.lists[Ipc.Senders(c)]|
    requires Ipc.Shape(Saved(v, c, regs)) && Ipc.Listed(Saved(v, c, regs))
    requires Received(Saved(v, c, regs), r, c, regs, i)
    ensures Received(v, r, c, regs, i)
  {
    hide Ipc.NoMissed, RQ.NoDup, Ram.Copy, Passed;
    var s := v.lists[Ipc.Senders(c)][i];
    assert s in v.status && Ipc.Placed(v, s, Ipc.Senders(c));
    var n := Smaller(v.regs[s].ecx, regs.ecx);
    StoredTwice(v.regs, c, regs, s, v.regs[s].(eax := n, esi := 0), regs.(eax := n, esi := 0));
  }

  /**
   * A receive is refused (-2) if the area ends too far. Otherwise it returns the latched interrupts with count 0; or
   * the first message it accepts; or, if there is neither, the caller waits.
   */
  ghost predicate ReceiveDone(v: Ipc.Ipc, r: Ipc.Ipc, c: Proc, regs: Regs)
    requires Asking(v, c, regs)
  {
    var q := v.lists[Ipc.Senders(c)];
    if TooFar(c, regs) then Told(v, r, c, regs, 2, -2)
    else if v.interrupts[c] != 0 then
      r == Saved(v, c, regs.(eax := 0, esi := v.interrupts[c] as int)).(interrupts := v.interrupts[c := 0])
    else
      && (forall i: nat {:trigger First(q, regs.ebx, i)} :: First(q, regs.ebx, i) ==> Received(v, r, c, regs, i))
      && (NobodyAccepted(q, regs.ebx, |q|) ==>
           r == Saved(v, c, regs).(status := v.status[c := Ipc.Receiving(regs.ebx)]))
  }

  lemma Receives(v: Ipc.Ipc, c: Proc, regs: Regs, dev: Ipc.Device)
    requires Asking(v, c, regs) && regs.eax == 2
    ensures ReceiveDone(v, After(v, c, regs, dev), c, regs)
  {
    hide Ipc.Exclusive, Ipc.NoMissed, Received, First, NobodyAccepted, Ram.Copy;
    SavedAsking(v, c, regs);
    var s, q := Saved(v, c, regs), v.lists[Ipc.Senders(c)];
    if !TooFar(c, regs) && v.interrupts[c] == 0 {
      forall i: nat {:trigger First(q, regs.ebx, i)} | First(q, regs.ebx, i)
        ensures i < |q| && Received(v, After(v, c, regs, dev), c, regs, i)
      {
        FirstWithin(q, regs.ebx, i);
        ReceivedIs(s, c, i);
        ReceivedSaved(v, After(v, c, regs, dev), c, regs, i);
      }
      if NobodyAccepted(q, regs.ebx, |q|) {
        NoneIs(q, regs.ebx);
      }
    }
  }

  lemma FirstWithin(q: seq<Proc>, desired: Word, i: nat)
    requires First(q, desired, i)
    ensures i < |q|
  {
  }

  // ---------- call 3: send to a feature ----------

  /** `p` receives from anybody or from `c`. */
  ghost predicate Awaits(v: Ipc.Ipc, p: Proc, c: Proc)
    requires p in v.status
  {
    v.status[p].Receiving? && (v.status[p].from == 0 || v.status[p].from == c.addr)
  }

  /** The message has passed: the receiver is ready, both sides know the count and 0. */
  ghost predicate Sent(v: Ipc.Ipc, r: Ipc.Ipc, c: Proc, regs: Regs, p: Proc)
    requires Ipc.Shape(v) && c in v.status && p in v.status
  {
    var wanted := v.regs[p];
    var n := Smaller(regs.ecx, wanted.ecx);
    r == v.(status := v.status[p := Ipc.Ready],
            regs := v.regs[c := regs.(eax := n, esi := 0)][p := wanted.(eax := n, esi := 0)],
            ram := Passed(v.ram, c, regs, p, wanted))
  }

  /** The caller waits, last in the list and told nothing. */
  ghost predicate Lined(v: Ipc.Ipc, r: Ipc.Ipc, c: Proc, regs: Regs, o: Ipc.Owner, flagged: bool)
    requires o in v.lists
  {
    r == Saved(v, c, regs).(lists := v.lists[o := v.lists[o] + [c]], status := v.status[c := Ipc.Queued(o, flagged)])
  }

  /**
   * A send is refused for anything but one bit (-5) and for the caller's own feature (-3). Without a supplier the
   * caller waits for one if its edi is 1, and is refused (-4) otherwise. With a supplier its ebx names it; the send is
   * refused (-2) if the area ends too far, passes if the supplier awaits it, and else makes the caller wait.
   */
  ghost predicate SendDone(v: Ipc.Ipc, r: Ipc.Ipc, c: Proc, regs: Regs)
    requires Asking(v, c, regs)
  {
    var slot := Slot(regs.ebx);
    if slot < 0 then Told(v, r, c, regs, 3, -5)
    else if v.suppliers[slot] == To(c) then Told(v, r, c, regs, 3, -3)
    else if v.suppliers[slot] == Nil then
      if regs.edi == 1 then Lined(v, r, c, regs, Ipc.Waiters(slot), false) else Told(v, r, c, regs, 3, -4)
    else
      assert Ipc.LinkIn(v.suppliers[slot], v.status.Keys);
      var p := v.suppliers[slot].p;
      var named := regs.(ebx := p.addr);
      if TooFar(c, regs) then Told(v, r, c, named, 3, -2)
      else if Awaits(v, p, c) then Sent(v, r, c, named, p)
      else Lined(v, r, c, named, Ipc.Senders(p), true)
  }

  lemma SentIs(v: Ipc.Ipc, c: Proc, regs: Regs, p: Proc)
    requires Ipc.Inv(v) && c in v.status && v.status[c] == Ipc.Ready && p in v.status && p != c && regs == v.regs[c]
    ensures var r := Ipc.Send(v, c, p).ipc;
      if TooFar(c, regs) then r == v.(regs := v.regs[c := regs.(esi := -2)])
      else if Awaits(v, p, c) then Sent(v, r, c, regs, p)
      else r == v.(lists := v.lists[Ipc.Senders(p) := v.lists[Ipc.Senders(p)] + [c]],
                   status := v.status[c := Ipc.Queued(Ipc.Senders(p), true)])
  {
    hide Ipc.Exclusive, Ipc.NoMissed, Ram.Copy;
  }

  lemma SentSaved(v: Ipc.Ipc, r: Ipc.Ipc, c: Proc, regs: Regs, p: Proc)
    requires Ipc.Inv(v) && c in v.status && p in v.status && p != c && Ipc.Shape(Saved(v, c, regs))
    requires Sent(Saved(v, c, regs), r, c, regs, p)
    ensures Sent(v, r, c, regs, p)
  {
    hide Ipc.Inv, Passed;
    assert forall x: Regs {:trigger Saved(v, c, x)} :: v.regs[c := regs][c := x] == v.regs[c := x];
  }

  lemma SendsNamed(v: Ipc.Ipc, c: Proc, regs: Regs, slot: nat, p: Proc)
    requires Asking(v, c, regs) && slot < 4 && v.suppliers[slot] == To(p) && p != c && p in v.status
    ensures var s, r := Saved(v, c, regs), (SavedAsking(v, c, regs); Ipc.SendToSlot(Saved(v, c, regs), c, slot).ipc);
      var named := regs.(ebx := p.addr);
      if TooFar(c, regs) then Told(v, r, c, named, named.eax, -2)
      else if Awaits(v, p, c) then Sent(v, r, c, named, p)
      else Lined(v, r, c, named, Ipc.Senders(p), true)
  {
    hide Ipc.Exclusive, Ipc.NoMissed, Passed, Ipc.Send;
    SavedAsking(v, c, regs);
    var named := regs.(ebx := p.addr);
    var s := Saved(v, c, named);
    IpcInvariant.SameWaitingKeeps(v, s);
    assert Saved(v, c, regs).(regs := Saved(v, c, regs).regs[c := named]) == s;
    SentIs(s, c, named, p);
    if !TooFar(c, regs) && Awaits(v, p, c) {
      SentSaved(v, Ipc.Send(s, c, p).ipc, c, named, p);
    }
  }

  lemma Sends(v: Ipc.Ipc, c: Proc, regs: Regs, dev: Ipc.Device)
    requires Asking(v, c, regs) && regs.eax == 3
    ensures SendDone(v, After(v, c, regs, dev), c, regs)
  {
    hide Ipc.Exclusive, Ipc.NoMissed, Features.IsFeature, Sent, Ipc.Send;
    SavedAsking(v, c, regs);
    SlotMeans(regs.ebx);
    var slot := Slot(regs.ebx);
    if slot >= 0 && v.suppliers[slot] != Nil && v.suppliers[slot] != To(c) {
      assert Ipc.LinkIn(v.suppliers[slot], v.status.Keys);
      SendsNamed(v, c, regs, slot, v.suppliers[slot].p);
    }
  }

  // ---------- call 4: claim an interrupt line ----------

  /** Lines 0, 2 and above 15 cannot be claimed (-6), nor can another process's line (-7). */
  ghost predicate ClaimDone(v: Ipc.Ipc, r: Ipc.Ipc, c: Proc, regs: Regs)
    requires Asking(v, c, regs)
  {
    var n := regs.ebx;
    if n == 0 || n == 2 || n > 15 then Told(v, r, c, regs, 4, -6)
    else if v.irqs[n] != Nil && v.irqs[n] != To(c) then Told(v, r, c, regs, 4, -7)
    else r == Saved(v, c, regs.(esi := 0)).(irqs := v.irqs[n := To(c)])
  }

  lemma Claims(v: Ipc.Ipc, c: Proc, regs: Regs, dev: Ipc.Device)
    requires Asking(v, c, regs) && regs.eax == 4
    ensures ClaimDone(v, After(v, c, regs, dev), c, regs)
  {
    hide Ipc.Exclusive, Ipc.NoMissed;
    SavedAsking(v, c, regs);
  }

  // ---------- call 0: leave ----------

  /** The caller is gone; its senders are ready and told -8; its lines are free, except the last. */
  ghost predicate ExitDone(v: Ipc.Ipc, r: Ipc.Ipc, c: Proc, regs: Regs)
    requires Asking(v, c, regs)
  {
    var q := v.lists[Ipc.Senders(c)];
    && r == v.(status := r.status, lists := v.lists[Ipc.Senders(c) := []], irqs := r.irqs, regs := r.regs)
    && r.status.Keys == v.status.Keys && r.regs.Keys == v.regs.Keys
    && (forall p {:trigger r.status[p]} :: p in v.status ==>
         (r.status[p] == if p == c then Ipc.Empty else if p in q then Ipc.Ready else v.status[p]))
    && (forall p {:trigger r.regs[p]} :: p in v.regs ==>
         (r.regs[p] == if p == c then regs else if p in q then v.regs[p].(esi := -8) else v.regs[p]))
    && |r.irqs| == |v.irqs|
    && (forall n {:trigger r.irqs[n]} :: 0 <= n < |v.irqs| ==>
         (r.irqs[n] == if n < 15 && v.irqs[n] == To(c) then Nil else v.irqs[n]))
  }

  lemma Exits(v: Ipc.Ipc, c: Proc, regs: Regs, dev: Ipc.Device)
    requires Asking(v, c, regs) && regs.eax == 0
    ensures ExitDone(v, After(v, c, regs, dev), c, regs)
  {
    hide Ipc.NoMissed;
    SavedAsking(v, c, regs);
    assert Ipc.Placed(v, c, Ipc.Senders(c));
  }

  // ---------- all calls ----------

  /** Calls 5 to 10 return what the device reports, and numbers above are refused (-1). */
  lemma OtherCalls(v: Ipc.Ipc, c: Proc, regs: Regs, dev: Ipc.Device)
    requires Asking(v, c, regs) && regs.eax >= 5
    ensures var r := After(v, c, regs, dev);
      if regs.eax <= 10 then Told(v, r, c, regs, dev.eax, dev.esi) else Told(v, r, c, regs, regs.eax, -1)
  {
    hide Ipc.Exclusive, Ipc.NoMissed;
    SavedAsking(v, c, regs);
    var s := Saved(v, c, regs);
    assert Saved(s, c, regs.(eax := dev.eax, esi := dev.esi)) == Saved(v, c, regs.(eax := dev.eax, esi := dev.esi));
    assert s.regs[c := regs.(eax := dev.eax)][c := regs.(eax := dev.eax, esi := dev.esi)] ==
      s.regs[c := regs.(eax := dev.eax, esi := dev.esi)];
  }

  /** What a system call of the running process does in a step of the kernel, by the number in its eax. */
  ghost predicate CallDone(v: Ipc.Ipc, r: Ipc.Ipc, c: Proc, regs: Regs, dev: Ipc.Device)
    requires Asking(v, c, regs)
  {
    match regs.eax
    case 0 => ExitDone(v, r, c, regs)
    case 1 => RegisterDone(v, r, c, regs)
    case 2 => ReceiveDone(v, r, c, regs)
    case 3 => SendDone(v, r, c, regs)
    case 4 => ClaimDone(v, r, c, regs)
    case n => if n <= 10 then Told(v, r, c, regs, dev.eax, dev.esi) else Told(v, r, c, regs, n, -1)
  }

  lemma StepAnswers(k: State, e: Event)
    requires Inv(k) && Possible(k, e) && e.number == 2
    ensures Asking(k.ipc, k.sched.cur, e.regs)
    ensures CallDone(k.ipc, Step(k, e).ipc, k.sched.cur, e.regs, e.device)
    ensures forall p {:trigger Step(k, e).ipc.status[p]} :: p in Step(k, e).ipc.status ==>
      (Step(k, e).ipc.status[p] == Ipc.Ready <==> p in Step(k, e).sched.ready)
  {
    hide Inv, Possible, Asking, After, ExitDone, RegisterDone, ReceiveDone, SendDone, ClaimDone, Told, Step;
    CallStep(k, e);
    var v, c, regs := k.ipc, k.sched.cur, e.regs;
    match regs.eax
    case 0 => Exits(v, c, regs, e.device);
    case 1 => Registers(v, c, regs, e.device);
    case 2 => Receives(v, c, regs, e.device);
    case 3 => Sends(v, c, regs, e.device);
    case 4 => Claims(v, c, regs, e.device);
    case _ => OtherCalls(v, c, regs, e.device);
  }

  /** The caller goes on and is told -2. */
  ghost predicate Refused(r: Ipc.Ipc, c: Proc) {
    c in r.regs && c in r.status && r.regs[c].esi == -2 && r.status[c] == Ipc.Ready
  }

  lemma {:induction false} FirstExists(q: seq<Proc>, desired: Word, n: nat) returns (i: nat)
    requires n <= |q| && !NobodyAccepted(q, desired, n)
    ensures First(q, desired, i)
    decreases n
  {
    if NobodyAccepted(q, desired, n - 1) {
      i := n - 1;
    } else {
      i := FirstExists(q, desired, n - 1);
    }
  }

  lemma ReceivedTold(v: Ipc.Ipc, r: Ipc.Ipc, c: Proc, regs: Regs, i: nat)
    requires Asking(v, c, regs) && i < |v.lists[Ipc.Senders(c)]| && Received(v, r, c, regs, i)
    ensures !Refused(r, c)
  {
    hide Ipc.Exclusive, Ipc.NoMissed, Passed;
  }

  lemma ReceiveRefused(v: Ipc.Ipc, r: Ipc.Ipc, c: Proc, regs: Regs)
    requires Asking(v, c, regs) && ReceiveDone(v, r, c, regs)
    ensures Refused(r, c) <==> TooFar(c, regs)
  {
    hide Ipc.Exclusive, Ipc.NoMissed, Received, First, NobodyAccepted;
    var q := v.lists[Ipc.Senders(c)];
    if !TooFar(c, regs) && v.interrupts[c] == 0 && !NobodyAccepted(q, regs.ebx, |q|) {
      var i := FirstExists(q, regs.ebx, |q|);
      FirstWithin(q, regs.ebx, i);
      ReceivedTold(v, r, c, regs, i);
    }
  }

  lemma SendRefused(v: Ipc.Ipc, r: Ipc.Ipc, c: Proc, regs: Regs)
    requires Asking(v, c, regs) && SendDone(v, r, c, regs) && Slot(regs.ebx) >= 0
    requires v.suppliers[Slot(regs.ebx)] != Nil && v.suppliers[Slot(regs.ebx)] != To(c)
    ensures Refused(r, c) <==> TooFar(c, regs)
  {
    hide Ipc.Exclusive, Ipc.NoMissed, Passed;
  }

  /**
   * A receive, or a send to another supplier, is refused for its area exactly when the area ends behind
   * the caller's segment limit; of an area that reaches past 2^32 only what is past counts.
   */
  lemma RefusedExactly(k: State, e: Event)
    requires Inv(k) && Possible(k, e) && e.number == 2
    requires e.regs.eax == 2 || (e.regs.eax == 3 && Slot(e.regs.ebx) >= 0)
    requires e.regs.eax == 3 ==>
      k.ipc.suppliers[Slot(e.regs.ebx)] != Nil && k.ipc.suppliers[Slot(e.regs.ebx)] != To(k.sched.cur)
    ensures var c, end := k.sched.cur, e.regs.edx + e.regs.ecx;
      Refused(Step(k, e).ipc, c) <==> c.dsLimit < (if end < 0x1_0000_0000 then end else end - 0x1_0000_0000)
  {
    hide Inv, Possible, Step, Asking, ReceiveDone, SendDone, Refused;
    StepAnswers(k, e);
    if e.regs.eax == 2 {
      ReceiveRefused(k.ipc, Step(k, e).ipc, k.sched.cur, e.regs);
    } else {
      SendRefused(k.ipc, Step(k, e).ipc, k.sched.cur, e.regs);
    }
  }

  // ---------- interrupts ----------

  /** The bit of each line, in numbers. */
  lemma Masks()
    ensures Ipc.Mask(0) == 0x1 && Ipc.Mask(1) == 0x2 && Ipc.Mask(2) == 0x4 && Ipc.Mask(3) == 0x8
    ensures Ipc.Mask(4) == 0x10 && Ipc.Mask(5) == 0x20 && Ipc.Mask(6) == 0x40 && Ipc.Mask(7) == 0x80
    ensures Ipc.Mask(8) == 0x100 && Ipc.Mask(9) == 0x200 && Ipc.Mask(10) == 0x400 && Ipc.Mask(11) == 0x800
    ensures Ipc.Mask(12) == 0x1000 && Ipc.Mask(13) == 0x2000 && Ipc.Mask(14) == 0x4000 && Ipc.Mask(15) == 0x8000
  {
  }

  /** The clock, and an interrupt nobody has claimed, change nothing but the registers saved. */
  lemma NothingServed(k: State, e: Event)
    requires Inv(k) && Possible(k, e) && e.number != 2
    requires e.number == 0 || k.ipc.irqs[e.number] == Nil
    ensures Step(k, e).ipc ==
      if k.sched.cur == k.sched.idle then k.ipc else Saved(k.ipc, k.sched.cur, e.regs)
  {
    hide Ipc.Inv, Dispatched;
    SaveKeeps(k, e);
  }

  // ---------- claimed lines ----------

  lemma ReceiveOwned(v: Ipc.Ipc, r: Ipc.Ipc, c: Proc, regs: Regs)
    requires Asking(v, c, regs) && ReceiveDone(v, r, c, regs)
    ensures r.irqs == v.irqs
  {
    hide Ipc.Exclusive, Ipc.NoMissed, First, NobodyAccepted, Passed;
    var q := v.lists[Ipc.Senders(c)];
    if !TooFar(c, regs) && v.interrupts[c] == 0 && !NobodyAccepted(q, regs.ebx, |q|) {
      var i := FirstExists(q, regs.ebx, |q|);
      FirstWithin(q, regs.ebx, i);
    }
  }

  lemma SendOwned(v: Ipc.Ipc, r: Ipc.Ipc, c: Proc, regs: Regs)
    requires Asking(v, c, regs) && SendDone(v, r, c, regs)
    ensures r.irqs == v.irqs
  {
    hide Ipc.Exclusive, Ipc.NoMissed, Passed;
  }

  lemma CallOwned(v: Ipc.Ipc, r: Ipc.Ipc, c: Proc, regs: Regs, dev: Ipc.Device, n: nat, o: Proc)
    requires Asking(v, c, regs) && CallDone(v, r, c, regs, dev) && n <= 15 && v.irqs[n] == To(o)
    ensures |r.irqs| == 16 && (r.irqs[n] == To(o) || (n < 15 && c == o && regs.eax == 0))
  {
    hide Ipc.Exclusive, Ipc.NoMissed, ReceiveDone, SendDone;
    if regs.eax == 2 {
      ReceiveOwned(v, r, c, regs);
    } else if regs.eax == 3 {
      SendOwned(v, r, c, regs);
    }
  }

  lemma LineOwned(k: State, e: Event)
    requires Inv(k) && Possible(k, e) && e.number != 2
    ensures Step(k, e).ipc.irqs == k.ipc.irqs
  {
    hide Ipc.Inv, Dispatched;
    SaveKeeps(k, e);
  }

  /** A line stays its owner's until the owner leaves, and the last line even then. */
  lemma StepOwned(k: State, e: Event, n: nat, c: Proc)
    requires Inv(k) && Possible(k, e) && n <= 15 && k.ipc.irqs[n] == To(c)
    ensures |Step(k, e).ipc.irqs| == 16
    ensures Step(k, e).ipc.irqs[n] == To(c) || (n < 15 && Service.Leaves(k, e, c))
  {
    hide Possible, Step, Asking, CallDone, Ipc.Exclusive, Ipc.NoMissed, RQ.SchedInv;
    if e.number == 2 {
      StepAnswers(k, e);
      CallOwned(k.ipc, Step(k, e).ipc, k.sched.cur, e.regs, e.device, n, c);
    } else {
      LineOwned(k, e);
    }
  }

  /** In every run an interrupt on a line raises it for whoever has claimed the line, unless that process has left. */
  lemma {:induction false} OwnerIsRaised(k: State, es: seq<Event>, n: nat, c: Proc, e: Event)
    requires Inv(k) && Feasible(k, es) && n <= 15 && n != 0 && n != 2 && k.ipc.irqs[n] == To(c)
    requires Possible(Run(k, es), e) && e.number == n
    ensures IrqDelivery.Raises(Run(k, es), e, c) || (n < 15 && Service.LeavesIn(k, es, c))
    decreases |es|
  {
    hide Inv, Possible, Step, Service.Leaves;
    if es != [] {
      StepKeeps(k, es[0]);
      StepOwned(k, es[0], n, c);
      if !Service.Leaves(k, es[0], c) {
        OwnerIsRaised(Step(k, es[0]), es[1..], n, c, e);
      } else if n == 15 {
        OwnerIsRaised(Step(k, es[0]), es[1..], n, c, e);
      }
    }
  }

  /** From a claim on, every interrupt on the line is the claimer's. */
  lemma ClaimLasts(k: State, e: Event, es: seq<Event>, f: Event)
    requires Inv(k) && Possible(k, e) && e.number == 2 && e.regs.eax == 4
    requires e.regs.ebx == 1 || 3 <= e.regs.ebx <= 15
    requires k.ipc.irqs[e.regs.ebx] == Nil || k.ipc.irqs[e.regs.ebx] == To(k.sched.cur)
    ensures Inv(Step(k, e))
    ensures Feasible(Step(k, e), es) && Possible(Run(Step(k, e), es), f) && f.number == e.regs.ebx ==>
      || IrqDelivery.Raises(Run(Step(k, e), es), f, k.sched.cur)
      || (e.regs.ebx < 15 && Service.LeavesIn(Step(k, e), es, k.sched.cur))
  {
    hide Possible, Step, Ipc.Exclusive, Ipc.NoMissed, RQ.SchedInv;
    StepKeeps(k, e);
    StepAnswers(k, e);
    if Feasible(Step(k, e), es) && Possible(Run(Step(k, e), es), f) && f.number == e.regs.ebx {
      OwnerIsRaised(Step(k, e), es, e.regs.ebx, k.sched.cur, f);
    }
  }
}
