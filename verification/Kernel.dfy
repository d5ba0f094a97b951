/** The kernel's message passing on its process records and tables, proved to refine the value-level calls of `Ipc`. */
module KernelMemory {
  import opened Word32
  import opened Processes
  import opened Scheduling
  import opened MailMemory
  import Ipc
  import IpcInvariant
  import KernelModel
  import KernelRuns
  import Features
  import Ram
  import RQ = ReadyQueue
  import QueueMemory

  class Kernel {
    const table: ProcessTable
    const sched: Scheduler
    const ram: array<Byte>

    var suppliers: seq<Process?>   // of the feature table
    var waiters: seq<Process?>     // first process waiting for each feature's supplier
    var irqs: seq<Process?>

    ghost var view: Ipc.Ipc

    ghost function Links(s: seq<Process?>): (l: seq<Link>)
      ensures |l| == |s| && forall i {:trigger l[i]} :: 0 <= i < |s| ==> l[i] == table.Ref(s[i])
    {
      seq(|s|, i requires 0 <= i < |s| => table.Ref(s[i]))
    }

    /** The kernel's tables hold what the state says. */
    ghost predicate Tables(v: Ipc.Ipc)
      reads this
    {
      && |waiters| == Ipc.FEATURE_SLOTS
      && v.suppliers == Links(suppliers) && v.irqs == Links(irqs)
    }

    ghost predicate Holding(v: Ipc.Ipc)
      reads this, table, table.procs, ram
    {
      && table.Valid() && Tables(v)
      && Mailed(v, table.mails, Links(waiters))
      && ram.Length == W && v.ram == ram[..]
    }

    /** Records and tables represent the scheduler's and the IPC state. */
    ghost predicate Repr()
      reads this, table, table.procs, sched, ram
    {
      sched.table == table && sched.Valid() && Holding(view)
    }

    /** The state represented. */
    ghost function State(): KernelModel.State
      reads this, sched
    {
      KernelModel.State(sched.view, view)
    }

    /** Nobody waits, nothing is registered, no interrupt is latched; a process is ready or does not exist. */
    constructor (table: ProcessTable, sched: Scheduler, ram: array<Byte>)
      requires sched.table == table && sched.Valid() && ram.Length == W
      requires forall p {:trigger table.mails[p]} :: p in table.mails ==> Unused(table.mails[p])
      ensures Repr() && this.table == table && this.sched == sched && this.ram == ram
      ensures view == Initial(table.mails, ram[..]) && Ipc.Inv(view) && Ipc.Complete(view)
    {
      hide Posted, Lists, RQ.SchedInv, QueueMemory.Holds, QueueMemory.Settled, Ipc.Inv, Ipc.Complete;
      this.table, this.sched, this.ram := table, sched, ram;
      suppliers := seq(Ipc.FEATURE_SLOTS, i => null);
      waiters := seq(Ipc.FEATURE_SLOTS, i => null);
      irqs := seq(Ipc.MAX_IRQ + 1, i => null);
      view := Initial(table.mails, ram[..]);
      new;
      assert Links(waiters) == Nils(Ipc.FEATURE_SLOTS) && Links(irqs) == Nils(Ipc.MAX_IRQ + 1);
      InitialMailed(table.mails, ram[..]);
    }

    // ---------- reading records ----------

    lemma Fields(p: Process)
      requires Repr() && p in table.procs
      ensures table.Ref(p) == To(p.id) && table.Ref(null) == Nil
      ensures p.id in table.mails && table.mails[p.id] == table.MailOf(p) && p.id in view.status.Keys
      ensures p.id in view.regs && p.regs == view.regs[p.id]
      ensures p.id in view.interrupts && p.interrupts == view.interrupts[p.id]
      ensures p.state == StateOf(view.status[p.id]) && p.receivingFrom == FromOf(view.status[p.id])
    {
      hide Lists, StateOf, FromOf, Scheduler.Valid, QueueMemory.Chain;
      assert table.mails[p.id] == table.MailOf(p);
      assert Post(view, p.id, table.mails[p.id]);
    }

    // ---------- elementary stores ----------

    method StoreRegs(p: Process, r: Regs)
      requires Repr() && p in table.procs
      modifies this`view, table`mails, p`regs
      ensures Repr() && p.id in old(view).regs && view == old(view).(regs := old(view).regs[p.id := r])
    {
      hide Posted, Lists, RQ.SchedInv, QueueMemory.Holds, QueueMemory.Settled,
        Scheduler.Globals, ProcessTable.Valid;
      Fields(p);
      RegsMailed(view, table.mails, Links(waiters), p.id, r);
      table.SetRegs(p, r);
      view := view.(regs := view.regs[p.id := r]);
    }

    method StoreInterrupts(p: Process, b: bv16)
      requires Repr() && p in table.procs
      modifies this`view, table`mails, p`interrupts
      ensures Repr() && p.id in old(view).interrupts
      ensures view == old(view).(interrupts := old(view).interrupts[p.id := b])
    {
      hide Posted, Lists, RQ.SchedInv, QueueMemory.Holds, QueueMemory.Settled,
        Scheduler.Globals, ProcessTable.Valid;
      Fields(p);
      InterruptsMailed(view, table.mails, Links(waiters), p.id, b);
      table.SetInterrupts(p, b);
      view := view.(interrupts := view.interrupts[p.id := b]);
    }

    /** Store the state bits and the awaited sender that stand for a status. */
    method StoreStatus(p: Process, from: Word, bits: bv8, ghost s: Ipc.Status)
      requires Repr() && p in table.procs && bits == StateOf(s) && from == FromOf(s)
      modifies this`view, table`mails, p`state, p`receivingFrom
      ensures Repr() && p.id in old(view).status && view == old(view).(status := old(view).status[p.id := s])
    {
      hide Posted, Lists, StateOf, FromOf, RQ.SchedInv, QueueMemory.Holds, QueueMemory.Settled,
        Scheduler.Globals, ProcessTable.Valid;
      Fields(p);
      StatusMailed(view, table.mails, Links(waiters), p.id, s);
      table.SetWaiting(p, from, bits);
      view := view.(status := view.status[p.id := s]);
    }

    method SetErr(p: Process, e: int)
      requires Repr() && p in table.procs
      modifies this`view, table`mails, p`regs
      ensures Repr() && p.id in old(view).regs && view == Ipc.SetErr(old(view), p.id, e)
    {
      hide Repr;
      Fields(p);
      StoreRegs(p, p.regs.(esi := e));
    }

    method SetEax(p: Process, n: Word)
      requires Repr() && p in table.procs
      modifies this`view, table`mails, p`regs
      ensures Repr() && p.id in old(view).regs && view == Ipc.SetEax(old(view), p.id, n)
    {
      hide Repr;
      Fields(p);
      StoreRegs(p, p.regs.(eax := n));
    }

    // ---------- state flags and the ready queue ----------

    method Enqueue(p: Process)
      requires Repr() && p in table.procs
      modifies table`mem, table.procs, sched
      ensures Repr() && p.id in old(sched.view).ticks && sched.view == RQ.Enqueue(old(sched.view), p.id)
    {
      hide Mailed, RQ.Enqueue, QueueMemory.Holds, QueueMemory.Settled;
      sched.Enqueue(p);
    }

    method Dequeue(p: Process)
      requires Repr() && p in table.procs && RQ.CanDequeue(sched.view, p.id)
      modifies table`mem, table.procs, sched
      ensures Repr() && sched.view == RQ.Dequeue(old(sched.view), p.id)
    {
      hide Mailed, RQ.Dequeue, RQ.SchedInv, QueueMemory.Holds, QueueMemory.Settled;
      sched.Dequeue(p);
    }

    /** Raise a flag of a ready process, which leaves the ready queue. */
    method SetStateFlag(p: Process, f: bv8, from: Word, ghost s: Ipc.Status)
      requires Repr() && p in table.procs && RQ.CanDequeue(sched.view, p.id)
      requires p.id in view.status && view.status[p.id] == Ipc.Ready && StateOf(s) == f && FromOf(s) == from
      modifies this`view, table, table.procs, sched
      ensures Repr() && view == old(view).(status := old(view).status[p.id := s])
      ensures sched.view == RQ.Dequeue(old(sched.view), p.id)
    {
      hide Repr, FromOf, RQ.SchedInv, RQ.CanDequeue, RQ.Dequeue;
      Fields(p);
      OrZero(f);
      StoreStatus(p, from, p.state | f, s);
      Dequeue(p);
    }

    /** Clear the flag of a waiting process, which enters the ready queue. */
    method UnsetStateFlag(p: Process, f: bv8)
      requires Repr() && p in table.procs
      requires p.id in view.status && (StateOf(view.status[p.id]) == f || StateOf(view.status[p.id]) == 0)
      modifies this`view, table, table.procs, sched
      ensures Repr() && view == Ipc.Wake(old(view), p.id)
      ensures p.id in old(sched.view).ticks && sched.view == RQ.Enqueue(old(sched.view), p.id)
    {
      hide Repr, RQ.Enqueue;
      Fields(p);
      AndNot(p.state, f);
      StoreStatus(p, 0, p.state & !f, Ipc.Ready);
      Fields(p);
      if p.state == 0 {
        Enqueue(p);
      }
    }

    // ---------- walking the lists ----------

    /** What a link of the IPC state refers to. */
    lemma Deref(x: Process?, p: Proc)
      requires Repr() && table.Ref(x) == To(p) && p in table.mails
      ensures x != null && x in table.procs && x.id == p && table.mails[p] == table.MailOf(x)
    {
      hide Mailed, Scheduler.Valid;
      assert table.mails[x.id] == table.MailOf(x);
    }

    /** The chain of an owner's list. */
    lemma ListChain(o: Ipc.Owner)
      requires Repr() && o in view.lists
      ensures Chain(view.lists[o], table.mails, HeadOf(o, table.mails, Links(waiters)))
    {
      hide Posted, Chain, Scheduler.Valid;
    }

    method GetSender(desired: Word, receiver: Process) returns (result: Process?)
      requires Repr() && receiver in table.procs && Ipc.Senders(receiver.id) in view.lists
      ensures table.Ref(result) == Ipc.FindSender(view.lists[Ipc.Senders(receiver.id)], desired)
    {
      hide Repr, Chain;
      ghost var q := view.lists[Ipc.Senders(receiver.id)];
      ListChain(Ipc.Senders(receiver.id));
      Fields(receiver);
      ChainStart(q, table.mails, table.Ref(receiver.firstSender));
      if receiver.firstSender == null {
        return null;
      }
      if desired == Ipc.ANYPROC {
        return receiver.firstSender;
      }
      var cur := receiver.firstSender;
      ghost var rest := q;
      while true
        invariant Chain(rest, table.mails, table.Ref(cur))
        invariant Ipc.FindSender(rest, desired) == Ipc.FindSender(q, desired)
        decreases |rest|
      {
        ChainStart(rest, table.mails, table.Ref(cur));
        if cur == null {
          return null;
        }
        Deref(cur, rest[0]);
        if cur.id.addr == desired {
          return cur;
        }
        cur := cur.nextSender;
        rest := rest[1..];
      }
    }

    /** The last process of a list, or null. */
    method LastOf(head: Process?, ghost q: seq<Proc>) returns (previous: Process?)
      requires Repr() && Chain(q, table.mails, table.Ref(head))
      ensures if q == [] then previous == null
              else previous != null && previous in table.procs && previous.id == q[|q| - 1]
    {
      hide Repr, Chain;
      previous := null;
      var cur := head;
      ghost var k := 0;
      while cur != null
        invariant k <= |q| && Chain(q[k..], table.mails, table.Ref(cur))
        invariant if k == 0 then previous == null
                  else previous != null && previous in table.procs && previous.id == q[k - 1]
        decreases |q| - k
      {
        ChainStart(q[k..], table.mails, table.Ref(cur));
        Deref(cur, q[k..][0]);
        assert q[k..][1..] == q[k + 1..] && q[k..][0] == q[k];
        previous := cur;
        cur := cur.nextSender;
        k := k + 1;
      }
      ChainStart(q[k..], table.mails, table.Ref(cur));
    }

    // ---------- list surgery ----------

    /** Line `sender` up behind the senders of `receiver`; its state is not touched. */
    method LinkSender(sender: Process, receiver: Process)
      requires Repr() && sender in table.procs && receiver in table.procs
      requires Separate(view.lists) && Unlisted(view.lists, sender.id) && Ipc.Senders(receiver.id) in view.lists
      modifies this`view, table`mails, table.procs`firstSender, table.procs`nextSender
      ensures Repr() && Ipc.Senders(receiver.id) in old(view).lists
      ensures view == Lined(old(view), Ipc.Senders(receiver.id), sender.id)
    {
      hide Mailed, Posted, Lists, Chain, Separate, Unlisted, RQ.SchedInv, QueueMemory.Holds, QueueMemory.Settled,
        Scheduler.Globals, ProcessTable.Valid, ProcessTable.Ref;
      ghost var o, q, m := Ipc.Senders(receiver.id), view.lists[Ipc.Senders(receiver.id)], table.mails;
      ListChain(o);
      Fields(sender);
      Fields(receiver);
      LinedMailed(view, m, Links(waiters), sender.id, o);
      var previous := LastOf(receiver.firstSender, q);
      LinkBehind(previous, sender, receiver, q);
      view := Lined(view, o, sender.id);
    }

    /** The stores that put `sender` behind `previous`, or first into the list of `receiver`. */
    method LinkBehind(previous: Process?, sender: Process, receiver: Process, ghost q: seq<Proc>)
      requires table.Valid() && sender in table.procs && receiver in table.procs
      requires if q == [] then previous == null
               else previous != null && previous in table.procs && previous.id == q[|q| - 1]
      requires sender.id in table.mails && receiver.id in table.mails && (q != [] ==> q[|q| - 1] in table.mails)
      modifies table`mails, table.procs`firstSender, table.procs`nextSender
      ensures table.Valid()
      ensures table.mails == AppendMails(old(table.mails), Ipc.Senders(receiver.id), q, sender.id)
    {
      if previous != null {
        table.SetNextSender(previous, sender);
      } else {
        table.SetFirstSender(receiver, sender);
      }
      table.SetNextSender(sender, null);
    }

    /** Line the running process up behind the senders of `receiver` and block it. */
    method AddToSendersList(sender: Process, receiver: Process)
      requires Repr() && sender in table.procs && receiver in table.procs
      requires Separate(view.lists) && Unlisted(view.lists, sender.id) && Ipc.Senders(receiver.id) in view.lists
      requires sender.id in view.status && view.status[sender.id] == Ipc.Ready && RQ.CanDequeue(sched.view, sender.id)
      modifies this`view, table, table.procs, sched
      ensures Repr() && Ipc.Senders(receiver.id) in old(view).lists
      ensures view == Ipc.Append(old(view), sender.id, Ipc.Senders(receiver.id), true)
      ensures sched.view == RQ.Dequeue(old(sched.view), sender.id)
    {
      hide Repr, Separate, Unlisted, RQ.CanDequeue, RQ.Dequeue;
      LinkSender(sender, receiver);
      SetStateFlag(sender, SENDING, 0, Ipc.Queued(Ipc.Senders(receiver.id), true));
    }

    /** Line `process` up behind the processes waiting for a slot's supplier; its state bits stay clear. */
    method AddWaitingForFeature(process: Process, slot: nat)
      requires Repr() && process in table.procs && slot < Ipc.FEATURE_SLOTS
      requires Separate(view.lists) && Unlisted(view.lists, process.id) && Ipc.Waiters(slot) in view.lists
      requires process.id in view.status && view.status[process.id] == Ipc.Ready
      modifies this`view, this`waiters, table`mails, table.procs`firstSender, table.procs`nextSender
      ensures Repr() && Ipc.Waiters(slot) in old(view).lists
      ensures view == Ipc.Append(old(view), process.id, Ipc.Waiters(slot), false)
    {
      hide Mailed, Posted, Lists, Chain, Separate, Unlisted, RQ.SchedInv, QueueMemory.Holds, QueueMemory.Settled,
        Scheduler.Globals, ProcessTable.Valid, ProcessTable.Ref;
      ghost var o, q, m := Ipc.Waiters(slot), view.lists[Ipc.Waiters(slot)], table.mails;
      ListChain(o);
      Fields(process);
      LinedMailed(view, m, Links(waiters), process.id, o);
      var last := LastOf(waiters[slot], q);
      ghost var w := waiters;
      if last == null {
        waiters := waiters[slot := process];
      }
      LinkWaiter(last, process, o, q);
      LinksUpdate(w, slot, process);
      StillUnflagged(Lined(view, o, process.id), table.mails, Links(waiters), process.id, o);
      view := Ipc.Append(view, process.id, o, false);
    }

    lemma LinksUpdate(s: seq<Process?>, i: nat, x: Process?)
      requires i < |s|
      ensures Links(s[i := x]) == Links(s)[i := table.Ref(x)]
    {
    }

    method LinkWaiter(previous: Process?, process: Process, ghost o: Ipc.Owner, ghost q: seq<Proc>)
      requires table.Valid() && process in table.procs && o.Waiters?
      requires if q == [] then previous == null
               else previous != null && previous in table.procs && previous.id == q[|q| - 1]
      requires process.id in table.mails && (q != [] ==> q[|q| - 1] in table.mails)
      modifies table`mails, table.procs`firstSender, table.procs`nextSender
      ensures table.Valid()
      ensures table.mails == AppendMails(old(table.mails), o, q, process.id)
    {
      if previous != null {
        table.SetNextSender(previous, process);
      }
      table.SetNextSender(process, null);
    }

    /** Take a waiting sender out of the list of `receiver`; its state is not touched. */
    method UnlinkSender(sender: Process, receiver: Process)
      requires Repr() && sender in table.procs && receiver in table.procs
      requires Separate(view.lists) && Ipc.Senders(receiver.id) in view.lists
      requires sender.id in view.lists[Ipc.Senders(receiver.id)]
      modifies this`view, table`mails, table.procs`firstSender, table.procs`nextSender
      ensures Repr() && Ipc.Senders(receiver.id) in old(view).lists
      ensures view == Unlined(old(view), receiver.id, sender.id)
    {
      hide Mailed, Posted, Lists, Chain, Separate, Unlisted, RQ.SchedInv, QueueMemory.Holds, QueueMemory.Settled,
        Scheduler.Globals, ProcessTable.Valid, ProcessTable.Ref;
      ghost var o, q, m := Ipc.Senders(receiver.id), view.lists[Ipc.Senders(receiver.id)], table.mails;
      ListChain(o);
      Fields(sender);
      Fields(receiver);
      ghost var k := RQ.IndexOf(q, sender.id);
      UnlinedMailed(view, m, Links(waiters), receiver.id, k);
      var previous := Before(sender, receiver.firstSender, q);
      Bypass(previous, sender, receiver, q, k);
      view := Unlined(view, receiver.id, sender.id);
    }

    /** The process before `sender` in a list, or null. */
    method Before(sender: Process, head: Process?, ghost q: seq<Proc>) returns (previous: Process?)
      requires Repr() && Chain(q, table.mails, table.Ref(head)) && sender in table.procs && sender.id in q
      ensures var k := RQ.IndexOf(q, sender.id);
        if k == 0 then previous == null else previous != null && previous in table.procs && previous.id == q[k - 1]
    {
      hide Repr, Chain;
      previous := null;
      var cur := head;
      ghost var k := 0;
      assert q[0..] == q;
      while cur != sender
        invariant k <= RQ.IndexOf(q, sender.id) && Chain(q[k..], table.mails, table.Ref(cur))
        invariant if k == 0 then previous == null
                  else previous != null && previous in table.procs && previous.id == q[k - 1]
        decreases |q| - k
      {
        ChainStart(q[k..], table.mails, table.Ref(cur));
        Deref(cur, q[k..][0]);
        Fields(sender);
        SameObject(cur, sender);
        assert q[k..][1..] == q[k + 1..] && q[k..][0] == q[k];
        previous := cur;
        cur := cur.nextSender;
        k := k + 1;
      }
      ChainStart(q[k..], table.mails, table.Ref(cur));
      Fields(sender);
      assert q[k..][0] == q[k];
      FirstIndex(q, sender.id, k);
    }

    lemma SameObject(x: Process, y: Process)
      requires Repr() && x in table.procs && y in table.procs
      ensures x == y <==> x.id == y.id
    {
      hide Mailed, Scheduler.Valid;
    }

    /** The stores that take `sender` out, behind `previous` or from the front of the list of `receiver`. */
    method Bypass(previous: Process?, sender: Process, receiver: Process, ghost q: seq<Proc>, ghost k: nat)
      requires table.Valid() && sender in table.procs && receiver in table.procs
      requires sender.id in table.mails && receiver.id in table.mails && k < |q| && q[k] == sender.id
      requires if k == 0 then previous == null
               else previous != null && previous in table.procs && previous.id == q[k - 1] && q[k - 1] in table.mails
      modifies table`mails, table.procs`firstSender, table.procs`nextSender
      ensures table.Valid()
      ensures table.mails == RemoveMails(old(table.mails), receiver.id, q, k)
    {
      assert table.mails[sender.id] == table.MailOf(sender);
      if previous == null {
        table.SetFirstSender(receiver, sender.nextSender);
      } else {
        table.SetNextSender(previous, sender.nextSender);
      }
      table.SetNextSender(sender, null);
    }

    /** Take a waiting sender out of the list of `receiver` and make it ready. */
    method RemoveFromSendersList(sender: Process, receiver: Process)
      requires Repr() && sender in table.procs && receiver in table.procs
      requires Separate(view.lists) && Ipc.Senders(receiver.id) in view.lists
      requires sender.id in view.lists[Ipc.Senders(receiver.id)]
      requires sender.id in view.status && view.status[sender.id].Queued?
      modifies this`view, table, table.procs, sched
      ensures Repr() && Ipc.Senders(receiver.id) in old(view).lists
      ensures view == Ipc.Wake(Unlined(old(view), receiver.id, sender.id), sender.id)
      ensures sender.id in old(sched.view).ticks && sched.view == RQ.Enqueue(old(sched.view), sender.id)
    {
      hide Repr, Separate, RQ.Enqueue;
      UnlinkSender(sender, receiver);
      UnsetStateFlag(sender, SENDING);
    }

    method ReceivingFrom(receiver: Process, sender: Process) returns (r: bool)
      requires Repr() && receiver in table.procs
      ensures receiver.id in view.status && (r <==> Ipc.ReceivingFrom(view, receiver.id, sender.id))
    {
      hide Repr, Flagged;
      Fields(receiver);
      Receives(view, receiver.id);
      if !Flagged(receiver.state, RECEIVING) {
        return false;
      }
      if receiver.receivingFrom == Ipc.ANYPROC {
        return true;
      }
      return receiver.receivingFrom == sender.id.addr;
    }

    // ---------- system calls ----------

    /** The running process `c` is being served: nobody has been picked yet. */
    ghost predicate Calling(c: Process)
      reads this, table, table.procs, sched, ram
    {
      && Repr() && Ipc.Inv(view) && c in table.procs
      && sched.view.cur == c.id && sched.view.nxt == Nil
      && c.id in view.status && view.status[c.id] == Ipc.Ready
    }

    lemma CallingFacts(c: Process)
      requires Calling(c)
      ensures Repr() && Ipc.Inv(view) && Ipc.Shape(view) && Ipc.Exclusive(view) && c in table.procs
      ensures RQ.SchedInv(sched.view) && RQ.CanDequeue(sched.view, c.id)
      ensures c.id in view.status && view.status[c.id] == Ipc.Ready && Ipc.Senders(c.id) in view.lists
      ensures c.id in view.regs && c.regs == view.regs[c.id]
      ensures c.id in view.interrupts && c.interrupts == view.interrupts[c.id]
      ensures sched.view.cur == c.id && sched.view.nxt == Nil && sched.view.ticks.Keys == view.status.Keys
      ensures Separate(view.lists) && Unlisted(view.lists, c.id)
      ensures forall o, i {:trigger view.lists[o][i]} ::
        o in view.lists && 0 <= i < |view.lists[o]| ==> view.lists[o][i] in view.status
    {
      hide Lists, Chain, QueueMemory.Holds, QueueMemory.Settled, Ipc.NoMissed, Ipc.Placed, Separate, Unlisted;
      Fields(c);
      ExclusiveSeparates(view);
      NotListed(view, c.id);
    }

    /** The outcome of a call has been put into effect on the ready queue. */
    ghost predicate Settled(s: RQ.Sched, o: Ipc.Outcome)
      reads sched
    {
      && RQ.SchedInv(s) && (forall i :: 0 <= i < |o.wake| ==> o.wake[i] in s.ticks)
      && (o.block ==> s.cur in s.ticks && s.nxt == Nil)
      && sched.view == KernelModel.Settle(s, o.wake, o.block)
    }

    lemma NothingToSettle(s: RQ.Sched, o: Ipc.Outcome)
      requires RQ.SchedInv(s) && o.wake == [] && !o.block && sched.view == s
      ensures Settled(s, o)
    {
    }

    lemma OneToWake(s: RQ.Sched, o: Ipc.Outcome, p: Proc)
      requires RQ.SchedInv(s) && o.wake == [p] && !o.block && p in s.ticks && sched.view == RQ.Enqueue(s, p)
      ensures Settled(s, o)
    {
      hide RQ.Enqueue;
      RQ.EnqueueKeeps(s, p);
      var r := RQ.Enqueue(s, p);
      assert o.wake[0] == p && o.wake[1..] == [];
      assert r.ticks.Keys == s.ticks.Keys by {
        EnqueueKeys(s, p);
      }
      assert KernelModel.EnqueueAll(r, o.wake[1..]) == r;
      assert KernelModel.EnqueueAll(s, o.wake) == r;
    }

    static lemma EnqueueKeys(s: RQ.Sched, p: Proc)
      requires RQ.SchedInv(s) && p in s.ticks
      ensures RQ.Enqueue(s, p).ticks.Keys == s.ticks.Keys
    {
    }

    lemma CallerBlocks(s: RQ.Sched, o: Ipc.Outcome)
      requires RQ.SchedInv(s) && o.wake == [] && o.block && RQ.CanDequeue(s, s.cur) && s.nxt == Nil
      requires sched.view == RQ.Dequeue(s, s.cur)
      ensures Settled(s, o)
    {
      hide RQ.SchedInv;
      assert KernelModel.EnqueueAll(s, o.wake) == s;
    }

    /** Copy between two processes' areas and report the byte count to both. */
    method ExchangeData(sender: Process, receiver: Process)
      requires Repr() && sender in table.procs && receiver in table.procs
      requires sender.id in view.regs && receiver.id in view.regs && |view.ram| == W
      modifies this`view, table`mails, table.procs`regs, ram
      ensures Repr() && view == Ipc.Exchange(old(view), sender.id, receiver.id)
    {
      hide Repr, Ram.Copy;
      Fields(sender);
      Fields(receiver);
      var ecx := sender.regs.ecx;
      if ecx > receiver.regs.ecx {
        ecx := receiver.regs.ecx;
      }
      var esi := Add(receiver.id.dsBase, receiver.regs.edx);
      var edi := Add(sender.id.dsBase, sender.regs.edx);
      SetEax(sender, ecx);
      SetEax(receiver, ecx);
      CopyMemory(esi, edi, ecx);
    }

    method CopyMemory(dst: Word, src: Word, n: Word)
      requires Repr()
      modifies this`view, ram
      ensures Repr() && |old(view).ram| == W && view == old(view).(ram := Ram.Copy(old(view).ram, dst, src, n))
    {
      hide Posted, Lists, Chain, Ram.Copy, RQ.SchedInv, QueueMemory.Holds, QueueMemory.Settled,
        Scheduler.Globals, ProcessTable.Valid, ProcessTable.Ref;
      Ram.CopyBytes(ram, dst, src, n);
      view := view.(ram := ram[..]);
      SameMail(old(view), view, table.mails, Links(waiters));
    }

    /** Send the running process's message to `r`, or wait until `r` receives. */
    method SyscallSend(c: Process, r: Process)
      requires Calling(c) && r in table.procs
      modifies this, table, table.procs, sched, ram
      ensures Repr() && Ipc.Shape(old(view)) && c.id in old(view).status && r.id in old(view).status
      ensures var o := Ipc.Send(old(view), c.id, r.id); view == o.ipc && Settled(old(sched.view), o)
    {
      hide Repr, Calling, Settled, Ipc.Exclusive, Ipc.NoMissed, Separate, Unlisted, Ipc.Exchange, Ipc.Append,
        RQ.SchedInv, RQ.CanDequeue, RQ.Enqueue, RQ.Dequeue;
      ghost var v, s := view, sched.view;
      CallingFacts(c);
      Fields(r);
      if c.id.dsLimit < Add(c.regs.edx, c.regs.ecx) {
        SetErr(c, Ipc.INVALIDBUFFER);
        NothingToSettle(s, Ipc.Send(v, c.id, r.id));
        return;
      }
      var receiving := ReceivingFrom(r, c);
      if receiving {
        ExchangeData(c, r);
        ExchangeKeepsStatus(v, c.id, r.id);
        UnsetStateFlag(r, RECEIVING);
        SetErr(c, Ipc.OK);
        SetErr(r, Ipc.OK);
        OneToWake(s, Ipc.Send(v, c.id, r.id), r.id);
        return;
      }
      AddToSendersList(c, r);
      CallerBlocks(s, Ipc.Send(v, c.id, r.id));
    }

    /** Send to whoever supplies the feature named in ebx; without a supplier wait for one, if the caller agreed to. */
    method SyscallSendByFeature(c: Process)
      requires Calling(c) && c.id in view.regs && Ipc.FeatureOk(view.regs[c.id].ebx)
      modifies this, table, table.procs, sched, ram
      ensures Repr() && Ipc.Shape(old(view)) && c.id in old(view).status && Ipc.FeatureOk(old(view).regs[c.id].ebx)
      ensures var o := Ipc.SendByFeature(old(view), c.id); view == o.ipc && Settled(old(sched.view), o)
    {
      hide Repr, Calling, Settled, Ipc.Exclusive, Ipc.NoMissed, Separate, Unlisted, RQ.SchedInv, RQ.CanDequeue,
        RQ.Enqueue, RQ.Dequeue, Ipc.SendToSlot;
      ghost var v, s := view, sched.view;
      CallingFacts(c);
      var feature := c.regs.ebx;
      var error := Features.CheckFeature(feature);
      if error != 0 {
        SetErr(c, Ipc.INVALIDFEATURE);
        NothingToSettle(s, Ipc.SendByFeature(v, c.id));
        return;
      }
      FeatureNotZero(feature);
      var slot := Features.FeatureIndex(feature);
      SendToSlot(c, slot);
    }

    method SendToSlot(c: Process, slot: nat)
      requires Calling(c) && slot < Ipc.FEATURE_SLOTS
      modifies this, table, table.procs, sched, ram
      ensures Repr() && Ipc.Shape(old(view)) && c.id in old(view).status
      ensures var o := Ipc.SendToSlot(old(view), c.id, slot); view == o.ipc && Settled(old(sched.view), o)
    {
      hide Repr, Calling, Settled, Ipc.Exclusive, Ipc.NoMissed, Separate, Unlisted, RQ.SchedInv, RQ.CanDequeue,
        RQ.Enqueue, RQ.Dequeue, Ipc.Send, Ipc.Append;
      ghost var v, s := view, sched.view;
      CallingFacts(c);
      Supplier(slot);
      var receiver := suppliers[slot];
      if receiver == c {
        SetErr(c, Ipc.CIRCULARSEND);
        NothingToSettle(s, Ipc.SendToSlot(v, c.id, slot));
        return;
      }
      if receiver != null {
        SameObject(receiver, c);
        NameReceiver(c, receiver);
        SyscallSend(c, receiver);
        return;
      }
      if c.regs.edi == Ipc.BLOCK {
        AddWaitingForFeature(c, slot);
        Dequeue(c);
        CallerBlocks(s, Ipc.SendToSlot(v, c.id, slot));
        return;
      }
      SetErr(c, Ipc.WOULDBLOCK);
      NothingToSettle(s, Ipc.SendToSlot(v, c.id, slot));
    }

    /** Store the supplier's handle in the caller's ebx. */
    method NameReceiver(c: Process, receiver: Process)
      requires Calling(c)
      modifies this`view, table`mails, c`regs
      ensures Calling(c) && c.id in old(view).regs
      ensures view == old(view).(regs := old(view).regs[c.id := old(view).regs[c.id].(ebx := receiver.id.addr)])
    {
      hide Repr, Ipc.Inv, Ipc.Exclusive, Ipc.NoMissed;
      ghost var v := view;
      CallingFacts(c);
      StoreRegs(c, c.regs.(ebx := receiver.id.addr));
      IpcInvariant.SameWaitingKeeps(v, view);
    }

    /** The registered supplier of a slot. */
    lemma Supplier(slot: nat)
      requires Repr() && Ipc.Shape(view) && slot < Ipc.FEATURE_SLOTS
      ensures slot < |suppliers| && slot < |waiters| && Ipc.Waiters(slot) in view.lists
      ensures view.suppliers[slot] == table.Ref(suppliers[slot])
      ensures suppliers[slot] == null <==> view.suppliers[slot] == Nil
      ensures suppliers[slot] != null ==>
        && suppliers[slot] in table.procs && view.suppliers[slot] == To(suppliers[slot].id)
        && suppliers[slot].id in view.status
    {
      hide Posted, Lists, Chain, Scheduler.Valid;
      assert Links(suppliers)[slot] == table.Ref(suppliers[slot]);
      assert Ipc.LinkIn(view.suppliers[slot], view.status.Keys);
      KeysAgree();
      if suppliers[slot] != null {
        Deref(suppliers[slot], view.suppliers[slot].p);
      }
    }

    lemma KeysAgree()
      requires Repr()
      ensures view.status.Keys == table.mails.Keys
    {
      hide Lists, Chain, Scheduler.Valid;
    }

    static lemma FeatureNotZero(f: Word)
      requires Features.IsFeature(f)
      ensures f > 0
    {
    }

    /** Collect latched interrupts, or take a waiting sender's message, or wait for one. */
    method SyscallReceive(c: Process)
      requires Calling(c)
      modifies this, table, table.procs, sched, ram
      ensures Repr() && Ipc.Inv(old(view)) && c.id in old(view).status
      ensures var o := Ipc.Receive(old(view), c.id); view == o.ipc && Settled(old(sched.view), o)
    {
      hide Repr, Calling, Settled, Ipc.Exclusive, Ipc.NoMissed, Separate, Unlisted, RQ.SchedInv, RQ.CanDequeue,
        RQ.Enqueue, RQ.Dequeue, Ipc.Exchange;
      ghost var v, s := view, sched.view;
      CallingFacts(c);
      var desired := c.regs.ebx;
      if c.id.dsLimit < Add(c.regs.edx, c.regs.ecx) {
        SetErr(c, Ipc.INVALIDBUFFER);
        NothingToSettle(s, Ipc.Receive(v, c.id));
        return;
      }
      if c.interrupts != 0 {
        SetErr(c, c.interrupts as int);
        StoreInterrupts(c, 0);
        SetEax(c, 0);
        assert view.regs == Ipc.Receive(v, c.id).ipc.regs;
        NothingToSettle(s, Ipc.Receive(v, c.id));
        return;
      }
      var sender := GetSender(desired, c);
      if sender != null {
        Rendezvous(c, sender);
        return;
      }
      NullIsNil();
      SetStateFlag(c, RECEIVING, desired, Ipc.Receiving(desired));
      CallerBlocks(s, Ipc.Receive(v, c.id));
    }

    lemma NullIsNil()
      ensures table.Ref(null) == Nil
    {
    }

    /** Take the message of a sender that waits. */
    method Rendezvous(c: Process, sender: Process)
      requires Calling(c) && c.id in view.regs && Ipc.Senders(c.id) in view.lists && c.id in view.interrupts
      requires Ipc.ValidArea(c.id, view.regs[c.id]) && view.interrupts[c.id] == 0
      requires Ipc.FindSender(view.lists[Ipc.Senders(c.id)], view.regs[c.id].ebx) == table.Ref(sender)
      modifies this, table, table.procs, sched, ram
      ensures Repr() && Ipc.Inv(old(view)) && c.id in old(view).status
      ensures var o := Ipc.Receive(old(view), c.id); view == o.ipc && Settled(old(sched.view), o)
    {
      hide Repr, Calling, Settled, Ipc.Exclusive, Ipc.NoMissed, Separate, Unlisted, RQ.SchedInv, RQ.CanDequeue,
        RQ.Enqueue, RQ.Dequeue, Ipc.Exchange, Ipc.FindSender;
      ghost var v, s, q := view, sched.view, view.lists[Ipc.Senders(c.id)];
      CallingFacts(c);
      SenderFound(c, sender);
      ExchangeData(sender, c);
      ExchangeKeepsStatus(v, sender.id, c.id);
      RemoveFromSendersList(sender, c);
      SetErr(sender, Ipc.OK);
      SetErr(c, Ipc.OK);
      OneToWake(s, Ipc.Receive(v, c.id), sender.id);
    }

    /** The process found is a queued process of the table. */
    lemma SenderFound(c: Process, sender: Process)
      requires Calling(c) && Ipc.Senders(c.id) in view.lists && c.id in view.regs
      requires Ipc.FindSender(view.lists[Ipc.Senders(c.id)], view.regs[c.id].ebx) == table.Ref(sender)
      ensures sender in table.procs && sender.id in view.lists[Ipc.Senders(c.id)]
      ensures table.Ref(sender) == To(sender.id)
      ensures sender.id in view.status && sender.id in view.regs && view.status[sender.id].Queued?
    {
      hide Posted, Lists, Chain, Scheduler.Valid, Ipc.NoMissed;
      var q := view.lists[Ipc.Senders(c.id)];
      var i := RQ.IndexOf(q, sender.id);
      assert view.lists[Ipc.Senders(c.id)][i] in view.status;
      assert Ipc.Placed(view, sender.id, Ipc.Senders(c.id));
      KeysAgree();
      Deref(sender, sender.id);
    }

    /** Register the caller for a free feature slot and take over those who wait for it. */
    method SyscallSetFeature(c: Process)
      requires Calling(c) && c.id in view.regs && Ipc.FeatureOk(view.regs[c.id].ebx)
      modifies this, table`mails, table.procs`firstSender, c`regs
      ensures Repr() && Ipc.Shape(old(view)) && c.id in old(view).status && Ipc.FeatureOk(old(view).regs[c.id].ebx)
      ensures view == Ipc.SetFeature(old(view), c.id).ipc
    {
      hide Repr, Calling, Ipc.Exclusive, Ipc.NoMissed, Ipc.HandOver;
      CallingFacts(c);
      var feature := c.regs.ebx;
      var error := Features.CheckFeature(feature);
      if error != 0 {
        SetErr(c, Ipc.INVALIDFEATURE);
        return;
      }
      FeatureNotZero(feature);
      var slot := Features.FeatureIndex(feature);
      Supplier(slot);
      if suppliers[slot] != null {
        SetErr(c, Ipc.FEATUREBUSY);
        return;
      }
      Register(c, slot);
      SetErr(c, Ipc.OK);
    }

    method Register(c: Process, slot: nat)
      requires Calling(c) && slot < Ipc.FEATURE_SLOTS
      modifies this`view, this`suppliers, this`waiters, table`mails, c`firstSender
      ensures Repr() && Ipc.Shape(old(view)) && c.id in old(view).status
      ensures view == Ipc.HandOver(old(view), c.id, slot)
    {
      hide Calling, Mailed, Posted, Lists, Chain, Ipc.Inv, Ipc.Exclusive, Ipc.HandOver, RQ.CanDequeue, RQ.SchedInv,
        QueueMemory.Holds, QueueMemory.Settled,
        Scheduler.Globals, ProcessTable.Valid, ProcessTable.Ref;
      CallingFacts(c);
      Supplier(slot);
      Fields(c);
      HandOverMailed(view, table.mails, Links(waiters), c.id, slot);
      HandOverTables(view, c.id, slot);
      ghost var v, w, u := view, waiters, suppliers;
      suppliers := suppliers[slot := c];
      LinksUpdate(u, slot, c);
      table.SetFirstSender(c, waiters[slot]);
      waiters := waiters[slot := null];
      LinksUpdate(w, slot, null);
      view := Ipc.HandOver(v, c.id, slot);
    }

    /** Give up the interrupt lines of a process. The loop stops before the last line. */
    method ReleaseIrqsTaken(process: Process)
      requires Repr() && process in table.procs && |view.irqs| == Ipc.MAX_IRQ + 1
      modifies this`view, this`irqs
      ensures Repr() && view == old(view).(irqs := Released(old(view).irqs, process.id, Ipc.MAX_IRQ))
    {
      hide Mailed, Posted, Lists, Chain, RQ.SchedInv, QueueMemory.Holds, QueueMemory.Settled,
        Scheduler.Globals, ProcessTable.Valid;
      ghost var before := view.irqs;
      var i := 0;
      while i < Ipc.MAX_IRQ
        invariant 0 <= i <= Ipc.MAX_IRQ && |irqs| == |before|
        invariant Links(irqs) == Released(before, process.id, i)
        invariant view == old(view) && table.Valid()
      {
        SameLink(irqs[i], process);
        assert Links(irqs)[i] == before[i];
        if irqs[i] == process {
          LinksUpdate(irqs, i, null);
          NullIsNil();
          irqs := irqs[i := null];
        }
        assert Links(irqs) == Released(before, process.id, i + 1);
        i := i + 1;
      }
      view := view.(irqs := Released(before, process.id, Ipc.MAX_IRQ));
      SameMail(old(view), view, table.mails, Links(waiters));
    }

    lemma SameLink(x: Process?, p: Process)
      requires table.Valid() && p in table.procs
      ensures table.Ref(x) == To(p.id) <==> x == p
    {
    }

    /** The first of the senders still waiting, as the record shows it. */
    lemma Waiting(process: Process, v: Ipc.Ipc, n: nat)
      requires Repr() && process in table.procs && Ipc.Inv(v) && process.id in v.status
      requires v.status[process.id] == Ipc.Ready && Ipc.Senders(process.id) in v.lists
      requires n <= |v.lists[Ipc.Senders(process.id)]| && view == Gone(v, process.id, n)
      ensures var q := v.lists[Ipc.Senders(process.id)];
        && (process.firstSender != null <==> n < |q|)
        && (n < |q| ==>
             process.firstSender != null && process.firstSender in table.procs && process.firstSender.id == q[n])
    {
      hide Repr, Gone, Ipc.Inv, Separate, Chain;
      var q := v.lists[Ipc.Senders(process.id)];
      GoneFacts(v, process.id, n);
      ListChain(Ipc.Senders(process.id));
      Fields(process);
      ChainStart(q[n..], table.mails, table.Ref(process.firstSender));
      if n < |q| {
        assert q[n..][0] == q[n];
        Deref(process.firstSender, q[n]);
      }
    }

    /** Wake everybody who waits to send to a process that leaves, with an error. */
    method UnblockWaitingSenders(process: Process, ghost v: Ipc.Ipc, ghost s: RQ.Sched)
      requires Repr() && process in table.procs && Ipc.Inv(v) && process.id in v.status && RQ.SchedInv(s)
      requires v.status[process.id] == Ipc.Ready && view == Gone(v, process.id, 0) && sched.view == s
      requires s.ticks.Keys == v.status.Keys && Ipc.Senders(process.id) in v.lists
      modifies this`view, table, table.procs, sched
      ensures Repr() && view == Gone(v, process.id, |v.lists[Ipc.Senders(process.id)]|)
      ensures Awaits(s, v.lists[Ipc.Senders(process.id)], sched.view)
    {
      hide Repr, Ipc.Inv, Gone, Awaits, RQ.SchedInv, RQ.Enqueue, Separate;
      ghost var o := Ipc.Senders(process.id);
      ghost var q := v.lists[o];
      ghost var n := 0;
      ghost var goal := AwaitsStart(v, process.id, s);
      assert q[0..] == q;
      Waiting(process, v, 0);
      while process.firstSender != null
        invariant Repr() && n <= |q| && view == Gone(v, process.id, n)
        invariant process.firstSender != null <==> n < |q|
        invariant n < |q| ==>
          process.firstSender != null && process.firstSender in table.procs && process.firstSender.id == q[n]
        invariant Awaits(sched.view, q[n..], goal)
        decreases |q| - n
      {
        var cur := process.firstSender;
        GoneFacts(v, process.id, n);
        GoneNext(v, process.id, n);
        AwaitsNext(sched.view, q[n..], goal);
        SetErr(cur, Ipc.PROCESSDIED);
        UnsetStateFlag(cur, SENDING);
        UnlinkSender(cur, process);
        assert q[n..][1..] == q[n + 1..] && q[n..][0] == q[n];
        n := n + 1;
        Waiting(process, v, n);
      }
      assert q[n..] == [];
      AwaitsEnd(sched.view, goal);
    }

    /** The running process leaves for good. What happens to its segments is not part of this model. */
    method SyscallExit(c: Process)
      requires Calling(c)
      modifies this, table, table.procs, sched
      ensures Repr() && Ipc.Shape(old(view)) && c.id in old(view).status
      ensures var o := Ipc.Exit(old(view), c.id); view == o.ipc && Settled(old(sched.view), o)
    {
      hide Repr, Calling, Settled, Ipc.Inv, Ipc.Exclusive, Ipc.Exit, Separate, Unlisted, Gone, Released, Awaits,
        RQ.SchedInv, RQ.CanDequeue, RQ.Dequeue;
      ghost var v, s := view, sched.view;
      CallingFacts(c);
      StoreStatus(c, 0, EMPTY, Ipc.Empty);
      ReleaseIrqsTaken(c);
      GoneStart(v, c.id);
      UnblockWaitingSenders(c, v, s);
      GoneIsExit(v, c.id);
      AllAwake(s, v.lists[Ipc.Senders(c.id)], sched.view);
      Dequeue(c);
      LeaverBlocks(s, Ipc.Exit(v, c.id), v, c.id);
    }

    /** The woken senders are enqueued, then the leaving process is dequeued. */
    lemma LeaverBlocks(s: RQ.Sched, o: Ipc.Outcome, v: Ipc.Ipc, c: Proc)
      requires RQ.SchedInv(s) && Ipc.Shape(v) && c in v.status && o == Ipc.Exit(v, c)
      requires s.cur == c && c in s.ticks && s.nxt == Nil
      requires forall i :: 0 <= i < |v.lists[Ipc.Senders(c)]| ==> v.lists[Ipc.Senders(c)][i] in s.ticks
      requires sched.view == RQ.Dequeue(KernelModel.EnqueueAll(s, v.lists[Ipc.Senders(c)]), c)
      ensures Settled(s, o)
    {
      hide RQ.SchedInv, RQ.Dequeue;
    }

    /** Claim an interrupt line. */
    method SyscallRequestIrq(c: Process)
      requires Calling(c)
      modifies this`view, this`irqs, table`mails, c`regs
      ensures Repr() && Ipc.Shape(old(view)) && c.id in old(view).status
      ensures view == Ipc.RequestIrq(old(view), c.id).ipc
    {
      hide Repr, Calling, Ipc.Exclusive, Ipc.NoMissed, Separate, Unlisted, RQ.SchedInv, RQ.CanDequeue;
      CallingFacts(c);
      var irq := c.regs.ebx;
      if irq == 0 || irq == 2 || irq > Ipc.MAX_IRQ {
        SetErr(c, Ipc.INVALIDIRQ);
        return;
      }
      LineOwner(irq);
      if irqs[irq] != null && irqs[irq] != c {
        SameObject(irqs[irq], c);
        SetErr(c, Ipc.IRQINUSE);
        return;
      }
      Claim(c, irq);
      SetErr(c, Ipc.OK);
    }

    method Claim(c: Process, irq: nat)
      requires Calling(c) && irq <= Ipc.MAX_IRQ
      modifies this`view, this`irqs
      ensures Repr() && irq < |old(view).irqs| && view == old(view).(irqs := old(view).irqs[irq := To(c.id)])
    {
      hide Mailed, Posted, Lists, Chain, Ipc.Exclusive, Ipc.NoMissed, RQ.SchedInv, QueueMemory.Holds,
        QueueMemory.Settled,
        Scheduler.Globals, ProcessTable.Valid, ProcessTable.Ref;
      Fields(c);
      LinksUpdate(irqs, irq, c);
      irqs := irqs[irq := c];
      view := view.(irqs := view.irqs[irq := To(c.id)]);
      SameMail(old(view), view, table.mails, Links(waiters));
    }

    /** The owner of an interrupt line. */
    lemma LineOwner(n: nat)
      requires Repr() && Ipc.Shape(view) && n <= Ipc.MAX_IRQ
      ensures n < |irqs| && n < |view.irqs|
      ensures irqs[n] == null <==> view.irqs[n] == Nil
      ensures irqs[n] != null ==>
        irqs[n] in table.procs && view.irqs[n] == To(irqs[n].id) && irqs[n].id in view.status
    {
      hide Posted, Lists, Chain, Scheduler.Valid;
      assert Links(irqs)[n] == table.Ref(irqs[n]);
      assert Ipc.LinkIn(view.irqs[n], view.status.Keys);
      KeysAgree();
      if irqs[n] != null {
        Deref(irqs[n], view.irqs[n].p);
      }
    }

    /** Dispatch on the call number. Device calls only report `dev`. */
    method SyscallIsr(c: Process, dev: Ipc.Device)
      requires Calling(c) && c.id in view.regs && Ipc.CallOk(view.regs[c.id])
      modifies this, table, table.procs, sched, ram
      ensures Repr() && Ipc.Inv(old(view)) && c.id in old(view).status && Ipc.CallOk(old(view).regs[c.id])
      ensures var o := Ipc.Syscall(old(view), c.id, dev); view == o.ipc && Settled(old(sched.view), o)
    {
      hide Repr, Calling, Settled, Ipc.Exclusive, Ipc.NoMissed, Separate, Unlisted, RQ.SchedInv, RQ.CanDequeue,
        RQ.Enqueue, RQ.Dequeue,
        Ipc.Exit, Ipc.SetFeature, Ipc.Receive, Ipc.SendByFeature, Ipc.RequestIrq;
      ghost var v, s := view, sched.view;
      CallingFacts(c);
      var n := c.regs.eax;
      if n >= Ipc.NO_SYSCALLS {
        SetErr(c, Ipc.UNKNOWNSYSCALL);
        NothingToSettle(s, Ipc.Syscall(v, c.id, dev));
      } else if n == Ipc.SYS_EXIT {
        SyscallExit(c);
      } else if n == Ipc.SYS_SETFEATURE {
        SyscallSetFeature(c);
        QuietCalls(v, c.id);
        NothingToSettle(s, Ipc.Syscall(v, c.id, dev));
      } else if n == Ipc.SYS_RECEIVE {
        SyscallReceive(c);
      } else if n == Ipc.SYS_SEND_BY_FEATURE {
        SyscallSendByFeature(c);
      } else if n == Ipc.SYS_REQUEST_IRQ {
        SyscallRequestIrq(c);
        QuietCalls(v, c.id);
        NothingToSettle(s, Ipc.Syscall(v, c.id, dev));
      } else {
        SetEax(c, dev.eax);
        SetErr(c, dev.esi);
        NothingToSettle(s, Ipc.Syscall(v, c.id, dev));
      }
    }

    // ---------- interrupts ----------

    /** Deliver an interrupt to its owner if that is receiving, else latch it. */
    method NotifyIrq(number: nat)
      requires Repr() && Ipc.Inv(view) && RQ.SchedInv(sched.view) && sched.view.ticks.Keys == view.status.Keys
      requires number <= Ipc.MAX_IRQ && number < |view.irqs| && view.irqs[number].To?
      modifies this, table, table.procs, sched
      ensures Repr() && Ipc.Shape(old(view)) && old(view).irqs[number].p in old(view).status
      ensures var o := Ipc.Notify(old(view), old(view).irqs[number].p, number);
        view == o.ipc && Settled(old(sched.view), o)
    {
      hide Repr, Settled, Ipc.Exclusive, Ipc.NoMissed, Ipc.Mask, Ipc.Latch, Flagged, RQ.SchedInv, RQ.Enqueue;
      ghost var v, s := view, sched.view;
      LineOwner(number);
      var owner := irqs[number];
      Fields(owner);
      var mask := Ipc.Mask(number);
      Receives(v, owner.id);
      if Flagged(owner.state, RECEIVING) {
        SetErr(owner, mask as int);
        UnsetStateFlag(owner, RECEIVING);
        SetEax(owner, 0);
        OneToWake(s, Ipc.Notify(v, owner.id, number), owner.id);
      } else {
        StoreInterrupts(owner, Ipc.Latch(owner.interrupts, number));
        NothingToSettle(s, Ipc.Notify(v, owner.id, number));
      }
    }

    static predicate Flagged(state: bv8, f: bv8) {
      state & f != 0
    }

    static lemma Receives(v: Ipc.Ipc, p: Proc)
      requires p in v.status
      ensures Flagged(StateOf(v.status[p]), RECEIVING) <==> v.status[p].Receiving?
      ensures v.status[p].Receiving? ==> StateOf(v.status[p]) == RECEIVING
    {
    }

    /** The interrupted state `k` with the interrupted process's registers saved. */
    ghost predicate Serving(k: KernelModel.State, e: KernelModel.Event)
      reads this, table, table.procs, sched, ram
    {
      && KernelModel.Inv(k) && KernelModel.Possible(k, e)
      && Repr() && sched.view == k.sched && view == KernelModel.Save(k, e)
    }

    lemma ServingFacts(k: KernelModel.State, e: KernelModel.Event)
      requires Serving(k, e)
      ensures Repr() && Ipc.Inv(view) && Ipc.Shape(view) && RQ.SchedInv(sched.view)
      ensures sched.view.ticks.Keys == view.status.Keys && sched.view.nxt == Nil
      ensures sched.view.cur != sched.view.idle ==>
        && sched.view.cur in view.status && view.status[sched.view.cur] == Ipc.Ready
        && sched.view.cur in view.regs && view.regs[sched.view.cur] == e.regs
      ensures KernelModel.Outcome(k, e) == Ipc.Interrupt(view, sched.view.cur, e.number, e.device)
    {
      hide Repr, RQ.SchedInv, Ipc.Exclusive, Ipc.NoMissed, Ipc.Interrupt;
      KernelModel.SaveKeeps(k, e);
    }

    /** The running process, which is no longer the idle task. */
    method Current(ghost k: KernelModel.State, ghost e: KernelModel.Event) returns (c: Process)
      requires Serving(k, e) && sched.view.cur != sched.view.idle
      ensures Calling(c) && c.id == sched.view.cur
    {
      hide Repr, RQ.SchedInv, Ipc.Inv, Ipc.Shape, KernelModel.Inv, KernelModel.Possible, KernelModel.Save;
      ServingFacts(k, e);
      KeysAgree();
      CurrentLink();
      Deref(sched.curptr, sched.view.cur);
      c := sched.curptr;
    }

    lemma CurrentLink()
      requires Repr()
      ensures table.Ref(sched.curptr) == To(sched.view.cur) && sched.view.idle == table.idle.id
      ensures table.Ref(sched.nextptr) == sched.view.nxt
      ensures sched.curptr == table.idle <==> sched.view.cur == sched.view.idle
    {
      hide Mailed, RQ.SchedInv, QueueMemory.Holds, QueueMemory.Settled;
    }

    /** Serve an interrupt, then pick the next process unless a blocking caller has already yielded. */
    method DoHardInt(number: nat, dev: Ipc.Device, ghost k: KernelModel.State, ghost e: KernelModel.Event)
      requires Serving(k, e) && number == e.number && dev == e.device
      modifies this, table, table.procs, sched, ram
      ensures Repr() && KernelModel.Inv(k) && KernelModel.Possible(k, e)
      ensures view == KernelModel.Outcome(k, e).ipc && sched.view == KernelModel.Dispatched(k, e)
    {
      hide Repr, Settled, Ipc.Inv, Ipc.Shape, RQ.SchedInv, Ipc.Syscall, Ipc.Notify, KernelModel.Inv, KernelModel.Save,
        KernelModel.Outcome, KernelModel.Dispatched;
      ghost var v, s, o := view, sched.view, KernelModel.Outcome(k, e);
      ServingFacts(k, e);
      if number == 2 {
        var c := Current(k, e);
        SyscallIsr(c, dev);
      } else if number == 0 {
        NothingToSettle(s, o);
      } else {
        LineOwner(number);
        LinkShape(v, number);
        if irqs[number] == null {
          NothingToSettle(s, o);
        } else {
          NotifyIrq(number);
        }
      }
      PickNext(k, e);
    }

    static lemma LinkShape(v: Ipc.Ipc, n: nat)
      requires Ipc.Shape(v) && n <= Ipc.MAX_IRQ
      ensures n < |v.irqs| && !v.irqs[n].Wild?
    {
      assert Ipc.LinkIn(v.irqs[n], v.status.Keys);
    }

    /** After the call has been put into effect: pick, unless that has happened on the way. */
    method PickNext(ghost k: KernelModel.State, ghost e: KernelModel.Event)
      requires Repr() && KernelModel.Inv(k) && KernelModel.Possible(k, e)
      requires Settled(k.sched, KernelModel.Outcome(k, e))
      modifies table`mem, table.procs, sched
      ensures Repr() && sched.view == KernelModel.Dispatched(k, e)
    {
      hide Repr, RQ.SchedInv, KernelModel.Inv, KernelModel.Possible, KernelModel.Outcome, KernelModel.Settle, RQ.Pick,
        RQ.Charge;
      PickPossible(k, e);
      Dispatch();
    }

    lemma PickPossible(k: KernelModel.State, e: KernelModel.Event)
      requires KernelModel.Inv(k) && KernelModel.Possible(k, e) && Settled(k.sched, KernelModel.Outcome(k, e))
      ensures sched.view == KernelModel.Settled(k, e)
      ensures RQ.SchedInv(sched.view) && (sched.view.nxt == Nil ==> RQ.CanPick(sched.view))
      ensures KernelModel.Dispatched(k, e) == KernelModel.Dispatch(sched.view)
    {
      hide KernelModel.Inv, KernelModel.Possible, KernelModel.Outcome, RQ.SchedInv;
      KernelModel.StepFacts(k, e);
      OutcomeFits(k, e);
      KernelModel.SettleKeeps(k.sched, KernelModel.Outcome(k, e).wake, KernelModel.Outcome(k, e).block);
    }

    static lemma OutcomeFits(k: KernelModel.State, e: KernelModel.Event)
      requires KernelModel.Inv(k) && KernelModel.Possible(k, e)
      ensures RQ.SchedInv(k.sched) && KernelModel.Resting(k.sched)
    {
    }

    method Dispatch()
      requires Repr() && RQ.SchedInv(sched.view) && (sched.view.nxt == Nil ==> RQ.CanPick(sched.view))
      modifies table`mem, table.procs, sched
      ensures Repr() && RQ.SchedInv(old(sched.view)) && sched.view == KernelModel.Dispatch(old(sched.view))
    {
      hide Mailed, RQ.Pick, RQ.Charge, RQ.SchedInv, RQ.CanPick, QueueMemory.Holds, QueueMemory.Settled;
      sched.Dispatch();
    }

    /** The switch to the process picked. */
    method Schedule()
      requires Repr() && sched.view.nxt.To?
      modifies sched`curptr, sched`nextptr, sched`view
      ensures Repr() && old(sched.view).nxt.To? && sched.view == KernelModel.Schedule(old(sched.view))
    {
      hide Mailed, RQ.SchedInv, QueueMemory.Holds, QueueMemory.Settled;
      CurrentLink();
      sched.Schedule();
    }

    // ---------- booting ----------

    /** With no record in use and nothing enqueued the kernel is about to boot. */
    lemma Boots()
      requires Repr() && view == Initial(table.mails, ram[..]) && Ipc.Inv(view) && Ipc.Complete(view)
      requires forall p {:trigger table.mails[p]} :: p in table.mails ==> table.mails[p].state == EMPTY
      requires sched.view.ready == [] && sched.view.cur == table.idle.id && sched.view.nxt == Nil
      ensures KernelRuns.Booting(State())
    {
      hide Mailed, Ipc.Inv, Ipc.Complete, RQ.SchedInv, QueueMemory.Holds, QueueMemory.Settled;
      CurrentLink();
      QueueKnown();
    }

    lemma QueueKnown()
      requires Repr()
      ensures RQ.SchedInv(sched.view) && sched.view.ticks.Keys == view.status.Keys
    {
      KeysAgree();
    }

    /** A record that is not in use becomes a ready process in the queue. */
    method StartProcess(p: Process)
      requires Repr() && KernelRuns.Booting(State()) && p in table.procs
      requires p.id in view.status && view.status[p.id] == Ipc.Empty
      modifies this`view, table`mails, table`mem, table.procs, sched
      ensures Repr() && KernelRuns.Booting(old(State())) && p.id in old(view).status && p.id in old(sched.view).ticks
      ensures State() == KernelRuns.Start(old(State()), p.id) && KernelRuns.Booting(State())
    {
      hide Repr, KernelRuns.Booting, RQ.Enqueue;
      KernelRuns.StartKeeps(State(), p.id);
      StoreStatus(p, 0, 0, Ipc.Ready);
      Enqueue(p);
    }

    /** The first pick and switch: from here on interrupts can be served. */
    method FirstSwitch()
      requires Repr() && KernelRuns.Booting(State())
      modifies table`mem, table.procs, sched
      ensures Repr() && KernelRuns.Booting(old(State()))
      ensures State() == KernelRuns.Begun(old(State()))
      ensures KernelModel.Inv(State()) && Ipc.Complete(State().ipc)
    {
      hide Repr, KernelRuns.Booting, KernelModel.Inv, KernelModel.Dispatch, Ipc.Complete;
      KernelRuns.FirstPick(State());
      BootingQueue();
      Dispatch();
      Schedule();
    }

    lemma BootingQueue()
      requires KernelRuns.Booting(State())
      ensures RQ.SchedInv(sched.view)
    {
    }

    /**
     * One whole interrupt: the interrupted process's registers are saved, the interrupt is served, and the process
     * picked runs. Records and tables follow the kernel's model step by step, in every state that satisfies its
     * invariant.
     */
    method Serve(e: KernelModel.Event)
      requires Repr() && KernelModel.Inv(State()) && KernelModel.Possible(State(), e)
      modifies this, table, table.procs, sched, ram
      ensures Repr() && KernelModel.Inv(old(State())) && KernelModel.Possible(old(State()), e)
      ensures State() == KernelModel.Step(old(State()), e)
      ensures KernelModel.Inv(State())
      ensures Ipc.Complete(State().ipc) <==> old(Ipc.Complete(State().ipc)) && !KernelModel.Overwrites(old(State()), e)
    {
      hide Repr, KernelModel.Inv, KernelModel.Possible, KernelModel.Overwrites, KernelModel.Outcome,
        KernelModel.Dispatched, Ipc.Complete;
      ghost var k := State();
      KernelModel.StepKeeps(k, e);
      KernelModel.StepCompleteIff(k, e);
      SaveRegs(e, k);
      DoHardInt(e.number, e.device, k, e);
      Schedule();
    }

    /** A run of interrupts: the kernel is in the state its model reaches. */
    method ServeAll(es: seq<KernelModel.Event>)
      requires Repr() && KernelModel.Inv(State()) && KernelRuns.Feasible(State(), es)
      modifies this, table, table.procs, sched, ram
      ensures Repr() && KernelModel.Inv(old(State())) && KernelRuns.Feasible(old(State()), es)
      ensures State() == KernelRuns.Run(old(State()), es)
      decreases |es|
    {
      hide Repr, KernelModel.Inv, KernelModel.Possible, KernelModel.Overwrites, KernelModel.Step;
      if es != [] {
        Serve(es[0]);
        ServeAll(es[1..]);
      }
    }

    method SaveRegs(e: KernelModel.Event, ghost k: KernelModel.State)
      requires Repr() && k == State() && KernelModel.Inv(k) && KernelModel.Possible(k, e)
      modifies this`view, table`mails, table.procs`regs
      ensures Serving(k, e)
    {
      hide Repr, RQ.SchedInv, Ipc.Inv;
      CurrentLink();
      if sched.curptr != table.idle {
        RunningKnown(k);
        KeysAgree();
        Deref(sched.curptr, sched.view.cur);
        StoreRegs(sched.curptr, e.regs);
      }
    }

    static lemma RunningKnown(k: KernelModel.State)
      requires KernelModel.Inv(k) && k.sched.cur != k.sched.idle
      ensures k.sched.cur in k.ipc.status.Keys
    {
    }

    static lemma OrZero(f: bv8)
      ensures 0 | f == f
    {
    }

    static lemma AndNot(x: bv8, f: bv8)
      requires x == f || x == 0
      ensures x & !f == 0
    {
    }
  }

  /** A process behind the others of a list. */
  ghost function Lined(v: Ipc.Ipc, o: Ipc.Owner, c: Proc): Ipc.Ipc
    requires o in v.lists
  {
    v.(lists := v.lists[o := v.lists[o] + [c]])
  }

  lemma LinedMailed(v: Ipc.Ipc, m: Mails, waiters: seq<Link>, c: Proc, o: Ipc.Owner)
    requires Mailed(v, m, waiters) && Separate(v.lists) && Unlisted(v.lists, c) && o in v.lists && c in v.status
    requires o.Senders? ==> o.p in m
    requires o.Waiters? ==> o.slot < |waiters|
    ensures var q := v.lists[o];
      && c in m && (q != [] ==> q[|q| - 1] in m)
      && Mailed(Lined(v, o, c), AppendMails(m, o, q, c), AppendWaiters(waiters, o, q, c))
  {
    hide Lists, Separate, Unlisted;
    AppendLists(v.lists, m, waiters, c, o);
    AppendLinksOnly(m, o, v.lists[o], c);
    Relinked(v, m, v.lists[o := v.lists[o] + [c]], AppendMails(m, o, v.lists[o], c),
             AppendWaiters(waiters, o, v.lists[o], c));
  }

  /** One of the senders of `c` gone from the list. */
  ghost function Unlined(v: Ipc.Ipc, c: Proc, p: Proc): Ipc.Ipc
    requires Ipc.Senders(c) in v.lists
  {
    v.(lists := v.lists[Ipc.Senders(c) := RQ.Remove(v.lists[Ipc.Senders(c)], p)])
  }

  lemma UnlinedMailed(v: Ipc.Ipc, m: Mails, waiters: seq<Link>, c: Proc, k: nat)
    requires Mailed(v, m, waiters) && Separate(v.lists) && c in v.status && Ipc.Senders(c) in v.lists
    requires k < |v.lists[Ipc.Senders(c)]| && k == RQ.IndexOf(v.lists[Ipc.Senders(c)], v.lists[Ipc.Senders(c)][k])
    ensures var q := v.lists[Ipc.Senders(c)];
      && c in m && q[k] in m && (k > 0 ==> q[k - 1] in m)
      && Mailed(Unlined(v, c, q[k]), RemoveMails(m, c, q, k), waiters)
  {
    hide Lists, Separate;
    var q := v.lists[Ipc.Senders(c)];
    RemoveLists(v.lists, m, waiters, c, k);
    RemoveLinksOnly(m, c, q, k);
    Relinked(v, m, v.lists[Ipc.Senders(c) := RQ.RemoveAt(q, k)], RemoveMails(m, c, q, k), waiters);
  }

  /** A waiter for a supplier keeps its state bits clear. */
  lemma StillUnflagged(v: Ipc.Ipc, m: Mails, waiters: seq<Link>, p: Proc, o: Ipc.Owner)
    requires Mailed(v, m, waiters) && p in v.status && v.status[p] == Ipc.Ready
    ensures Mailed(v.(status := v.status[p := Ipc.Queued(o, false)]), m, waiters)
  {
    hide Lists;
    var r := v.(status := v.status[p := Ipc.Queued(o, false)]);
    forall x {:trigger m[x]} | x in m
      ensures Post(r, x, m[x])
    {
      assert Post(v, x, m[x]);
    }
  }

  lemma {:induction false} FirstIndex(q: seq<Proc>, p: Proc, k: nat)
    requires p in q && k <= RQ.IndexOf(q, p) && k < |q| && q[k] == p
    ensures k == RQ.IndexOf(q, p)
  {
    if k > 0 && q[0] != p {
      FirstIndex(q[1..], p, k - 1);
    }
  }

  /** Memory contents and interrupt owners do not matter to the records. */
  lemma SameMail(v: Ipc.Ipc, v': Ipc.Ipc, m: Mails, waiters: seq<Link>)
    requires Mailed(v, m, waiters) && v' == v.(ram := v'.ram, irqs := v'.irqs)
    ensures Mailed(v', m, waiters)
  {
    hide Lists;
    forall x {:trigger m[x]} | x in m
      ensures Post(v', x, m[x])
    {
      assert Post(v, x, m[x]);
    }
  }

  lemma ExchangeKeepsStatus(v: Ipc.Ipc, s: Proc, r: Proc)
    requires s in v.regs && r in v.regs && |v.ram| == W
    ensures var x := Ipc.Exchange(v, s, r);
      && x.status == v.status && x.lists == v.lists && x.interrupts == v.interrupts && x.regs.Keys == v.regs.Keys
  {
  }

  lemma HandOverTables(v: Ipc.Ipc, c: Proc, slot: nat)
    requires Ipc.Shape(v) && c in v.status && slot < Ipc.FEATURE_SLOTS
    ensures var r := Ipc.HandOver(v, c, slot);
      r.suppliers == v.suppliers[slot := To(c)] && r.irqs == v.irqs && r.ram == v.ram
  {
  }

  lemma HandOverMailed(v: Ipc.Ipc, m: Mails, waiters: seq<Link>, c: Proc, slot: nat)
    requires Mailed(v, m, waiters) && Ipc.Shape(v) && c in v.status && slot < Ipc.FEATURE_SLOTS == |waiters|
    ensures c in m && Mailed(Ipc.HandOver(v, c, slot), SetFirst(m, c, waiters[slot]), waiters[slot := Nil])
  {
    hide Lists;
    HandOverLists(v, m, waiters, c, slot);
    var r, m2 := Ipc.HandOver(v, c, slot), SetFirst(m, c, waiters[slot]);
    forall x {:trigger m2[x]} | x in m2
      ensures Post(r, x, m2[x])
    {
      assert Post(v, x, m[x]);
    }
    assert r.status.Keys == v.status.Keys;
  }

  /** The lines of `c` below `n` given up. */
  ghost function Released(irqs: seq<Link>, c: Proc, n: nat): (r: seq<Link>)
    ensures |r| == |irqs|
  {
    seq(|irqs|, i requires 0 <= i < |irqs| => if i < n && irqs[i] == To(c) then Nil else irqs[i])
  }

  /** Process `c` gone, its lines released and the first `n` of its senders woken. */
  ghost function Gone(v: Ipc.Ipc, c: Proc, n: nat): Ipc.Ipc {
    var q := if Ipc.Senders(c) in v.lists then v.lists[Ipc.Senders(c)] else [];
    var w, rest := if n <= |q| then q[..n] else q, if n <= |q| then q[n..] else [];
    v.(status := map p | p in v.status :: if p == c then Ipc.Empty else if p in w then Ipc.Ready else v.status[p],
       lists := v.lists[Ipc.Senders(c) := rest],
       irqs := Released(v.irqs, c, Ipc.MAX_IRQ),
       regs := map p | p in v.regs :: if p in w then v.regs[p].(esi := Ipc.PROCESSDIED) else v.regs[p])
  }

  /** When all are woken that is what leaving does. */
  lemma GoneIsExit(v: Ipc.Ipc, c: Proc)
    requires Ipc.Shape(v) && c in v.status && Ipc.Senders(c) in v.lists
    ensures Gone(v, c, |v.lists[Ipc.Senders(c)]|) == Ipc.Exit(v, c).ipc
  {
    var q := v.lists[Ipc.Senders(c)];
    assert q[..|q|] == q && q[|q|..] == [];
    assert Released(v.irqs, c, Ipc.MAX_IRQ) == Ipc.Exit(v, c).ipc.irqs;
    assert Gone(v, c, |q|).status == Ipc.Exit(v, c).ipc.status;
    assert Gone(v, c, |q|).regs == Ipc.Exit(v, c).ipc.regs;
  }

  /** A woken sender's step. */
  lemma GoneNext(v: Ipc.Ipc, c: Proc, n: nat)
    requires Ipc.Inv(v) && c in v.status && v.status[c] == Ipc.Ready && Ipc.Senders(c) in v.lists
    requires n < |v.lists[Ipc.Senders(c)]|
    ensures var p, x := v.lists[Ipc.Senders(c)][n], Gone(v, c, n);
      && p in x.regs && p in x.status && Ipc.Senders(c) in x.lists
      && Unlined(Ipc.Wake(Ipc.SetErr(x, p, Ipc.PROCESSDIED), p), c, p) == Gone(v, c, n + 1)
  {
    hide Ipc.Inv, Gone;
    SenderQueued(v, c, n);
    GoneKeys(v, c, n);
    GoneStatus(v, c, n);
    GoneRegs(v, c, n);
    GoneLists(v, c, n);
  }

  lemma GoneKeys(v: Ipc.Ipc, c: Proc, n: nat)
    requires Ipc.Senders(c) in v.lists && n < |v.lists[Ipc.Senders(c)]|
    ensures var x, y := Gone(v, c, n), Gone(v, c, n + 1);
      && x.status.Keys == v.status.Keys && x.regs.Keys == v.regs.Keys && Ipc.Senders(c) in x.lists
      && x.suppliers == y.suppliers && x.irqs == y.irqs && x.interrupts == y.interrupts && x.ram == y.ram
  {
  }

  lemma GoneStatus(v: Ipc.Ipc, c: Proc, n: nat)
    requires Ipc.Senders(c) in v.lists && n < |v.lists[Ipc.Senders(c)]|
    requires v.lists[Ipc.Senders(c)][n] in v.status && v.lists[Ipc.Senders(c)][n] != c
    ensures Gone(v, c, n).status[v.lists[Ipc.Senders(c)][n] := Ipc.Ready] == Gone(v, c, n + 1).status
  {
    var q := v.lists[Ipc.Senders(c)];
    assert q[..n + 1] == q[..n] + [q[n]];
  }

  lemma GoneRegs(v: Ipc.Ipc, c: Proc, n: nat)
    requires Ipc.Senders(c) in v.lists && n < |v.lists[Ipc.Senders(c)]|
    requires v.lists[Ipc.Senders(c)][n] in v.regs
    requires forall i :: 0 <= i < n ==> v.lists[Ipc.Senders(c)][i] != v.lists[Ipc.Senders(c)][n]
    ensures var p, r := v.lists[Ipc.Senders(c)][n], Gone(v, c, n).regs;
      p in r && r[p := r[p].(esi := Ipc.PROCESSDIED)] == Gone(v, c, n + 1).regs
  {
    var q := v.lists[Ipc.Senders(c)];
    assert q[..n + 1] == q[..n] + [q[n]];
  }

  lemma GoneLists(v: Ipc.Ipc, c: Proc, n: nat)
    requires Ipc.Senders(c) in v.lists && n < |v.lists[Ipc.Senders(c)]|
    ensures var p, l := v.lists[Ipc.Senders(c)][n], Gone(v, c, n).lists;
      && Ipc.Senders(c) in l
      && l[Ipc.Senders(c) := RQ.Remove(l[Ipc.Senders(c)], p)] == Gone(v, c, n + 1).lists
  {
    var q := v.lists[Ipc.Senders(c)];
    assert q[n..][0] == q[n];
    assert RQ.Remove(q[n..], q[n]) == q[n + 1..];
  }

  lemma SenderQueued(v: Ipc.Ipc, c: Proc, n: nat)
    requires Ipc.Inv(v) && c in v.status && v.status[c] == Ipc.Ready && Ipc.Senders(c) in v.lists
    requires n < |v.lists[Ipc.Senders(c)]|
    ensures var p := v.lists[Ipc.Senders(c)][n];
      && p in v.status && p in v.regs && v.status[p].Queued? && p != c
      && forall i :: 0 <= i < n ==> v.lists[Ipc.Senders(c)][i] != p
  {
    hide Ipc.NoMissed;
    var q := v.lists[Ipc.Senders(c)];
    assert v.lists[Ipc.Senders(c)][n] in v.status;
    assert Ipc.Placed(v, q[n], Ipc.Senders(c));
    RQ.Distinct(q);
  }

  /** What is known of the state while senders are being woken. */
  lemma GoneFacts(v: Ipc.Ipc, c: Proc, n: nat)
    requires Ipc.Inv(v) && c in v.status && v.status[c] == Ipc.Ready && Ipc.Senders(c) in v.lists
    requires n <= |v.lists[Ipc.Senders(c)]|
    ensures var x := Gone(v, c, n);
      && Separate(x.lists) && Ipc.Senders(c) in x.lists && x.lists[Ipc.Senders(c)] == v.lists[Ipc.Senders(c)][n..]
      && (n < |v.lists[Ipc.Senders(c)]| ==>
           var p := v.lists[Ipc.Senders(c)][n];
           p in x.status && p in x.regs && x.status[p].Queued? && p in x.lists[Ipc.Senders(c)] && p != c)
  {
    hide Ipc.Inv, Gone, Separate, Ipc.Exclusive;
    var q := v.lists[Ipc.Senders(c)];
    GoneExclusive(v);
    ExclusiveSeparates(v);
    SuffixSeparates(v.lists, Ipc.Senders(c), n);
    GoneState(v, c, n);
    if n < |q| {
      SenderQueued(v, c, n);
      assert q[n..][0] == q[n];
    }
  }

  lemma GoneExclusive(v: Ipc.Ipc)
    requires Ipc.Inv(v)
    ensures Ipc.Exclusive(v)
  {
  }

  lemma GoneState(v: Ipc.Ipc, c: Proc, n: nat)
    requires Ipc.Senders(c) in v.lists && n <= |v.lists[Ipc.Senders(c)]|
    ensures var q, x := v.lists[Ipc.Senders(c)], Gone(v, c, n);
      && x.lists == v.lists[Ipc.Senders(c) := q[n..]] && x.status.Keys == v.status.Keys && x.regs.Keys == v.regs.Keys
      && (forall p :: p in v.status && p !in q[..n] && p != c ==> x.status[p] == v.status[p])
  {
  }

  lemma SuffixSeparates(lists: map<Ipc.Owner, seq<Proc>>, o: Ipc.Owner, n: nat)
    requires Separate(lists) && o in lists && n <= |lists[o]|
    ensures Separate(lists[o := lists[o][n..]])
  {
    var q, l := lists[o], lists[o := lists[o][n..]];
    RQ.Distinct(q);
    RQ.Distinct(q[n..]);
    forall u, w, x {:trigger x in l[u], x in l[w]} | u in l && w in l && u != w && x in l[u]
      ensures x !in l[w]
    {
      assert x in lists[u];
      assert x !in lists[w];
    }
  }

  /** Enqueueing `q` one after the other leads to `goal`. */
  ghost predicate Awaits(s: RQ.Sched, q: seq<Proc>, goal: RQ.Sched) {
    RQ.SchedInv(s) && (forall i :: 0 <= i < |q| ==> q[i] in s.ticks) && KernelModel.EnqueueAll(s, q) == goal
  }

  lemma AwaitsStart(v: Ipc.Ipc, c: Proc, s: RQ.Sched) returns (goal: RQ.Sched)
    requires Ipc.Inv(v) && c in v.status && Ipc.Senders(c) in v.lists && s.ticks.Keys == v.status.Keys && RQ.SchedInv(s)
    ensures Awaits(s, v.lists[Ipc.Senders(c)], goal)
  {
    hide Ipc.NoMissed, Ipc.Placed, RQ.SchedInv;
    var q := v.lists[Ipc.Senders(c)];
    forall i | 0 <= i < |q|
      ensures q[i] in s.ticks
    {
      assert v.lists[Ipc.Senders(c)][i] in v.status.Keys;
    }
    goal := KernelModel.EnqueueAll(s, q);
  }

  lemma AwaitsNext(s: RQ.Sched, q: seq<Proc>, goal: RQ.Sched)
    requires Awaits(s, q, goal) && q != []
    ensures q[0] in s.ticks && q[0] in s.hints && RQ.Total(s.ready) < W && Awaits(RQ.Enqueue(s, q[0]), q[1..], goal)
  {
    RQ.EnqueueKeeps(s, q[0]);
  }

  lemma AwaitsEnd(s: RQ.Sched, goal: RQ.Sched)
    requires Awaits(s, [], goal)
    ensures s == goal
  {
  }

  lemma GoneStart(v: Ipc.Ipc, c: Proc)
    requires Ipc.Inv(v) && c in v.status && v.status[c] == Ipc.Ready
    ensures Gone(v, c, 0) ==
      v.(status := v.status[c := Ipc.Empty], irqs := Released(v.irqs, c, Ipc.MAX_IRQ))
  {
    hide Ipc.Exclusive, Ipc.NoMissed, Released;
    var q := v.lists[Ipc.Senders(c)];
    assert q[0..] == q && q[..0] == [];
    assert v.lists[Ipc.Senders(c) := q] == v.lists;
    assert Gone(v, c, 0).regs == v.regs;
    assert Gone(v, c, 0).status == v.status[c := Ipc.Empty];
  }

  /** After the wake-ups the leaving process can still be dequeued. */
  lemma AllAwake(s: RQ.Sched, q: seq<Proc>, goal: RQ.Sched)
    requires Awaits(s, q, goal)
    ensures (forall i :: 0 <= i < |q| ==> q[i] in s.ticks) && goal == KernelModel.EnqueueAll(s, q)
    ensures RQ.CanDequeue(s, s.cur) ==> RQ.CanDequeue(goal, s.cur)
  {
  }

  /** Registering features and interrupt lines wakes and blocks nobody. */
  lemma QuietCalls(v: Ipc.Ipc, c: Proc)
    requires Ipc.Shape(v) && c in v.status
    ensures Ipc.FeatureOk(v.regs[c].ebx) ==> Ipc.SetFeature(v, c).wake == [] && !Ipc.SetFeature(v, c).block
    ensures Ipc.RequestIrq(v, c).wake == [] && !Ipc.RequestIrq(v, c).block
  {
  }

  ghost function Nils(n: nat): seq<Link> {
    seq(n, i => Nil)
  }

  /** A record in which nothing has happened yet. */
  ghost predicate Unused(r: Mail) {
    && (r.state == 0 || r.state == EMPTY) && r.firstSender == Nil && r.nextSender == Nil
    && r.receivingFrom == 0 && r.interrupts == 0
  }

  ghost function Owners(m: Mails): set<Ipc.Owner> {
    (set p | p in m :: Ipc.Senders(p)) + (set f: nat | f < Ipc.FEATURE_SLOTS :: Ipc.Waiters(f))
  }

  ghost function Initial(m: Mails, ram: seq<Byte>): Ipc.Ipc {
    Ipc.Ipc(
      map p | p in m :: if m[p].state == 0 then Ipc.Ready else Ipc.Empty,
      map o | o in Owners(m) :: [],
      Nils(Ipc.FEATURE_SLOTS), Nils(Ipc.MAX_IRQ + 1),
      map p | p in m :: m[p].interrupts, map p | p in m :: m[p].regs, ram)
  }

  lemma InitialMailed(m: Mails, ram: seq<Byte>)
    requires |ram| == W && forall p {:trigger m[p]} :: p in m ==> Unused(m[p])
    ensures Mailed(Initial(m, ram), m, Nils(Ipc.FEATURE_SLOTS))
    ensures Ipc.Inv(Initial(m, ram)) && Ipc.Complete(Initial(m, ram))
  {
    var v := Initial(m, ram);
    assert v.status.Keys == m.Keys && v.interrupts.Keys == m.Keys && v.regs.Keys == m.Keys;
    forall p, o {:trigger Ipc.Placed(v, p, o)} | p in v.status && o in v.lists
      ensures Ipc.Placed(v, p, o)
    {
      assert v.lists[o] == [];
    }
  }
}
