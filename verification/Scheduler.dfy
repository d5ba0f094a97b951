/** The scheduler on its linked structure, proved to refine the value-level operations of `ReadyQueue`. */
module Scheduling {
  import opened Word32
  import opened Processes
  import ReadyQueue
  import QueueMemory

  class Scheduler {
    const table: ProcessTable

    var head: Process?
    var schedticks: Word
    var ticksleft: Word
    var curptr: Process
    var nextptr: Process?

    ghost var view: ReadyQueue.Sched

    ghost predicate Valid()
      reads this, table, table.procs
    {
      Running() && QueueMemory.Settled(view, table.mem)
    }

    /** Everything but the ENQUEUED flags, which lag behind the queue while a process is being dequeued. */
    ghost predicate Running()
      reads this, table, table.procs
    {
      ReadyQueue.SchedInv(view) && Holding(view)
    }

    /** The globals, the links and the tick counts hold the state `s`. */
    ghost predicate Holding(s: ReadyQueue.Sched)
      reads this, table, table.procs
    {
      && table.Valid()
      && Globals(s)
      && QueueMemory.Holds(s, table.mem, table.Ref(head))
    }

    /** The kernel's global scheduling variables hold the state `s`. */
    ghost predicate Globals(s: ReadyQueue.Sched)
      reads this
    {
      && s.idle == table.idle.id && s.ticks.Keys == table.objs.Keys
      && schedticks == ReadyQueue.Total(s.ready) && ticksleft == s.qticks
      && table.Ref(curptr) == To(s.cur) && table.Ref(nextptr) == s.nxt
    }

    constructor (table: ProcessTable, ghost roster: seq<Proc>)
      requires table.Valid()
      requires ReadyQueue.Roster(roster, table.objs.Keys) && ReadyQueue.Total(roster) < W
      requires forall x {:trigger table.mem[x]} :: x in table.mem ==>
        !table.mem[x].enqueued && table.mem[x].next == Nil && table.mem[x].prev == Nil
      ensures Valid() && this.table == table
      ensures view.table == roster && view.ready == [] && view.cur == table.idle.id && view.nxt == Nil
    {
      this.table := table;
      head, schedticks, ticksleft := null, 0, 0;
      curptr, nextptr := table.idle, null;
      ghost var ticks := map x | x in table.mem :: table.mem[x].ticks;
      assert ticks.Keys == table.objs.Keys;
      view := ReadyQueue.Initial(roster, table.idle.id, ticks);
      ReadyQueue.InitialInv(roster, table.idle.id, ticks);
    }

    // ---------- the neighbour-validity macros ----------

    predicate ProcessEligibleFirst(p: Process)
      reads this
    {
      head != null && head.id.schedticks <= p.id.schedticks
    }

    predicate ProcessEligibleLast(p: Process)
      reads p, p.previous
    {
      p.previous != null && p.previous.enqueued && p.previous.next == null
    }

    predicate PreviousValid(p: Process)
      reads this, p, p.previous
    {
      if p.previous == null then ProcessEligibleFirst(p)
      else if !p.previous.enqueued then false
      else if p.previous.next != p.next then false
      else p.previous.id.schedticks >= p.id.schedticks
    }

    predicate NextValid(p: Process)
      reads this, p, p.next, p.previous
    {
      if p.next == null then ProcessEligibleLast(p)
      else if !p.next.enqueued then false
      else if p.next.previous != p.previous then false
      else p.next.id.schedticks <= p.id.schedticks
    }

    predicate LastNeighboursValid(p: Process)
      reads this, p, p.next, p.previous
    {
      if p.previous == null && p.next == null then false
      else if !PreviousValid(p) then false
      else NextValid(p)
    }

    /** The macros, on pointers, compute what `QueueMemory` says about the memory contents. */
    lemma MacrosAgree(p: Process)
      requires table.Valid() && p in table.procs && QueueMemory.Closed(table.mem)
      requires QueueMemory.Proper(table.mem, table.Ref(head))
      ensures LastNeighboursValid(p) <==> QueueMemory.LastNeighboursValid(table.mem, table.Ref(head), p.id)
    {
      assert table.mem[p.id] == table.Contents(p);
      if p.previous != null {
        assert table.mem[p.previous.id] == table.Contents(p.previous);
      }
      if p.next != null {
        assert table.mem[p.next.id] == table.Contents(p.next);
      }
    }

    // ---------- enqueue ----------

    method Enqueue(process: Process)
      requires Valid() && process in table.procs
      modifies this, table`mem, table.procs
      ensures Valid() && view == old(ReadyQueue.Enqueue(view, process.id))
    {
      assert table.mem[process.id] == table.Contents(process);
      if !process.enqueued {
        QueueMemory.MirrorsLinkable(view, table.mem, table.Ref(head), process.id);
        QueueMemory.JoinMirrors(view, table.mem, table.Ref(head), process.id);
        ReadyQueue.EnqueueGlobals(view, process.id);
        Admit(process, view.ready, ReadyQueue.Enqueue(view, process.id));
      }
    }

    /** Enqueue a process that is not in the queue `q`; `r` is the state to reach. */
    method Admit(process: Process, ghost q: seq<Proc>, ghost r: ReadyQueue.Sched)
      requires table.Valid() && process in table.procs
      requires QueueMemory.Linkable(table.mem, table.Ref(head), process.id, q)
      requires r.idle == table.idle.id && r.ticks.Keys == table.objs.Keys
      requires ReadyQueue.Total(r.ready) == schedticks + process.id.schedticks < W
      requires table.Ref(curptr) == To(r.cur) && table.Ref(nextptr) == r.nxt
      requires var t := ReadyQueue.JoinTicks(process.id.schedticks, schedticks, ticksleft, table.mem[process.id].ticks);
        && r.qticks == Add(ticksleft, t)
        && QueueMemory.Mirrors(r, QueueMemory.JoinMemory(table.mem, table.Ref(head), process.id, q, t),
                               QueueMemory.JoinHead(table.mem, table.Ref(head), process.id, q))
      modifies this, table`mem, table.procs
      ensures view == r && Holding(r) && QueueMemory.Settled(r, table.mem)
    {
      view := r;
      Join(process, q);
    }

    /** Link `process` in, grant it ticks and count it. */
    method Join(process: Process, ghost q: seq<Proc>)
      requires table.Valid() && process in table.procs
      requires QueueMemory.Linkable(table.mem, table.Ref(head), process.id, q)
      requires schedticks + process.id.schedticks < W
      modifies this, table`mem, table.procs
      ensures table.Valid()
      ensures
        var t := ReadyQueue.JoinTicks(process.id.schedticks, old(schedticks), old(ticksleft),
                                      old(table.mem)[process.id].ticks);
        && table.mem == QueueMemory.JoinMemory(old(table.mem), old(table.Ref(head)), process.id, q, t)
        && ticksleft == Add(old(ticksleft), t)
      ensures table.Ref(head) == QueueMemory.JoinHead(old(table.mem), old(table.Ref(head)), process.id, q)
      ensures schedticks == old(schedticks) + process.id.schedticks
      ensures curptr == old(curptr) && nextptr == old(nextptr) && view == old(view)
    {
      hide QueueMemory.Chain, QueueMemory.JoinHead, Mul, Div;
      Link(process, q);
      Grant(process);
    }

    /** Flag `process` and link it in, trusting its stale links if they still fit. */
    method Link(process: Process, ghost q: seq<Proc>)
      requires table.Valid() && process in table.procs
      requires QueueMemory.Linkable(table.mem, table.Ref(head), process.id, q)
      modifies this`head, table`mem, table.procs
      ensures table.Valid()
      ensures table.mem
        == QueueMemory.Attach(QueueMemory.Aim(old(table.mem), old(table.Ref(head)), process.id, q), process.id)
      ensures table.Ref(head) == QueueMemory.JoinHead(old(table.mem), old(table.Ref(head)), process.id, q)
    {
      ghost var m, h := table.mem, table.Ref(head);
      QueueMemory.AimReady(m, h, process.id, q);
      table.SetEnqueued(process, true);
      assert table.mem == QueueMemory.Raise(m, process.id);
      MacrosAgree(process);
      if !LastNeighboursValid(process) {
        QueueMemory.FlagChain(q, m, table.mem, table.Ref(head), process.id);
        SearchLinks(process, q);
      }
      assert table.mem == QueueMemory.Aim(m, h, process.id, q);
      Attach(process);
    }

    /** Point `process`'s own links around the place its weight calls for. */
    method SearchLinks(process: Process, ghost q: seq<Proc>)
      requires table.Valid() && process in table.procs && process.id !in q
      requires QueueMemory.Chain(q, table.mem, table.Ref(head))
      modifies table`mem, table.procs
      ensures table.Valid()
      ensures table.mem == QueueMemory.Retarget(old(table.mem), process.id, q,
                                                ReadyQueue.SearchPosition(q, process.id.schedticks))
    {
      ghost var k: int := ReadyQueue.SearchPosition(q, process.id.schedticks);
      ghost var m := table.mem;
      table.SetLinks(process, null, null);
      QueueMemory.RetargetAgain(m, table.Ref(head), process.id, q, k, table.mem);
      var previous, cur := SearchPlace(process.id.schedticks, q);
      table.SetLinks(process, previous, cur);
    }

    /** Make the process's new neighbours (or the queue head) point to it. */
    method Attach(process: Process)
      requires table.Valid() && process in table.procs && QueueMemory.Detachable(table.mem, process.id)
      modifies this`head, table`mem, table.procs
      ensures table.Valid()
      ensures table.mem == QueueMemory.Attach(old(table.mem), process.id)
      ensures table.Ref(head) == QueueMemory.AttachHead(old(table.mem), old(table.Ref(head)), process.id)
    {
      assert table.mem[process.id] == table.Contents(process);
      if process.previous != null {
        table.SetNext(process.previous, process);
      } else {
        head := process;
      }
      assert table.mem[process.id] == table.Contents(process);
      if process.next != null {
        table.SetPrevious(process.next, process);
      }
    }

    /** Walk past every heavier process; stop at the first that is not. */
    method SearchPlace(weight: Word, ghost q: seq<Proc>) returns (previous: Process?, cur: Process?)
      requires table.Valid() && QueueMemory.Chain(q, table.mem, table.Ref(head))
      ensures var k: int := ReadyQueue.SearchPosition(q, weight);
        table.Ref(cur) == ReadyQueue.At(q, k) && table.Ref(previous) == ReadyQueue.At(q, k - 1)
    {
      previous := null;
      cur := head;
      ghost var k := 0;
      while cur != null && cur.id.schedticks > weight
        invariant k <= ReadyQueue.SearchPosition(q, weight)
        invariant table.Ref(cur) == ReadyQueue.At(q, k) && table.Ref(previous) == ReadyQueue.At(q, k - 1)
        decreases |q| - k
      {
        assert table.mem[q[k]].next == ReadyQueue.At(q, k + 1) && table.mem[cur.id] == table.Contents(cur);
        previous := cur;
        cur := cur.next;
        k := k + 1;
      }
    }

    /** Grant ticks to a process that has just been linked, and count it in. */
    method Grant(process: Process)
      requires table.Valid() && process in table.procs
      requires schedticks + process.id.schedticks < W
      modifies this`schedticks, this`ticksleft, table`mem, table.procs
      ensures table.Valid()
      ensures
        var t := ReadyQueue.JoinTicks(process.id.schedticks, old(schedticks), old(ticksleft),
                                      old(table.mem)[process.id].ticks);
        && table.mem == old(table.mem)[process.id := old(table.mem)[process.id].(ticks := t)]
        && ticksleft == Add(old(ticksleft), t)
      ensures schedticks == old(schedticks) + process.id.schedticks
    {
      assert table.mem[process.id] == table.Contents(process);
      var weight := process.id.schedticks;
      var t := weight;
      if schedticks != 0 {
        var count1 := Sub(weight, Div(Mul(Sub(schedticks, ticksleft), weight), schedticks));
        var count2 := process.ticksleft;
        t := if count1 < count2 then count1 else count2;
      }
      table.SetTicksleft(process, t);
      schedticks := Add(schedticks, weight);
      ticksleft := Add(ticksleft, t);
    }

    // ---------- charge and pick ----------

    method ChargeProcess()
      requires Running()
      modifies this, table`mem, table.procs
      ensures Running() && view == old(ReadyQueue.Charge(view))
      ensures QueueMemory.OnlyTicks(old(table.mem), table.mem)
    {
      if curptr != table.idle {
        ReadyQueue.SchedInvTicks(view, ReadyQueue.Charge(view));
        QueueMemory.SetTicks(view, table.mem, table.Ref(head), curptr.id, Sub(view.ticks[curptr.id], 1),
                             ReadyQueue.Charge(view));
        Spend(ReadyQueue.Charge(view));
      }
    }

    /** Take one tick from the running process and from the queue; `r` is the state to reach. */
    method Spend(ghost r: ReadyQueue.Sched)
      requires table.Valid() && curptr in table.procs
      requires r.qticks == Sub(ticksleft, 1)
      requires r.idle == table.idle.id && r.ticks.Keys == table.objs.Keys
      requires ReadyQueue.Total(r.ready) == schedticks
      requires table.Ref(curptr) == To(r.cur) && table.Ref(nextptr) == r.nxt
      requires QueueMemory.Holds(r, table.mem[curptr.id := table.mem[curptr.id].(ticks :=
                                   Sub(table.mem[curptr.id].ticks, 1))], table.Ref(head))
      modifies this`view, this`ticksleft, table`mem, table.procs
      ensures view == r && Holding(r)
      ensures QueueMemory.OnlyTicks(old(table.mem), table.mem)
    {
      hide QueueMemory.Chain;
      view := r;
      assert table.mem[curptr.id] == table.Contents(curptr);
      table.SetTicksleft(curptr, Sub(curptr.ticksleft, 1));
      ticksleft := Sub(ticksleft, 1);
    }

    predicate VtrrIsEligible(p: Process, q: Process)
      reads this, p, q
    {
      || q.ticksleft > p.ticksleft
      || Sub(Mul(Add(Sub(q.id.schedticks, q.ticksleft), 1), schedticks),
             Mul(Add(Sub(schedticks, ticksleft), 1), q.id.schedticks)) < schedticks
    }

    method PickNextProc()
      requires Running() && ReadyQueue.CanPick(view)
      modifies this, table`mem, table.procs
      ensures Running() && view == old(ReadyQueue.Pick(view))
      ensures QueueMemory.OnlyTicks(old(table.mem), table.mem)
      ensures curptr == old(curptr)
    {
      var target, refill := ChooseNext();
      QueueMemory.PickHolds(view, table.mem, table.Ref(head));
      InstallNext(target, refill, ReadyQueue.Pick(view));
    }

    /** The picker's decision: who runs next, and whether its ticks are renewed. */
    method ChooseNext() returns (target: Process, refill: bool)
      requires Running() && ReadyQueue.CanPick(view)
      ensures target == table.idle || target in table.procs
      ensures ReadyQueue.Choice(target.id, refill) == ReadyQueue.Choose(view)
    {
      if head == null {
        return table.idle, false;
      }
      var last := if nextptr == null then curptr else nextptr;
      if last == table.idle {
        return head, false;
      }
      target, refill := ChooseAfter(last);
    }

    /** The first process of a queue that is not empty. */
    lemma HeadKnown()
      requires Running() && view.ready != []
      ensures head != null && head in table.procs && head.id == view.ready[0]
      ensures head.id in view.ticks && head.ticksleft == view.ticks[head.id]
    {
      assert table.mem[head.id] == table.Contents(head);
    }

    /** The process after a queue member, and what both have left. */
    lemma NextKnown(last: Process)
      requires Running() && last in table.procs && last.id in view.ready
      ensures last.id in view.ticks && last.ticksleft == view.ticks[last.id]
      ensures var k := ReadyQueue.IndexOf(view.ready, last.id) + 1;
        if k == |view.ready| then last.next == null
        else && last.next != null && last.next in table.procs && last.next.id == view.ready[k]
             && last.next.id in view.ticks && last.next.ticksleft == view.ticks[last.next.id]
    {
      assert table.mem[last.id] == table.Contents(last);
      QueueMemory.Successor(view, table.mem, table.Ref(head), last.id);
      if last.next != null {
        assert table.mem[last.next.id] == table.Contents(last.next);
      }
    }

    lemma CountsKnown()
      requires Running()
      ensures schedticks == ReadyQueue.Total(view.ready) && ticksleft == view.qticks
    {
    }

    method ChooseAfter(last: Process) returns (target: Process, refill: bool)
      requires Running() && last in table.procs && last.id in view.ready
      ensures target in table.procs
      ensures ReadyQueue.Choice(target.id, refill) == ReadyQueue.ChooseAfter(view, last.id)
    {
      hide Running, Mul, Div;
      CountsKnown();
      HeadKnown();
      NextKnown(last);
      if last.next == null {
        return head, head.ticksleft == 0;
      }
      if last.ticksleft == Sub(last.id.schedticks, 1) {
        return last.next, true;
      }
      if VtrrIsEligible(last, last.next) {
        return last.next, false;
      }
      return head, head.ticksleft == 0;
    }

    method InstallNext(target: Process, refill: bool, ghost r: ReadyQueue.Sched)
      requires table.Valid() && (target == table.idle || target in table.procs)
      requires refill ==> target in table.procs
      requires r.nxt == To(target.id)
      requires r.idle == table.idle.id && r.ticks.Keys == table.objs.Keys
      requires ReadyQueue.Total(r.ready) == schedticks && r.qticks == ticksleft && table.Ref(curptr) == To(r.cur)
      requires QueueMemory.Holds(r, QueueMemory.Renew(table.mem, ReadyQueue.Choice(target.id, refill)), table.Ref(head))
      modifies this`view, this`nextptr, table`mem, table.procs
      ensures view == r && Holding(r)
      ensures QueueMemory.OnlyTicks(old(table.mem), table.mem)
    {
      view := r;
      nextptr := target;
      if refill {
        table.SetTicksleft(target, target.id.schedticks);
      }
    }

    // ---------- the end of an interrupt ----------

    /** If nobody has been picked yet, charge the running process and pick. */
    method Dispatch()
      requires Valid() && (view.nxt == Nil ==> ReadyQueue.CanPick(view))
      modifies this, table`mem, table.procs
      ensures Valid()
      ensures view == if old(view).nxt == Nil then old(ReadyQueue.Pick(ReadyQueue.Charge(view))) else old(view)
    {
      hide ReadyQueue.SchedInv, QueueMemory.Holds, QueueMemory.Settled, QueueMemory.OnlyTicks;
      ghost var s, m := view, table.mem;
      if nextptr == null {
        ReadyQueue.PickSettled(s);
        ChargeProcess();
        ghost var m1 := table.mem;
        PickNextProc();
        QueueMemory.OnlyTicksTrans(m, m1, table.mem);
        QueueMemory.StillSettled(s, m, view, table.mem);
      }
    }

    /** The switch to the process picked. */
    method Schedule()
      requires Valid() && nextptr != null && view.nxt.To?
      modifies this`curptr, this`nextptr, this`view
      ensures Valid() && view == old(view).(cur := old(view).nxt.p, nxt := Nil)
    {
      hide ReadyQueue.SchedInv, QueueMemory.Chain;
      ReadyQueue.SchedInvTicks(view, view.(cur := view.nxt.p, nxt := Nil));
      view := view.(cur := view.nxt.p, nxt := Nil);
      curptr := nextptr;
      nextptr := null;
    }

    // ---------- dequeue ----------

    /** One round of the yielding loop. */
    method YieldOnce()
      requires Running() && ReadyQueue.CanPick(view)
      modifies this, table`mem, table.procs
      ensures Running() && view == old(ReadyQueue.YieldOnce(view))
      ensures QueueMemory.OnlyTicks(old(table.mem), table.mem)
    {
      ghost var m := table.mem;
      ChargeProcess();
      ghost var m1 := table.mem;
      PickNextProc();
      QueueMemory.OnlyTicksTrans(m, m1, table.mem);
      InstallCurrent();
    }

    method InstallCurrent()
      requires Running() && nextptr != null && view.nxt.To?
      modifies this`curptr, this`view
      ensures Running() && view == old(view).(cur := old(view).nxt.p)
    {
      ReadyQueue.SchedInvTicks(view, view.(cur := view.nxt.p));
      Switch(view.(cur := view.nxt.p));
    }

    method Switch(ghost r: ReadyQueue.Sched)
      requires Holding(view) && nextptr != null && view.nxt.To?
      requires r == view.(cur := view.nxt.p)
      modifies this`curptr, this`view
      ensures view == r && Holding(r)
    {
      view := r;
      curptr := nextptr;
    }

    /** Charge the running `process` until the picker settles on another. */
    method Yield(process: Process)
      requires Running() && process in table.procs && ReadyQueue.CanYield(view, process.id)
      modifies this, table`mem, table.procs
      ensures Running() && view == old(ReadyQueue.Yield(view, process.id))
      ensures QueueMemory.OnlyTicks(old(table.mem), table.mem)
    {
      ghost var m, goal := table.mem, ReadyQueue.Yield(view, process.id);
      QueueMemory.OnlyTicksSame(m);
      var again := true;
      while again
        invariant Running() && ReadyQueue.YieldsTo(view, process.id, goal, again)
        invariant QueueMemory.OnlyTicks(m, table.mem)
        decreases again, RoundsLeft(process)
      {
        ghost var m1 := table.mem;
        again := YieldStep(process, goal);
        QueueMemory.OnlyTicksTrans(m, m1, table.mem);
      }
    }

    ghost function RoundsLeft(process: Process): nat
      reads this`view
    {
      if process.id in view.ticks then ReadyQueue.Rounds(view.ticks[process.id], process.id.schedticks) else 0
    }

    method YieldStep(process: Process, ghost goal: ReadyQueue.Sched) returns (again: bool)
      requires Running() && process in table.procs
      requires ReadyQueue.CanYield(view, process.id) && ReadyQueue.Yield(view, process.id) == goal
      modifies this, table`mem, table.procs
      ensures Running() && ReadyQueue.YieldsTo(view, process.id, goal, again)
      ensures again ==> RoundsLeft(process) < old(RoundsLeft(process))
      ensures QueueMemory.OnlyTicks(old(table.mem), table.mem)
    {
      hide ReadyQueue.Yield, ReadyQueue.YieldOnce, ReadyQueue.SchedInv, QueueMemory.Holds;
      ReadyQueue.YieldUnfold(view, process.id);
      YieldOnce();
      again := nextptr == process;
      assert again <==> table.Ref(nextptr) == To(process.id);
    }

    method Dequeue(process: Process)
      requires Valid() && process in table.procs && ReadyQueue.CanDequeue(view, process.id)
      modifies this, table`mem, table.procs
      ensures Valid() && view == old(ReadyQueue.Dequeue(view, process.id))
    {
      assert table.mem[process.id] == table.Contents(process);
      if process.enqueued {
        ReadyQueue.SoleMember(view, process.id);
        if schedticks == process.id.schedticks {
          Empty(process);
        } else {
          Leave(process);
        }
      }
    }

    /** Dequeue the only member. */
    method Empty(process: Process)
      requires Valid() && process in table.procs && ReadyQueue.CanDequeue(view, process.id)
      requires process.id in view.ready && schedticks == process.id.schedticks
      modifies this, table`mem, table.procs
      ensures Valid() && view == old(ReadyQueue.Dequeue(view, process.id))
    {
      ReadyQueue.DequeueSole(view, process.id);
      QueueMemory.SoleMirrors(view, table.mem, table.Ref(head), process.id);
      Clear(process, ReadyQueue.Dequeue(view, process.id));
    }

    method Clear(process: Process, ghost r: ReadyQueue.Sched)
      requires table.Valid() && process in table.procs
      requires r.ready == [] && r.qticks == 0
      requires r.idle == table.idle.id && r.ticks.Keys == table.objs.Keys
      requires table.Ref(curptr) == To(r.cur) && table.Ref(nextptr) == r.nxt
      requires QueueMemory.Mirrors(r, table.mem[process.id := table.mem[process.id].(enqueued := false)], Nil)
      modifies this, table`mem, table.procs
      ensures view == r && Holding(r) && QueueMemory.Settled(r, table.mem)
    {
      hide QueueMemory.Chain;
      view := r;
      table.SetEnqueued(process, false);
      schedticks, ticksleft := 0, 0;
      head := null;
    }

    /** Dequeue one member of several, yielding the processor first if it is the running one. */
    method Leave(process: Process)
      requires Valid() && process in table.procs && ReadyQueue.CanDequeue(view, process.id)
      requires process.id in view.ready && |view.ready| >= 2
      modifies this, table`mem, table.procs
      ensures Valid() && view == old(ReadyQueue.Dequeue(view, process.id))
    {
      hide QueueMemory.Mirrors, QueueMemory.Leaving, QueueMemory.Detach, QueueMemory.DetachHead, QueueMemory.Detachable,
        ReadyQueue.Dequeue, ReadyQueue.Yielded, ReadyQueue.SchedInv;
      ghost var s := view;
      GiveWay(process);
      ReadyQueue.DequeueGlobals(s, process.id);
      QueueMemory.LeaveMirrors(s, view, table.mem, process.id);
      QueueMemory.LeavingDetachable(s, view, table.mem, process.id);
      Unlink(process, ReadyQueue.Dequeue(s, process.id));
    }

    method GiveWay(process: Process)
      requires Valid() && process in table.procs && ReadyQueue.CanDequeue(view, process.id)
      requires process.id in view.ready && |view.ready| >= 2
      modifies this, table`mem, table.procs
      ensures Running() && view == old(ReadyQueue.Yielded(view, process.id))
      ensures QueueMemory.Leaving(old(view), view, table.mem, process.id)
    {
      ghost var s, m, h := view, table.mem, table.Ref(head);
      LowerAndYield(process);
      QueueMemory.LowerLeaves(s, m, h, process.id, view, table.mem);
    }

    method LowerAndYield(process: Process)
      requires Valid() && process in table.procs && ReadyQueue.CanDequeue(view, process.id)
      requires process.id in view.ready && |view.ready| >= 2
      modifies this, table`mem, table.procs
      ensures Running() && view == old(ReadyQueue.Yielded(view, process.id))
      ensures QueueMemory.OnlyTicks(
                old(table.mem)[process.id := old(table.mem)[process.id].(enqueued := false)], table.mem)
      ensures table.Ref(head) == old(table.Ref(head))
    {
      QueueMemory.LowerHolds(view, table.mem, table.Ref(head), process.id);
      table.SetEnqueued(process, false);
      QueueMemory.OnlyTicksSame(table.mem);
      if curptr == process {
        Yield(process);
      }
    }

    /** Take `process` out of the links and out of the counts; `r` is the state to reach. */
    method Unlink(process: Process, ghost r: ReadyQueue.Sched)
      requires table.Valid() && process in table.procs && QueueMemory.Detachable(table.mem, process.id)
      requires r.idle == table.idle.id && r.ticks.Keys == table.objs.Keys
      requires ReadyQueue.Total(r.ready) == Sub(schedticks, process.id.schedticks)
      requires r.qticks == Sub(ticksleft, table.mem[process.id].ticks)
      requires table.Ref(curptr) == To(r.cur) && table.Ref(nextptr) == r.nxt
      requires QueueMemory.Mirrors(r, QueueMemory.Detach(table.mem, process.id),
                                   QueueMemory.DetachHead(table.mem, table.Ref(head), process.id))
      modifies this, table`mem, table.procs
      ensures view == r && Holding(r) && QueueMemory.Settled(r, table.mem)
    {
      view := r;
      Drop(process);
    }

    method Drop(process: Process)
      requires table.Valid() && process in table.procs && QueueMemory.Detachable(table.mem, process.id)
      modifies this, table`mem, table.procs
      ensures table.Valid()
      ensures table.mem == QueueMemory.Detach(old(table.mem), process.id)
      ensures table.Ref(head) == QueueMemory.DetachHead(old(table.mem), old(table.Ref(head)), process.id)
      ensures schedticks == Sub(old(schedticks), process.id.schedticks)
      ensures ticksleft == Sub(old(ticksleft), old(table.mem)[process.id].ticks)
      ensures curptr == old(curptr) && nextptr == old(nextptr) && view == old(view)
    {
      QueueMemory.DetachAt(table.mem, process.id, process.id);
      Detach(process);
      assert table.mem[process.id] == table.Contents(process);
      schedticks := Sub(schedticks, process.id.schedticks);
      ticksleft := Sub(ticksleft, process.ticksleft);
    }

    /** Make the neighbours of `process` (and the queue head) skip it. */
    method Detach(process: Process)
      requires table.Valid() && process in table.procs && QueueMemory.Detachable(table.mem, process.id)
      modifies this`head, table`mem, table.procs
      ensures table.Valid()
      ensures table.mem == QueueMemory.Detach(old(table.mem), process.id)
      ensures table.Ref(head) == QueueMemory.DetachHead(old(table.mem), old(table.Ref(head)), process.id)
    {
      assert table.mem[process.id] == table.Contents(process);
      if process.previous != null {
        table.SetNext(process.previous, process.next);
      }
      assert table.mem[process.id] == table.Contents(process);
      if process.next != null {
        table.SetPrevious(process.next, process.previous);
      }
      assert table.mem[process.id] == table.Contents(process);
      if head == process {
        head := process.next;
      }
    }
  }
}
