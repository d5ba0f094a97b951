/** Whoever waits for a receiver is served in turn: after as many receives that accept it as stand in front, and one. */
module Service {
  import opened Word32
  import opened Processes
  import opened KernelModel
  import opened KernelRuns
  import opened LostSenders
  import Fifo
  import Features
  import Ipc
  import IpcInvariant
  import Ram
  import RQ = ReadyQueue

  /** `x` is the sender at index `i` of the list of `o`. */
  ghost predicate Stands(v: Ipc.Ipc, o: Proc, x: Proc, i: nat) {
    i < |SendersOf(v, o)| && SendersOf(v, o)[i] == x
  }

  /** `x` has left the list, is ready and has been told that its message has passed. */
  ghost predicate Delivered(r: Ipc.Ipc, o: Proc, x: Proc) {
    && x !in SendersOf(r, o) && x in r.status && r.status[x] == Ipc.Ready
    && x in r.regs && r.regs[x].esi == Ipc.OK
  }

  // ---------- one call ----------

  /** A receive takes the first sender it accepts; everybody behind moves up. */
  lemma TakenAdvances(q: seq<Proc>, desired: Word, i: nat) returns (j: nat)
    requires RQ.NoDup(q) && i < |q| && Ipc.FindSender(q, desired).To? && Ipc.FindSender(q, desired).p != q[i]
    ensures var s := Ipc.FindSender(q, desired).p;
      j < |RQ.Remove(q, s)| && RQ.Remove(q, s)[j] == q[i] && j <= i
    ensures desired == Ipc.ANYPROC || q[i].addr == desired ==> j < i
  {
    Fifo.FindSenderIsFirst(q, desired);
    var s := Ipc.FindSender(q, desired).p;
    var m := RQ.IndexOf(q, s);
    j := if i < m then i else i - 1;
    assert RQ.Remove(q, s) == RQ.RemoveAt(q, m);
  }

  lemma ReceiveServes(v: Ipc.Ipc, o: Proc)
    requires Ipc.Inv(v) && o in v.status && v.status[o] == Ipc.Ready
    requires Ipc.ValidArea(o, v.regs[o]) && v.interrupts[o] == 0
    requires Ipc.FindSender(SendersOf(v, o), v.regs[o].ebx).To?
    ensures var s, r := Ipc.FindSender(SendersOf(v, o), v.regs[o].ebx).p, Ipc.Receive(v, o).ipc;
      s in SendersOf(v, o) && SendersOf(r, o) == RQ.Remove(SendersOf(v, o), s) && Delivered(r, o, s)
  {
    hide Ipc.NoMissed, Ram.Copy;
    var q := SendersOf(v, o);
    var s := Ipc.FindSender(q, v.regs[o].ebx).p;
    assert v.lists[Ipc.Senders(o)][RQ.IndexOf(q, s)] in v.status;
    assert Ipc.Placed(v, s, Ipc.Senders(o));
    IpcInvariant.RemoveMembers(q, s);
  }

  /** The receive would take `x` if nobody stood in front of it. */
  ghost predicate Accepting(v: Ipc.Ipc, o: Proc, x: Proc) {
    && o in v.regs && o in v.interrupts
    && Ipc.ValidArea(o, v.regs[o]) && v.interrupts[o] == 0
    && (v.regs[o].ebx == Ipc.ANYPROC || v.regs[o].ebx == x.addr)
  }

  lemma ReceiveAdvances(v: Ipc.Ipc, o: Proc, x: Proc, i: nat) returns (j: nat)
    requires Ipc.Inv(v) && o in v.status && v.status[o] == Ipc.Ready && Stands(v, o, x, i)
    ensures var r := Ipc.Receive(v, o).ipc;
      Delivered(r, o, x) || (Stands(r, o, x, j) && j <= i && (Accepting(v, o, x) ==> j < i))
  {
    hide Ipc.Exclusive, Ipc.NoMissed, Delivered, RQ.NoDup, RQ.Remove, Ram.Copy;
    var q := SendersOf(v, o);
    j := i;
    if Ipc.ValidArea(o, v.regs[o]) && v.interrupts[o] == 0 {
      var s := Ipc.FindSender(q, v.regs[o].ebx);
      if s == Nil {
        FindNone(q, v.regs[o].ebx);
      } else {
        ReceiveServes(v, o);
        if s.p != x {
          ListNoDup(v, o);
          j := TakenAdvances(q, v.regs[o].ebx, i);
        }
      }
    }
  }

  lemma ListNoDup(v: Ipc.Ipc, o: Proc)
    requires Ipc.Inv(v)
    ensures RQ.NoDup(SendersOf(v, o))
  {
  }

  /** Everything else only appends to the list of `o`, unless `o` leaves or overwrites it. */
  lemma OthersAppend(v: Ipc.Ipc, c: Proc, n: nat, dev: Ipc.Device, o: Proc)
    requires Ipc.Inv(v) && n <= Ipc.MAX_IRQ && o in v.status && SendersOf(v, o) != []
    requires n == 2 ==> c in v.status && v.status[c] == Ipc.Ready && Ipc.CallOk(v.regs[c])
    requires n == 2 && c == o ==> v.regs[c].eax != Ipc.SYS_RECEIVE && v.regs[c].eax != Ipc.SYS_EXIT
    requires n == 2 && c == o ==> !IpcInvariant.Overwrites(v, c)
    ensures SendersOf(v, o) <= SendersOf(Ipc.Interrupt(v, c, n, dev).ipc, o)
  {
    hide Ipc.NoMissed, Ipc.Placed, RQ.NoDup, Ram.Copy;
    if n == 2 {
      var call := v.regs[c].eax;
      if call == Ipc.SYS_SEND_BY_FEATURE {
        SendAppends(v, c, o);
      } else if call == Ipc.SYS_RECEIVE {
        ReceiveApart(v, c, o);
      }
    }
  }

  lemma SendAppends(v: Ipc.Ipc, c: Proc, o: Proc)
    requires Ipc.Inv(v) && c in v.status && Ipc.FeatureOk(v.regs[c].ebx)
    ensures SendersOf(v, o) <= SendersOf(Ipc.SendByFeature(v, c).ipc, o)
  {
    hide Ipc.Exclusive, Ipc.NoMissed, Ram.Copy;
  }

  lemma ReceiveApart(v: Ipc.Ipc, c: Proc, o: Proc)
    requires Ipc.Inv(v) && c in v.status && c != o
    ensures SendersOf(Ipc.Receive(v, c).ipc, o) == SendersOf(v, o)
  {
    hide Ipc.NoMissed, Ipc.Placed, RQ.NoDup, Ram.Copy;
  }

  // ---------- steps ----------

  /** The event is a receive by `o` that would take `x` if nobody stood in front: valid area, nothing latched. */
  ghost predicate Accepts(k: State, e: Event, o: Proc, x: Proc) {
    && e.number == 2 && k.sched.cur == o && e.regs.eax == Ipc.SYS_RECEIVE
    && Ipc.ValidArea(o, e.regs) && o in k.ipc.interrupts && k.ipc.interrupts[o] == 0
    && (e.regs.ebx == Ipc.ANYPROC || e.regs.ebx == x.addr)
  }

  /** The event ends the waiting: `o` receives from `x`. */
  ghost predicate Serves(k: State, e: Event, o: Proc, x: Proc)
    requires Inv(k) && Possible(k, e)
  {
    && e.number == 2 && k.sched.cur == o && e.regs.eax == Ipc.SYS_RECEIVE
    && Delivered(Step(k, e).ipc, o, x) && x in Step(k, e).sched.ready
  }

  ghost predicate Leaves(k: State, e: Event, o: Proc) {
    e.number == 2 && k.sched.cur == o && e.regs.eax == Ipc.SYS_EXIT
  }

  lemma SavedLists(k: State, e: Event, o: Proc, x: Proc)
    requires Inv(k) && Possible(k, e)
    ensures SendersOf(Save(k, e), o) == SendersOf(k.ipc, o)
    ensures Accepts(k, e, o, x) ==> Accepting(Save(k, e), o, x)
    ensures SendersOf(k.ipc, o) != [] ==> o in k.ipc.status
  {
    SaveKeeps(k, e);
  }

  lemma ReceiveStep(k: State, e: Event, o: Proc, x: Proc, i: nat) returns (j: nat)
    requires Inv(k) && Possible(k, e) && Stands(k.ipc, o, x, i)
    requires e.number == 2 && k.sched.cur == o && e.regs.eax == Ipc.SYS_RECEIVE
    ensures Serves(k, e, o, x) || (Stands(Step(k, e).ipc, o, x, j) && j <= i && (Accepts(k, e, o, x) ==> j < i))
  {
    hide Ipc.Receive, Ipc.NoMissed, Ipc.Placed, RQ.NoDup, Save, Dispatched, Accepts, Accepting, Delivered, SendersOf;
    SaveKeeps(k, e);
    Callable(k, e);
    SavedLists(k, e, o, x);
    StepSched(k, e);
    j := ReceiveAdvances(Save(k, e), o, x, i);
    assert Step(k, e).ipc == Ipc.Receive(Save(k, e), o).ipc;
    if Delivered(Step(k, e).ipc, o, x) {
      DeliveredReady(Step(k, e), o, x);
    }
  }

  lemma DeliveredReady(k: State, o: Proc, x: Proc)
    requires Agree(k.sched, k.ipc) && Delivered(k.ipc, o, x)
    ensures x in k.sched.ready
  {
  }

  lemma OtherStep(k: State, e: Event, o: Proc, x: Proc, i: nat)
    requires Inv(k) && Possible(k, e) && Stands(k.ipc, o, x, i)
    requires !(e.number == 2 && k.sched.cur == o && e.regs.eax == Ipc.SYS_RECEIVE)
    requires !Leaves(k, e, o) && !Loses(k, e, x)
    ensures Stands(Step(k, e).ipc, o, x, i)
  {
    hide Ipc.Interrupt, Ipc.Inv, Dispatched;
    SaveKeeps(k, e);
    SavedLists(k, e, o, x);
    OthersAppend(Save(k, e), k.sched.cur, e.number, e.device, o);
  }

  /** With every step `x` keeps its place or moves up, and up it moves with every receive that accepts it. */
  lemma StepAdvances(k: State, e: Event, o: Proc, x: Proc, i: nat) returns (j: nat)
    requires Inv(k) && Possible(k, e) && Stands(k.ipc, o, x, i)
    ensures Serves(k, e, o, x) || Leaves(k, e, o) || Loses(k, e, x)
      || (Stands(Step(k, e).ipc, o, x, j) && j <= i && (Accepts(k, e, o, x) ==> j < i))
  {
    hide Inv, Possible, Step, Stands, Loses;
    j := i;
    if e.number == 2 && k.sched.cur == o && e.regs.eax == Ipc.SYS_RECEIVE {
      j := ReceiveStep(k, e, o, x, i);
    } else if !Leaves(k, e, o) && !Loses(k, e, x) {
      OtherStep(k, e, o, x, i);
    }
  }

  // ---------- runs ----------

  /** How many receives of the run would take `x` if nobody stood in front. */
  ghost function Chances(k: State, es: seq<Event>, o: Proc, x: Proc): nat
    requires Inv(k) && Feasible(k, es)
    decreases |es|
  {
    if es == [] then 0
    else
      StepKeeps(k, es[0]);
      (if Accepts(k, es[0], o, x) then 1 else 0) + Chances(Step(k, es[0]), es[1..], o, x)
  }

  /** Some event of the run is a receive by `o` from `x`. */
  ghost predicate ServesIn(k: State, es: seq<Event>, o: Proc, x: Proc)
    requires Inv(k) && Feasible(k, es)
    decreases |es|
  {
    es != [] && (Serves(k, es[0], o, x) || (StepKeeps(k, es[0]); ServesIn(Step(k, es[0]), es[1..], o, x)))
  }

  ghost predicate LeavesIn(k: State, es: seq<Event>, o: Proc)
    requires Inv(k) && Feasible(k, es)
    decreases |es|
  {
    es != [] && (Leaves(k, es[0], o) || (StepKeeps(k, es[0]); LeavesIn(Step(k, es[0]), es[1..], o)))
  }

  /**
   * In every run with more than `i` receives by `o` that accept `x`, the sender at index `i` of the list of `o`, a
   * receive takes it, unless in that run `o` leaves or overwrites the list.
   */
  lemma {:induction false} ServedInTurn(k: State, es: seq<Event>, o: Proc, x: Proc, i: nat)
    requires Inv(k) && Feasible(k, es) && Stands(k.ipc, o, x, i) && Chances(k, es, o, x) > i
    ensures ServesIn(k, es, o, x) || LeavesIn(k, es, o) || LosesIn(k, es, x)
    decreases |es|
  {
    hide Inv, Possible, Step, Stands, Loses, Leaves, Serves, Accepts;
    StepKeeps(k, es[0]);
    var j := StepAdvances(k, es[0], o, x, i);
    if !Serves(k, es[0], o, x) && !Leaves(k, es[0], o) && !Loses(k, es[0], x) {
      ServedInTurn(Step(k, es[0]), es[1..], o, x, j);
    }
  }
}
