/** Whole runs of the kernel: the invariant everywhere, and what it says about each process. */
module KernelRuns {
  import opened Word32
  import opened Processes
  import opened ReadyQueue
  import opened KernelModel
  import Ipc

  /** The environment can produce these events one after the other. */
  ghost predicate Feasible(k: State, es: seq<Event>)
    requires Inv(k)
    decreases |es|
  {
    es == [] ||
    (Possible(k, es[0]) && (StepKeeps(k, es[0]); Feasible(Step(k, es[0]), es[1..])))
  }

  ghost function Run(k: State, es: seq<Event>): (r: State)
    requires Inv(k) && Feasible(k, es)
    ensures Inv(r)
    decreases |es|
  {
    if es == [] then k
    else
      StepKeeps(k, es[0]);
      Run(Step(k, es[0]), es[1..])
  }

  /** The processes waiting to send to `o`. */
  ghost function SendersOf(v: Ipc.Ipc, o: Proc): seq<Proc> {
    if Ipc.Senders(o) in v.lists then v.lists[Ipc.Senders(o)] else []
  }

  // ---------- where everybody is ----------

  ghost predicate IsQueued(k: State, p: Proc) {
    exists o {:trigger k.ipc.lists[o]} :: o in k.ipc.lists && p in k.ipc.lists[o]
  }

  /** Where a process is: ready, receiving, absent, lost, or in exactly one list at one position. */
  ghost predicate OnePlace(k: State, p: Proc)
    requires p in k.ipc.status
  {
    && (p in k.sched.ready <==> k.ipc.status[p] == Ipc.Ready)
    && (IsQueued(k, p) <==> k.ipc.status[p].Queued? && !Ipc.Lost(k.ipc, p))
    && (forall o, w {:trigger k.ipc.lists[o], k.ipc.lists[w]} ::
         o in k.ipc.lists && w in k.ipc.lists && p in k.ipc.lists[o] && p in k.ipc.lists[w] ==> o == w)
    && (forall o, i, j {:trigger k.ipc.lists[o][i], k.ipc.lists[o][j]} ::
         o in k.ipc.lists && 0 <= i < j < |k.ipc.lists[o]| ==> k.ipc.lists[o][i] != k.ipc.lists[o][j])
    && NoDup(k.sched.ready)
  }

  lemma InvOnePlace(k: State, p: Proc)
    requires Inv(k) && p in k.ipc.status
    ensures OnePlace(k, p)
  {
    var v := k.ipc;
    forall o {:trigger v.lists[o]} | o in v.lists && p in v.lists[o]
      ensures v.status[p].Queued? && v.status[p].at == o
    {
      assert Ipc.Placed(v, p, o);
    }
    forall o, i, j {:trigger v.lists[o][i], v.lists[o][j]} | o in v.lists && 0 <= i < j < |v.lists[o]|
      ensures v.lists[o][i] != v.lists[o][j]
    {
      Distinct(v.lists[o]);
    }
  }

  /** In every state of every run each process is in exactly one place. */
  lemma RunOnePlace(k: State, es: seq<Event>, p: Proc)
    requires Inv(k) && Feasible(k, es) && p in Run(k, es).ipc.status
    ensures OnePlace(Run(k, es), p)
  {
    InvOnePlace(Run(k, es), p);
  }

  /** In every state of every run a blocked receiver has no latched interrupt, and only lost senders it would accept. */
  lemma RunNoMissed(k: State, es: seq<Event>, p: Proc)
    requires Inv(k) && Feasible(k, es)
    requires p in Run(k, es).ipc.status && Run(k, es).ipc.status[p].Receiving?
    ensures var v := Run(k, es).ipc;
      && v.interrupts[p] == 0
      && (v.status[p].from == Ipc.ANYPROC ==> v.lists[Ipc.Senders(p)] == [])
      && (forall q :: q in v.lists[Ipc.Senders(p)] ==> q.addr != v.status[p].from)
      && (forall q {:trigger Ipc.Lost(v, q)} ::
           q in v.status && v.status[q].Queued? && v.status[q].at == Ipc.Senders(p) &&
           (v.status[p].from == Ipc.ANYPROC || v.status[p].from == q.addr)
           ==> Ipc.Lost(v, q))
  {
    var v := Run(k, es).ipc;
    FindNone(v.lists[Ipc.Senders(p)], v.status[p].from);
  }

  lemma {:induction false} FindNone(q: seq<Proc>, desired: Word)
    requires Ipc.FindSender(q, desired) == Nil
    ensures desired == Ipc.ANYPROC ==> q == []
    ensures forall p :: p in q ==> p.addr != desired
  {
    if q != [] {
      FindNone(q[1..], desired);
    }
  }

  // ---------- work conservation ----------

  /** After every interrupt the idle task is picked exactly when the ready queue is empty, else a queue member is. */
  lemma WorkConserving(k: State, e: Event)
    requires Inv(k) && Possible(k, e)
    ensures var d := Dispatched(k, e);
      && (d.nxt == To(d.idle) <==> d.ready == [])
      && (d.ready != [] ==> d.nxt.p in d.ready && Step(k, e).sched.cur == d.nxt.p)
  {
    DispatchedFacts(k, e);
    IdleNotReady(Dispatched(k, e));
  }

  lemma IdleNotReady(s: Sched)
    requires SchedInv(s)
    ensures s.idle !in s.ready
  {
  }

  // ---------- how runs begin ----------

  /** Before the first interrupt: the idle task stands for whatever runs, processes are being started. */
  ghost predicate Booting(k: State) {
    && SchedInv(k.sched) && Ipc.Inv(k.ipc) && Ipc.Complete(k.ipc) && Agree(k.sched, k.ipc)
    && k.sched.nxt == Nil && k.sched.cur == k.sched.idle
  }

  /** An empty queue and no existing process are a state to begin with. */
  lemma BootBegins(roster: seq<Proc>, idle: Proc, ticks: map<Proc, Word>, v: Ipc.Ipc)
    requires Roster(roster, ticks.Keys) && Total(roster) < W && idle !in ticks
    requires Ipc.Inv(v) && v.status.Keys == ticks.Keys
    requires forall p {:trigger v.status[p]} :: p in v.status ==> v.status[p] == Ipc.Empty
    ensures Booting(State(Initial(roster, idle, ticks), v))
  {
    hide SchedInv, Ipc.Inv;
    assert Ipc.Complete(v);
    InitialInv(roster, idle, ticks);
  }

  /** A record that is not in use becomes a ready process. */
  ghost function Start(k: State, p: Proc): State
    requires Booting(k) && p in k.ipc.status && p in k.sched.ticks
  {
    State(Enqueue(k.sched, p), k.ipc.(status := k.ipc.status[p := Ipc.Ready]))
  }

  lemma StartKeeps(k: State, p: Proc)
    requires Booting(k) && p in k.ipc.status && k.ipc.status[p] == Ipc.Empty
    ensures p in k.sched.ticks && Booting(Start(k, p)) && p in Start(k, p).sched.ready
  {
    hide Ipc.Inv, SchedInv, Enqueue;
    assert p in k.ipc.status.Keys;
    EnqueueKeeps(k.sched, p);
    EnqueueFrame(k.sched, p);
    StartedInv(k.ipc, p);
  }

  lemma EnqueueFrame(s: Sched, p: Proc)
    requires SchedInv(s) && p in s.ticks
    ensures var r := Enqueue(s, p);
      r.idle == s.idle && r.cur == s.cur && r.nxt == s.nxt && r.ticks.Keys == s.ticks.Keys
  {
  }

  lemma StartedInv(v: Ipc.Ipc, p: Proc)
    requires Ipc.Inv(v) && p in v.status && v.status[p] == Ipc.Empty
    ensures var r := v.(status := v.status[p := Ipc.Ready]); Ipc.Inv(r) && (Ipc.Complete(v) ==> Ipc.Complete(r))
  {
    var r := v.(status := v.status[p := Ipc.Ready]);
    assert forall x {:trigger Ipc.Lost(r, x)} :: Ipc.Lost(r, x) ==> Ipc.Lost(v, x);
    forall x, o {:trigger Ipc.Placed(r, x, o)} | x in r.status && o in r.lists
      ensures Ipc.Placed(r, x, o)
    {
      assert Ipc.Placed(v, x, o);
    }
  }

  /** The first pick, with nothing to charge, establishes the invariant of runs. */
  lemma FirstPick(k: State)
    requires Booting(k)
    ensures CanPick(k.sched) && Dispatch(k.sched).nxt.To?
    ensures Inv(State(Schedule(Dispatch(k.sched)), k.ipc)) && Ipc.Complete(k.ipc)
  {
    hide SchedInv, Ipc.Inv, Pick, Charge;
    BootPick(k.sched);
    DispatchKeeps(k.sched);
  }

  /** The state after the first pick and switch. */
  ghost function Begun(k: State): (r: State)
    requires Booting(k)
    ensures Inv(r)
  {
    FirstPick(k);
    State(Schedule(Dispatch(k.sched)), k.ipc)
  }

  lemma BootPick(s: Sched)
    requires SchedInv(s) && s.nxt == Nil && s.cur == s.idle
    ensures CanPick(s)
  {
  }
}
