/** Runs from boot that leave a process waiting in vain: a second registration, and a receiver that leaves. */
module BootRuns {
  import opened Word32
  import opened Processes
  import opened ReadyQueue
  import opened KernelModel
  import opened KernelRuns
  import opened LostSenders
  import Features
  import Ipc
  import IpcInvariant
  import KernelMemory
  import MailMemory
  import UnitWeights

  // ---------- two processes ----------

  /** `c` runs and `x` is ready, both with unit weights, and nothing has been registered or sent yet. */
  ghost predicate Pair(k: State, c: Proc, x: Proc) {
    && Inv(k) && UnitWeights.Unit(k.sched) && c != x && k.ipc.status.Keys == {c, x}
    && (k.sched.ready == [c, x] || k.sched.ready == [x, c]) && k.sched.cur == c
    && (forall i {:trigger k.ipc.suppliers[i]} :: 0 <= i < Ipc.FEATURE_SLOTS ==> k.ipc.suppliers[i] == Nil)
    && (forall o {:trigger k.ipc.lists[o]} :: o in k.ipc.lists ==> k.ipc.lists[o] == [])
  }

  ghost function Call(eax: Word, ebx: Word): Event {
    Event(2, Regs(eax, ebx, 0, 0, 0, 0), Ipc.Device(0, 0))
  }

  const CLOCK: Event := Event(0, Regs(0, 0, 0, 0, 0, 0), Ipc.Device(0, 0))
  const FIRST: Word := 1    // the features of slots 0 and 1
  const SECOND: Word := 2

  lemma TwoFeatures()
    ensures Features.IsFeature(FIRST) && Features.LowBit(FIRST) == 0
    ensures Features.IsFeature(SECOND) && Features.LowBit(SECOND) == 1
  {
    assert Features.PopCount(1) == 1 + Features.PopCount(0);
    assert Features.PopCount(2) == 0 + Features.PopCount(1);
    assert Features.LowBit(2) == 1 + Features.LowBit(1);
  }

  /** `c` registers the second feature; then `x` runs. */
  lemma Registers(k: State, c: Proc, x: Proc)
    requires Pair(k, c, x)
    ensures var e := Call(Ipc.SYS_SETFEATURE, SECOND);
      && Possible(k, e)
      && var r := Step(k, e);
      && Inv(r) && r.sched.cur == x && x != r.sched.idle && r.ipc.status.Keys == {c, x}
      && r.ipc.status[c] == Ipc.Ready && r.ipc.suppliers[1] == To(c) && r.ipc.suppliers[0] == Nil
      && Ipc.Senders(c) in r.ipc.lists && r.ipc.lists[Ipc.Senders(c)] == []
      && UnitWeights.Unit(r.sched) && r.sched.ready == k.sched.ready
  {
    var e := Call(Ipc.SYS_SETFEATURE, SECOND);
    TwoFeatures();
    IdleNotReady(k.sched);
    SaveKeeps(k, e);
    StepKeeps(k, e);
    RegisterOutcome(k, e, c, x);
    var i := if k.sched.ready == [c, x] then 0 else 1;
    UnitWeights.QuietStep(k, e, i);
    UnitWeights.StepUnit(k, e);
  }

  lemma RegisterOutcome(k: State, e: Event, c: Proc, x: Proc)
    requires Pair(k, c, x) && e == Call(Ipc.SYS_SETFEATURE, SECOND) && Possible(k, e)
    ensures UnitWeights.Quiet(k, e)
    ensures var v := Outcome(k, e).ipc;
      && v.status.Keys == {c, x} && v.status[c] == Ipc.Ready && |v.suppliers| == Ipc.FEATURE_SLOTS
      && v.suppliers[1] == To(c) && v.suppliers[0] == Nil
      && Ipc.Senders(c) in v.lists && v.lists[Ipc.Senders(c)] == []
  {
    TwoFeatures();
    SaveKeeps(k, e);
    var v := Save(k, e);
    assert Outcome(k, e) == Ipc.Fail(Ipc.HandOver(v, c, 1), c, Ipc.OK);
    assert c in k.ipc.status.Keys && v.lists[Ipc.Waiters(1)] == [];
    assert c in k.sched.ready && k.ipc.status[c] == Ipc.Ready;
  }

  /** `x` sends to the second feature and waits; then `c` runs. */
  lemma Sends(k: State, c: Proc, x: Proc)
    requires Inv(k) && c != x && k.sched.cur == x && x != k.sched.idle && k.ipc.status.Keys == {c, x}
    requires k.ipc.status[c] == Ipc.Ready && k.ipc.suppliers[1] == To(c) && k.ipc.suppliers[0] == Nil
    requires Ipc.Senders(c) in k.ipc.lists && k.ipc.lists[Ipc.Senders(c)] == []
    ensures var e := Call(Ipc.SYS_SEND_BY_FEATURE, SECOND);
      && Possible(k, e)
      && var r := Step(k, e);
      && Inv(r) && r.sched.cur == c && c != r.sched.idle && c in r.ipc.status
      && r.ipc.suppliers[0] == Nil
      && Ipc.Senders(c) in r.ipc.lists && r.ipc.lists[Ipc.Senders(c)] == [x]
  {
    var e := Call(Ipc.SYS_SEND_BY_FEATURE, SECOND);
    TwoFeatures();
    SaveKeeps(k, e);
    StepKeeps(k, e);
    SendOutcome(k, e, c, x);
    OnlyOneReady(Step(k, e), c, x);
  }

  lemma SendOutcome(k: State, e: Event, c: Proc, x: Proc)
    requires Inv(k) && c != x && k.sched.cur == x && x != k.sched.idle && k.ipc.status.Keys == {c, x}
    requires k.ipc.status[c] == Ipc.Ready && k.ipc.suppliers[1] == To(c) && k.ipc.suppliers[0] == Nil
    requires Ipc.Senders(c) in k.ipc.lists && k.ipc.lists[Ipc.Senders(c)] == []
    requires e == Call(Ipc.SYS_SEND_BY_FEATURE, SECOND) && Possible(k, e)
    ensures var v := Outcome(k, e).ipc;
      && v.status.Keys == {c, x} && v.status[c] == Ipc.Ready && v.status[x].Queued?
      && |v.suppliers| == Ipc.FEATURE_SLOTS && v.suppliers[0] == Nil
      && Ipc.Senders(c) in v.lists && v.lists[Ipc.Senders(c)] == [x]
  {
    TwoFeatures();
    SaveKeeps(k, e);
    var v := Save(k, e);
    assert Outcome(k, e) == Ipc.SendToSlot(v, x, 1);
    var w := v.(regs := v.regs[x := v.regs[x].(ebx := c.addr)]);
    assert Outcome(k, e) == Ipc.Send(w, x, c);
    assert Outcome(k, e).ipc == Ipc.Append(w, x, Ipc.Senders(c), true);
  }

  lemma OnlyOneReady(k: State, c: Proc, x: Proc)
    requires Inv(k) && k.ipc.status.Keys == {c, x} && k.ipc.status[c] == Ipc.Ready && k.ipc.status[x] != Ipc.Ready
    ensures k.sched.cur == c && c != k.sched.idle && c in k.ipc.status
  {
    IdleNotReady(k.sched);
    assert c in k.sched.ready && k.sched.cur in k.sched.ready;
    assert k.sched.cur in k.ipc.status.Keys;
  }

  /** `c` registers the first feature, and `x` is lost. */
  lemma RegistersAgain(k: State, c: Proc, x: Proc)
    requires Inv(k) && k.sched.cur == c && c != k.sched.idle && c in k.ipc.status && k.ipc.suppliers[0] == Nil
    requires Ipc.Senders(c) in k.ipc.lists && k.ipc.lists[Ipc.Senders(c)] == [x]
    ensures Possible(k, Call(Ipc.SYS_SETFEATURE, FIRST)) && Loses(k, Call(Ipc.SYS_SETFEATURE, FIRST), x)
  {
    TwoFeatures();
    SaveKeeps(k, Call(Ipc.SYS_SETFEATURE, FIRST));
  }

  /** The three calls one after the other. */
  ghost function Calls(): seq<Event> {
    [Call(Ipc.SYS_SETFEATURE, SECOND), Call(Ipc.SYS_SEND_BY_FEATURE, SECOND), Call(Ipc.SYS_SETFEATURE, FIRST)]
  }

  lemma PairLoses(k: State, c: Proc, x: Proc)
    requires Pair(k, c, x)
    ensures Feasible(k, Calls()) && LosesIn(k, Calls(), x)
  {
    hide Pair, Inv, Possible, Step, Loses, Call;
    PairInv(k, c, x);
    Registers(k, c, x);
    var k1 := Step(k, Calls()[0]);
    Sends(k1, c, x);
    var k2 := Step(k1, Calls()[1]);
    RegistersAgain(k2, c, x);
    assert Calls()[1..][0] == Calls()[1] && Calls()[1..][1..] == [Calls()[2]];
    StepKeeps(k2, Calls()[2]);
    assert Feasible(k2, [Calls()[2]]) && LosesIn(k2, [Calls()[2]], x) by {
      assert [Calls()[2]][1..] == [];
    }
    assert Feasible(k1, Calls()[1..]) && LosesIn(k1, Calls()[1..], x);
  }

  // ---------- a receiver leaves ----------

  /** `c` supplies the second feature, nobody waits for it, and both processes are ready. */
  ghost predicate Supplying(k: State, c: Proc, x: Proc) {
    && Inv(k) && c != x && k.sched.cur != k.sched.idle && k.ipc.status.Keys == {c, x}
    && k.ipc.status[c] == Ipc.Ready && k.ipc.status[x] == Ipc.Ready && k.ipc.suppliers[1] == To(c)
    && Ipc.Senders(c) in k.ipc.lists && k.ipc.lists[Ipc.Senders(c)] == []
  }

  /** Nothing but the clock: the other process runs. */
  lemma Ticks(k: State, c: Proc, x: Proc)
    requires Inv(k) && c != x && k.sched.cur == x && x != k.sched.idle && k.ipc.status.Keys == {c, x}
    requires k.ipc.status[c] == Ipc.Ready && k.ipc.suppliers[1] == To(c)
    requires Ipc.Senders(c) in k.ipc.lists && k.ipc.lists[Ipc.Senders(c)] == []
    requires UnitWeights.Unit(k.sched) && (k.sched.ready == [c, x] || k.sched.ready == [x, c])
    ensures Possible(k, CLOCK) && Supplying(Step(k, CLOCK), c, x) && Step(k, CLOCK).sched.cur == c
  {
    SaveKeeps(k, CLOCK);
    StepKeeps(k, CLOCK);
    UnitWeights.QuietStep(k, CLOCK, if k.sched.ready == [c, x] then 1 else 0);
    IdleNotReady(Step(k, CLOCK).sched);
    assert x in k.sched.ready;
  }

  /** `c` leaves; then `x` runs. */
  lemma Leaves(k: State, c: Proc, x: Proc)
    requires Supplying(k, c, x) && k.sched.cur == c
    ensures var e := Call(Ipc.SYS_EXIT, 0);
      && Possible(k, e)
      && var r := Step(k, e);
      && Inv(r) && r.sched.cur == x && x != r.sched.idle && x in r.ipc.status
      && c in r.ipc.status && c != x && r.ipc.status[c] == Ipc.Empty && r.ipc.suppliers[1] == To(c)
  {
    hide Ipc.Interrupt, Ipc.Exclusive, Ipc.NoMissed, Ipc.Shape, SchedInv, Dispatched, Save;
    var e := Call(Ipc.SYS_EXIT, 0);
    StepKeeps(k, e);
    ExitOutcome(k, e, c, x);
    OnlyOneReady(Step(k, e), x, c);
  }

  lemma ExitOutcome(k: State, e: Event, c: Proc, x: Proc)
    requires Supplying(k, c, x) && k.sched.cur == c && e == Call(Ipc.SYS_EXIT, 0) && Possible(k, e)
    ensures var v := Outcome(k, e).ipc;
      && v.status.Keys == {c, x} && v.status[c] == Ipc.Empty && v.status[x] == Ipc.Ready
      && |v.suppliers| == Ipc.FEATURE_SLOTS && v.suppliers[1] == To(c)
  {
    SaveKeeps(k, e);
    IpcInvariant.ExitEffects(Save(k, e), c, x);
    assert Outcome(k, e) == Ipc.Exit(Save(k, e), c);
  }

  /** `x` sends to the feature of a process that has left. */
  lemma SendsTooLate(k: State, c: Proc, x: Proc)
    requires Inv(k) && k.sched.cur == x && x != k.sched.idle && x in k.ipc.status
    requires c in k.ipc.status && c != x && k.ipc.status[c] == Ipc.Empty && k.ipc.suppliers[1] == To(c)
    ensures var e := Call(Ipc.SYS_SEND_BY_FEATURE, SECOND); Possible(k, e) && Abandons(k, e, x)
  {
    TwoFeatures();
    SaveKeeps(k, Call(Ipc.SYS_SEND_BY_FEATURE, SECOND));
  }

  ghost function LateCalls(): seq<Event> {
    [Call(Ipc.SYS_SETFEATURE, SECOND), CLOCK, Call(Ipc.SYS_EXIT, 0), Call(Ipc.SYS_SEND_BY_FEATURE, SECOND)]
  }

  lemma PairAbandons(k: State, c: Proc, x: Proc)
    requires Pair(k, c, x)
    ensures Feasible(k, LateCalls()) && AbandonsIn(k, LateCalls(), x)
  {
    hide Pair, Inv, Possible, Step, Abandons, Call, Supplying, UnitWeights.Unit;
    PairInv(k, c, x);
    var es := LateCalls();
    Registers(k, c, x);
    var k1 := Step(k, es[0]);
    Ticks(k1, c, x);
    var k2 := Step(k1, es[1]);
    Leaves(k2, c, x);
    var k3 := Step(k2, es[2]);
    SendsTooLate(k3, c, x);
    StepKeeps(k1, es[1]);
    StepKeeps(k3, es[3]);
    assert [es[3]][1..] == [] && es[1..][1..] == [es[2], es[3]] && es[1..][1..][1..] == [es[3]];
    assert Feasible(k3, [es[3]]) && AbandonsIn(k3, [es[3]], x);
    assert Feasible(k2, [es[2], es[3]]) && AbandonsIn(k2, [es[2], es[3]], x);
    assert Feasible(k1, es[1..]) && AbandonsIn(k1, es[1..], x);
  }

  lemma PairInv(k: State, c: Proc, x: Proc)
    requires Pair(k, c, x)
    ensures Inv(k) && c != x && (k.sched.ready == [c, x] || k.sched.ready == [x, c])
  {
  }

  // ---------- from boot ----------

  const P1: Proc := Proc(1, 1, 0, 0)
  const P2: Proc := Proc(2, 1, 0, 0)
  const IDLE: Proc := Proc(3, 1, 0, 0)

  ghost function NoRecords(): Mails {
    var unused := Mail(MailMemory.EMPTY, Nil, Nil, 0, 0, Regs(0, 0, 0, 0, 0, 0));
    map[P1 := unused, P2 := unused]
  }

  /** Room for two processes of weight 1, none of them in use. */
  ghost function Vacant(): State {
    State(Initial([P1, P2], IDLE, map[P1 := 1, P2 := 1]), KernelMemory.Initial(NoRecords(), seq(W, i => 0)))
  }

  lemma VacantRoster()
    ensures Roster([P1, P2], {P1, P2}) && Total([P1, P2]) == 2
  {
    assert {P1, P2} - {P1} == {P2} && {P2} - {P2} == {};
    assert [P1, P2][1..] == [P2] && [P2][1..] == [];
    assert Roster([P2], {P2});
    assert Total([P2]) == 1;
  }

  lemma VacantMail()
    ensures var v := Vacant().ipc;
      && Ipc.Inv(v) && Ipc.Complete(v) && v.status == map[P1 := Ipc.Empty, P2 := Ipc.Empty]
      && v.suppliers == KernelMemory.Nils(Ipc.FEATURE_SLOTS)
      && (forall o {:trigger v.lists[o]} :: o in v.lists ==> v.lists[o] == [])
  {
    hide Ipc.Inv, Ipc.Complete;
    KernelMemory.InitialMailed(NoRecords(), seq(W, i => 0));
  }

  lemma VacantSched()
    ensures var s := Vacant().sched;
      && s == Initial([P1, P2], IDLE, s.ticks) && s.ticks == map[P1 := 1, P2 := 1] && s.ticks.Keys == {P1, P2}
      && UnitWeights.AllOnes(s)
  {
  }

  lemma VacantBoots()
    ensures Booting(Vacant()) && UnitWeights.AllOnes(Vacant().sched) && Vacant().sched.ready == []
    ensures var v := Vacant().ipc;
      && v.status == map[P1 := Ipc.Empty, P2 := Ipc.Empty] && v.suppliers == KernelMemory.Nils(Ipc.FEATURE_SLOTS)
      && (forall o {:trigger v.lists[o]} :: o in v.lists ==> v.lists[o] == [])
  {
    hide Ipc.Inv, SchedInv, Vacant, Booting, Roster, Total, UnitWeights.AllOnes;
    VacantRoster();
    VacantMail();
    VacantSched();
    BootBegins([P1, P2], IDLE, Vacant().sched.ticks, Vacant().ipc);
  }

  /** `p` and `q` have been started, and nothing has been registered or sent. */
  ghost predicate Started(k: State, p: Proc, q: Proc) {
    && Booting(k) && UnitWeights.AllOnes(k.sched) && p != q && k.ipc.status.Keys == {p, q}
    && (k.sched.ready == [p, q] || k.sched.ready == [q, p])
    && (forall i {:trigger k.ipc.suppliers[i]} :: 0 <= i < |k.ipc.suppliers| ==> k.ipc.suppliers[i] == Nil)
    && (forall o {:trigger k.ipc.lists[o]} :: o in k.ipc.lists ==> k.ipc.lists[o] == [])
  }

  lemma BothStart()
    ensures Booting(Vacant()) && P1 in Vacant().ipc.status && P1 in Vacant().sched.ticks
    ensures var a := Start(Vacant(), P1);
      Booting(a) && P2 in a.ipc.status && P2 in a.sched.ticks && Started(Start(a, P2), P1, P2)
  {
    hide Booting, Start, Vacant, UnitWeights.AllOnes;
    VacantBoots();
    StartsBehind(Vacant(), P1);
    UnitWeights.StartOnes(Vacant(), P1);
    var a := Start(Vacant(), P1);
    StartsBehind(a, P2);
    UnitWeights.StartOnes(a, P2);
  }

  lemma StartsBehind(k: State, p: Proc)
    requires Booting(k) && p in k.ipc.status && k.ipc.status[p] == Ipc.Empty && |k.sched.ready| <= 1
    ensures p in k.sched.ticks && Booting(Start(k, p))
    ensures Start(k, p).ipc == k.ipc.(status := k.ipc.status[p := Ipc.Ready])
    ensures var q := k.sched.ready; var r := Start(k, p).sched.ready;
      if q == [] then r == [p] else r == [p] + q || r == q + [p]
  {
    hide Ipc.Inv;
    StartKeeps(k, p);
    EnqueueShape(k.sched, p);
  }

  /** Both processes have been started, and one of them has been picked. */
  ghost function Booted(): State {
    BothStart();
    Begun(Start(Start(Vacant(), P1), P2))
  }

  /** After the first pick one of two started processes runs. */
  lemma PickPairs(k: State, p: Proc, q: Proc) returns (c: Proc, x: Proc)
    requires Started(k, p, q)
    ensures CanPick(k.sched) && Dispatch(k.sched).nxt.To?
    ensures Pair(State(Schedule(Dispatch(k.sched)), k.ipc), c, x)
  {
    hide UnitWeights.AllOnes, UnitWeights.Unit, SchedInv, Dispatch, Ipc.Exclusive, Ipc.NoMissed;
    FirstPick(k);
    UnitWeights.FirstPickUnit(k);
    DispatchKeeps(k.sched);
    c := Schedule(Dispatch(k.sched)).cur;
    x := if c == p then q else p;
  }

  lemma BootedPair() returns (c: Proc, x: Proc)
    ensures Pair(Booted(), c, x) && Ipc.Complete(Booted().ipc)
  {
    hide Started, Booting, Start, Vacant, Pair, Dispatch, Ipc.Complete;
    BothStart();
    var k := Start(Start(Vacant(), P1), P2);
    StartedBoots(k, P1, P2);
    c, x := PickPairs(k, P1, P2);
  }

  lemma StartedBoots(k: State, p: Proc, q: Proc)
    requires Started(k, p, q)
    ensures Booting(k) && Ipc.Complete(k.ipc)
  {
  }

  /** From boot on, three calls lose a process: nobody was lost before, and after any later events it still is. */
  lemma OverwritingHappens() returns (x: Proc)
    ensures Inv(Booted()) && Ipc.Complete(Booted().ipc) && Feasible(Booted(), Calls())
    ensures LosesIn(Booted(), Calls(), x)
    ensures var r := Run(Booted(), Calls());
      Ipc.Lost(r.ipc, x) && forall es {:trigger Feasible(r, es)} :: Feasible(r, es) ==> x !in Run(r, es).sched.ready
  {
    hide Booted, Calls, Inv, Ipc.Lost;
    var c;
    c, x := BootedPair();
    PairInv(Booted(), c, x);
    PairLoses(Booted(), c, x);
    RunLoses(Booted(), Calls(), x);
    var r := Run(Booted(), Calls());
    forall es | Feasible(r, es)
      ensures x !in Run(r, es).sched.ready
    {
      LostForEver(r, es, x);
    }
  }

  /** From boot on, four events leave a process waiting for one that has left: it never becomes ready again. */
  lemma AbandoningHappens() returns (x: Proc)
    ensures Inv(Booted()) && Feasible(Booted(), LateCalls()) && AbandonsIn(Booted(), LateCalls(), x)
    ensures var r := Run(Booted(), LateCalls());
      && IpcInvariant.Abandoned(r.ipc, x)
      && forall es {:trigger Feasible(r, es)} :: Feasible(r, es) ==> x !in Run(r, es).sched.ready
  {
    hide Booted, LateCalls, Inv, IpcInvariant.Abandoned;
    var c;
    c, x := BootedPair();
    PairInv(Booted(), c, x);
    PairAbandons(Booted(), c, x);
    RunAbandons(Booted(), LateCalls(), x);
    var r := Run(Booted(), LateCalls());
    forall es | Feasible(r, es)
      ensures x !in Run(r, es).sched.ready
    {
      AbandonedForEver(r, es, x);
    }
  }
}
