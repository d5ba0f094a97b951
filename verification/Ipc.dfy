/** Message passing, features and interrupts as a value: who waits where, and what each system call does about it. */
module Ipc {
  import opened Word32
  import opened Processes
  import Features
  import Ram
  import ReadyQueue

  // Error codes reported in the saved esi register.
  const OK := 0
  const UNKNOWNSYSCALL := -1
  const INVALIDBUFFER := -2
  const CIRCULARSEND := -3
  const WOULDBLOCK := -4
  const INVALIDFEATURE := -5
  const INVALIDIRQ := -6
  const IRQINUSE := -7
  const PROCESSDIED := -8
  const FEATUREBUSY := -11

  // System call numbers, passed in the saved eax register.
  const SYS_EXIT: Word := 0
  const SYS_SETFEATURE: Word := 1
  const SYS_RECEIVE: Word := 2
  const SYS_SEND_BY_FEATURE: Word := 3
  const SYS_REQUEST_IRQ: Word := 4
  const NO_SYSCALLS: Word := 11

  const ANYPROC: Word := 0
  const BLOCK: Word := 1          // a sender without a receiver asks to wait
  const FEATURE_SLOTS: nat := 4
  const MAX_IRQ: nat := 15

  /** Whose list a process waits in: a process's senders or a supplierless feature's waiters. */
  datatype Owner = Senders(p: Proc) | Waiters(slot: nat)

  /** What a process is doing; `flagged` tells whether its SENDING bit is set. */
  datatype Status = Ready | Empty | Receiving(from: Word) | Queued(at: Owner, flagged: bool)

  datatype Ipc = Ipc(
    status: map<Proc, Status>,
    lists: map<Owner, seq<Proc>>,      // waiting processes, longest waiting first
    suppliers: seq<Link>,              // per feature slot
    irqs: seq<Link>,                   // per interrupt line
    interrupts: map<Proc, bv16>,       // latched interrupts
    regs: map<Proc, Regs>,
    ram: seq<Byte>)

  /** The effect of a system call or interrupt: the new state, whom to enqueue, and whether the caller blocks. */
  datatype Outcome = Outcome(ipc: Ipc, wake: seq<Proc>, block: bool)

  // ---------- well-formedness ----------

  ghost predicate Slot(o: Owner, procs: set<Proc>) {
    match o
    case Senders(p) => p in procs
    case Waiters(f) => f < FEATURE_SLOTS
  }

  ghost predicate LinkIn(l: Link, procs: set<Proc>) {
    l == Nil || (l.To? && l.p in procs)
  }

  /** The tables have the right shape. */
  ghost predicate Shape(v: Ipc) {
    && v.interrupts.Keys == v.status.Keys && v.regs.Keys == v.status.Keys
    && (forall o {:trigger o in v.lists} :: o in v.lists <==> Slot(o, v.status.Keys))
    && |v.suppliers| == FEATURE_SLOTS && (forall i :: 0 <= i < FEATURE_SLOTS ==> LinkIn(v.suppliers[i], v.status.Keys))
    && |v.irqs| == MAX_IRQ + 1 && (forall i :: 0 <= i <= MAX_IRQ ==> LinkIn(v.irqs[i], v.status.Keys))
    && |v.ram| == W
  }

  /** A process stands in no list but the one its status names. */
  ghost predicate Placed(v: Ipc, p: Proc, o: Owner)
    requires p in v.status && o in v.lists
  {
    p in v.lists[o] ==> v.status[p].Queued? && v.status[p].at == o
  }

  /** Only processes wait. */
  ghost predicate Listed(v: Ipc) {
    forall o, i {:trigger v.lists[o][i]} :: o in v.lists && 0 <= i < |v.lists[o]| ==> v.lists[o][i] in v.status
  }

  /** Lists hold only processes queued there, each once. */
  ghost predicate Exclusive(v: Ipc) {
    && (forall o {:trigger v.lists[o]} :: o in v.lists ==> ReadyQueue.NoDup(v.lists[o]))
    && Listed(v)
    && (forall p, o {:trigger Placed(v, p, o)} :: p in v.status && o in v.lists ==> Placed(v, p, o))
  }

  /** A process that waits to send but stands in no list, so that nobody can find it. */
  ghost predicate Lost(v: Ipc, p: Proc) {
    p in v.status && v.status[p].Queued? && !(v.status[p].at in v.lists && p in v.lists[v.status[p].at])
  }

  /** Nobody is lost: the lists partition the queued processes. */
  ghost predicate Complete(v: Ipc) {
    forall p {:trigger Lost(v, p)} :: !Lost(v, p)
  }

  // ---------- searching ----------

  /** The sender a receive would take: the first one for ANYPROC, else the one with the given handle. */
  ghost function FindSender(q: seq<Proc>, desired: Word): (l: Link)
    ensures l == Nil || (l.To? && l.p in q)
  {
    if q == [] then Nil
    else if desired == ANYPROC || q[0].addr == desired then To(q[0])
    else FindSender(q[1..], desired)
  }

  ghost predicate ReceivingFrom(v: Ipc, receiver: Proc, sender: Proc)
    requires receiver in v.status
  {
    v.status[receiver].Receiving? && (v.status[receiver].from == ANYPROC || v.status[receiver].from == sender.addr)
  }

  /** No rendezvous was missed: a blocked receiver has neither a latched interrupt nor a sender it would accept. */
  ghost predicate NoMissed(v: Ipc) {
    forall p {:trigger v.status[p]} :: p in v.status && v.status[p].Receiving? ==>
      && p in v.interrupts && v.interrupts[p] == 0
      && Senders(p) in v.lists && FindSender(v.lists[Senders(p)], v.status[p].from) == Nil
  }

  ghost predicate Inv(v: Ipc) {
    Shape(v) && Exclusive(v) && NoMissed(v)
  }

  // ---------- elementary effects ----------

  ghost function SetErr(v: Ipc, p: Proc, e: int): Ipc
    requires p in v.regs
  {
    v.(regs := v.regs[p := v.regs[p].(esi := e)])
  }

  ghost function SetEax(v: Ipc, p: Proc, n: Word): Ipc
    requires p in v.regs
  {
    v.(regs := v.regs[p := v.regs[p].(eax := n)])
  }

  /** The data area the caller named lies within its segment (the end is computed modulo 2^32). */
  predicate ValidArea(p: Proc, r: Regs) {
    !(p.dsLimit < Add(r.edx, r.ecx))
  }

  function CopyLength(sender: Regs, receiver: Regs): Word {
    if sender.ecx > receiver.ecx then receiver.ecx else sender.ecx
  }

  /** Copy the message and report the byte count to both sides. */
  ghost function Exchange(v: Ipc, sender: Proc, receiver: Proc): Ipc
    requires sender in v.regs && receiver in v.regs && |v.ram| == W
  {
    var n := CopyLength(v.regs[sender], v.regs[receiver]);
    var src := Add(sender.dsBase, v.regs[sender].edx);
    var dst := Add(receiver.dsBase, v.regs[receiver].edx);
    SetEax(SetEax(v.(ram := Ram.Copy(v.ram, dst, src, n)), sender, n), receiver, n)
  }

  ghost function Wake(v: Ipc, p: Proc): Ipc {
    v.(status := v.status[p := Ready])
  }

  ghost function Append(v: Ipc, p: Proc, o: Owner, flagged: bool): Ipc
    requires o in v.lists
  {
    v.(lists := v.lists[o := v.lists[o] + [p]], status := v.status[p := Queued(o, flagged)])
  }

  // ---------- system calls of the running process c ----------

  ghost function Fail(v: Ipc, c: Proc, e: int): Outcome
    requires c in v.regs
  {
    Outcome(SetErr(v, c, e), [], false)
  }

  ghost function Send(v: Ipc, c: Proc, r: Proc): Outcome
    requires Shape(v) && c in v.status && r in v.status
  {
    if !ValidArea(c, v.regs[c]) then Fail(v, c, INVALIDBUFFER)
    else if ReceivingFrom(v, r, c) then
      Outcome(SetErr(SetErr(Wake(Exchange(v, c, r), r), c, OK), r, OK), [r], false)
    else Outcome(Append(v, c, Senders(r), true), [], true)
  }

  ghost predicate FeatureOk(f: Word) {
    Features.IsFeature(f) ==> Features.LowBit(f) < FEATURE_SLOTS
  }

  /** Send to whoever supplies the slot; without a supplier wait for one, if the caller agreed to. */
  ghost function SendToSlot(v: Ipc, c: Proc, slot: nat): Outcome
    requires Shape(v) && c in v.status && slot < FEATURE_SLOTS
  {
    var supplier := v.suppliers[slot];
    if supplier == To(c) then Fail(v, c, CIRCULARSEND)
    else if supplier.To? then
      Send(v.(regs := v.regs[c := v.regs[c].(ebx := supplier.p.addr)]), c, supplier.p)
    else if v.regs[c].edi == BLOCK then Outcome(Append(v, c, Waiters(slot), false), [], true)
    else Fail(v, c, WOULDBLOCK)
  }

  ghost function SendByFeature(v: Ipc, c: Proc): Outcome
    requires Shape(v) && c in v.status && FeatureOk(v.regs[c].ebx)
  {
    var f := v.regs[c].ebx;
    if !Features.IsFeature(f) then Fail(v, c, INVALIDFEATURE) else SendToSlot(v, c, Features.LowBit(f))
  }

  ghost function Receive(v: Ipc, c: Proc): Outcome
    requires Shape(v) && Listed(v) && c in v.status
  {
    if !ValidArea(c, v.regs[c]) then Fail(v, c, INVALIDBUFFER)
    else if v.interrupts[c] != 0 then
      Fail(SetEax(v.(interrupts := v.interrupts[c := 0]), c, 0), c, v.interrupts[c] as int)
    else
      var q := v.lists[Senders(c)];
      var s := FindSender(q, v.regs[c].ebx);
      if s.To? then
        var x := Wake(Exchange(v, s.p, c), s.p);
        var y := x.(lists := x.lists[Senders(c) := ReadyQueue.Remove(q, s.p)]);
        Outcome(SetErr(SetErr(y, s.p, OK), c, OK), [s.p], false)
      else Outcome(v.(status := v.status[c := Receiving(v.regs[c].ebx)]), [], true)
  }

  /** Waiting elsewhere; the state bits of the process do not change. */
  function Moved(s: Status, o: Owner): Status {
    if s.Queued? then Queued(o, s.flagged) else s
  }

  /** The waiters of a slot become senders of its new supplier; whatever list the supplier had is overwritten. */
  ghost function HandOver(v: Ipc, c: Proc, slot: nat): Ipc
    requires Shape(v) && c in v.status && slot < FEATURE_SLOTS
  {
    var w := v.lists[Waiters(slot)];
    v.(suppliers := v.suppliers[slot := To(c)],
       lists := v.lists[Senders(c) := w][Waiters(slot) := []],
       status := map p | p in v.status :: if p in w then Moved(v.status[p], Senders(c)) else v.status[p])
  }

  ghost function SetFeature(v: Ipc, c: Proc): Outcome
    requires Shape(v) && c in v.status && FeatureOk(v.regs[c].ebx)
  {
    var f := v.regs[c].ebx;
    if !Features.IsFeature(f) then Fail(v, c, INVALIDFEATURE)
    else
      var slot := Features.LowBit(f);
      if v.suppliers[slot] != Nil then Fail(v, c, FEATUREBUSY)
      else Fail(HandOver(v, c, slot), c, OK)
  }

  ghost function Exit(v: Ipc, c: Proc): Outcome
    requires Shape(v) && c in v.status
  {
    var q := v.lists[Senders(c)];
    Outcome(
      v.(status := map p | p in v.status :: if p == c then Empty else if p in q then Ready else v.status[p],
         lists := v.lists[Senders(c) := []],
         irqs := seq(|v.irqs|, i requires 0 <= i < |v.irqs| =>
                   if i < MAX_IRQ && v.irqs[i] == To(c) then Nil else v.irqs[i]),
         regs := map p | p in v.regs :: if p in q then v.regs[p].(esi := PROCESSDIED) else v.regs[p]),
      q, true)
  }

  ghost function RequestIrq(v: Ipc, c: Proc): Outcome
    requires Shape(v) && c in v.status
  {
    var irq := v.regs[c].ebx;
    if irq == 0 || irq == 2 || irq > MAX_IRQ then Fail(v, c, INVALIDIRQ)
    else if v.irqs[irq] != Nil && v.irqs[irq] != To(c) then Fail(v, c, IRQINUSE)
    else Fail(v.(irqs := v.irqs[irq := To(c)]), c, OK)
  }

  /** What a port or address call reported back: its eax and esi. */
  datatype Device = Device(eax: Word, esi: int)

  ghost function Syscall(v: Ipc, c: Proc, dev: Device): Outcome
    requires Shape(v) && Listed(v) && c in v.status && CallOk(v.regs[c])
  {
    var n := v.regs[c].eax;
    if n >= NO_SYSCALLS then Fail(v, c, UNKNOWNSYSCALL)
    else if n == SYS_EXIT then Exit(v, c)
    else if n == SYS_SETFEATURE then SetFeature(v, c)
    else if n == SYS_RECEIVE then Receive(v, c)
    else if n == SYS_SEND_BY_FEATURE then SendByFeature(v, c)
    else if n == SYS_REQUEST_IRQ then RequestIrq(v, c)
    else Fail(SetEax(v, c, dev.eax), c, dev.esi)
  }

  /** The feature calls name a slot of the table, if they name one at all. */
  ghost predicate CallOk(r: Regs) {
    r.eax == SYS_SETFEATURE || r.eax == SYS_SEND_BY_FEATURE ==> FeatureOk(r.ebx)
  }

  // ---------- interrupts ----------

  function Mask(n: nat): bv16
    requires n <= MAX_IRQ
  {
    (1 as bv16) << n
  }

  function Latch(latched: bv16, n: nat): bv16
    requires n <= MAX_IRQ
  {
    latched | Mask(n)
  }

  /** An interrupt for `o`: delivered at once if it is receiving, else latched. */
  ghost function Notify(v: Ipc, o: Proc, n: nat): Outcome
    requires Shape(v) && o in v.status && n <= MAX_IRQ
  {
    if v.status[o].Receiving? then
      Outcome(SetEax(SetErr(Wake(v, o), o, Mask(n) as int), o, 0), [o], false)
    else Outcome(v.(interrupts := v.interrupts[o := Latch(v.interrupts[o], n)]), [], false)
  }

  /** A hardware interrupt: 0 is the clock, 2 the system call of `c`, anything else goes to its owner. */
  ghost function Interrupt(v: Ipc, c: Proc, n: nat, dev: Device): Outcome
    requires Shape(v) && Listed(v) && n <= MAX_IRQ
    requires n == 2 ==> c in v.status && CallOk(v.regs[c])
  {
    if n == 0 then Outcome(v, [], false)
    else if n == 2 then Syscall(v, c, dev)
    else if v.irqs[n].To? then Notify(v, v.irqs[n].p, n)
    else Outcome(v, [], false)
  }
}
