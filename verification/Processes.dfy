/** The kernel's per-process records (task state segments extended with scheduling and IPC fields) and their table. */
module Processes {
  import opened Word32

  /** What never changes about a process; it identifies the process in the value-level models. */
  datatype Proc = Proc(
    addr: Word,        // the address user code sees as a process handle
    schedticks: Word,  // scheduling weight
    dsBase: Word,      // base of its data segment, decoded from its descriptor
    dsLimit: Word)     // limit of its data segment, decoded from its descriptor

  /** A pointer: null, to a process (or the idle task), or to anything else. */
  datatype Link = Nil | To(p: Proc) | Wild

  /** The saved user registers that system calls read and write; `esi` carries the (signed) error code. */
  datatype Regs = Regs(eax: Word, ebx: Word, ecx: Word, edx: Word, edi: Word, esi: int)

  /** The part of a process record that the scheduler uses. */
  datatype Record = Record(prev: Link, next: Link, enqueued: bool, ticks: Word)

  type Memory = map<Proc, Record>

  /** The part of a process record that message passing uses. */
  datatype Mail = Mail(
    state: bv8, firstSender: Link, nextSender: Link, receivingFrom: Word, interrupts: bv16, regs: Regs)

  type Mails = map<Proc, Mail>

  class Process {
    const id: Proc

    // Ready queue: links survive dequeueing and are then merely hints.
    var previous: Process?
    var next: Process?
    var enqueued: bool
    var ticksleft: Word

    // Inter-process communication.
    var state: bv8
    var firstSender: Process?
    var nextSender: Process?
    var receivingFrom: Word
    var interrupts: bv16
    var regs: Regs

    constructor (id: Proc)
      ensures this.id == id
      ensures next == null && previous == null && !enqueued && ticksleft == id.schedticks
      ensures state == 0 && firstSender == null && nextSender == null && receivingFrom == 0
      ensures interrupts == 0
    {
      this.id := id;
      next, previous, enqueued, ticksleft := null, null, false, id.schedticks;
      state, firstSender, nextSender, receivingFrom := 0, null, null, 0;
      interrupts := 0;
      regs := Regs(0, 0, 0, 0, 0, 0);
    }
  }

  /** The process table, with the idle task beside it. Every store into a record goes through here. */
  class ProcessTable {
    const idle: Process
    ghost const procs: set<Process>
    ghost const objs: map<Proc, Process>   // the process objects by identity
    ghost var mem: Memory                  // what the records hold for the scheduler
    ghost var mails: Mails                 // what they hold for message passing

    /** `objs` is a bijection between identities and the process objects. */
    ghost predicate Objects() {
      && (forall x {:trigger objs[x]} :: x in objs ==> objs[x].id == x && objs[x] in procs)
      && (forall p {:trigger p.id} :: p in procs ==> p.id in objs && objs[p.id] == p)
      && idle.id !in objs
    }

    /** What a pointer means. */
    ghost function Ref(p: Process?): Link {
      if p == null then Nil
      else if p == idle || (p.id in objs && objs[p.id] == p) then To(p.id)
      else Wild
    }

    ghost function Contents(p: Process): Record
      reads p`previous, p`next, p`enqueued, p`ticksleft
    {
      Record(Ref(p.previous), Ref(p.next), p.enqueued, p.ticksleft)
    }

    ghost function MailOf(p: Process): Mail
      reads p`state, p`firstSender, p`nextSender, p`receivingFrom, p`interrupts, p`regs
    {
      Mail(p.state, Ref(p.firstSender), Ref(p.nextSender), p.receivingFrom, p.interrupts, p.regs)
    }

    ghost predicate Valid()
      reads this, procs
    {
      && Objects()
      && mem.Keys == objs.Keys && mails.Keys == objs.Keys
      && (forall p {:trigger Contents(p)} :: p in procs ==> p.id in mem && mem[p.id] == Contents(p))
      && (forall p {:trigger MailOf(p)} :: p in procs ==> p.id in mails && mails[p.id] == MailOf(p))
    }

    constructor (idle: Process, ghost objs: map<Proc, Process>)
      requires forall x {:trigger objs[x]} :: x in objs ==> objs[x].id == x
      requires idle.id !in objs
      ensures Valid() && this.idle == idle && this.objs == objs && procs == objs.Values
      ensures forall p {:trigger Contents(p)} :: p in procs ==> mem[p.id] == Contents(p)
      ensures forall p {:trigger MailOf(p)} :: p in procs ==> mails[p.id] == MailOf(p)
    {
      hide Contents, MailOf;
      this.idle := idle;
      this.objs := objs;
      procs := objs.Values;
      new;
      mem := map x | x in objs :: Contents(objs[x]);
      mails := map x | x in objs :: MailOf(objs[x]);
    }

    // ---------- stores ----------

    method SetPrevious(p: Process, v: Process?)
      requires Valid() && p in procs
      modifies this`mem, p`previous
      ensures Valid() && mem == old(mem)[p.id := old(mem)[p.id].(prev := Ref(v))]
    {
      assert mem[p.id] == Contents(p);
      p.previous := v;
      mem := mem[p.id := Contents(p)];
    }

    method SetNext(p: Process, v: Process?)
      requires Valid() && p in procs
      modifies this`mem, p`next
      ensures Valid() && mem == old(mem)[p.id := old(mem)[p.id].(next := Ref(v))]
    {
      assert mem[p.id] == Contents(p);
      p.next := v;
      mem := mem[p.id := Contents(p)];
    }

    method SetEnqueued(p: Process, v: bool)
      requires Valid() && p in procs
      modifies this`mem, p`enqueued
      ensures Valid() && mem == old(mem)[p.id := old(mem)[p.id].(enqueued := v)]
    {
      assert mem[p.id] == Contents(p);
      p.enqueued := v;
      mem := mem[p.id := Contents(p)];
    }

    method SetTicksleft(p: Process, v: Word)
      requires Valid() && p in procs
      modifies this`mem, p`ticksleft
      ensures Valid() && mem == old(mem)[p.id := old(mem)[p.id].(ticks := v)]
    {
      assert mem[p.id] == Contents(p);
      p.ticksleft := v;
      mem := mem[p.id := Contents(p)];
    }

    method SetState(p: Process, v: bv8)
      requires Valid() && p in procs
      modifies this`mails, p`state
      ensures Valid() && mails == old(mails)[p.id := old(mails)[p.id].(state := v)]
    {
      assert mails[p.id] == MailOf(p);
      p.state := v;
      mails := mails[p.id := MailOf(p)];
    }

    method SetFirstSender(p: Process, v: Process?)
      requires Valid() && p in procs
      modifies this`mails, p`firstSender
      ensures Valid() && mails == old(mails)[p.id := old(mails)[p.id].(firstSender := Ref(v))]
    {
      assert mails[p.id] == MailOf(p);
      p.firstSender := v;
      mails := mails[p.id := MailOf(p)];
    }

    method SetNextSender(p: Process, v: Process?)
      requires Valid() && p in procs
      modifies this`mails, p`nextSender
      ensures Valid() && mails == old(mails)[p.id := old(mails)[p.id].(nextSender := Ref(v))]
    {
      assert mails[p.id] == MailOf(p);
      p.nextSender := v;
      mails := mails[p.id := MailOf(p)];
    }

    method SetReceivingFrom(p: Process, v: Word)
      requires Valid() && p in procs
      modifies this`mails, p`receivingFrom
      ensures Valid() && mails == old(mails)[p.id := old(mails)[p.id].(receivingFrom := v)]
    {
      assert mails[p.id] == MailOf(p);
      p.receivingFrom := v;
      mails := mails[p.id := MailOf(p)];
    }

    /** The awaited sender and the state bits. */
    method SetWaiting(p: Process, receivingFrom: Word, state: bv8)
      requires Valid() && p in procs
      modifies this`mails, p`receivingFrom, p`state
      ensures Valid()
      ensures mails == old(mails)[p.id := old(mails)[p.id].(receivingFrom := receivingFrom, state := state)]
    {
      SetReceivingFrom(p, receivingFrom);
      SetState(p, state);
    }

    method SetInterrupts(p: Process, v: bv16)
      requires Valid() && p in procs
      modifies this`mails, p`interrupts
      ensures Valid() && mails == old(mails)[p.id := old(mails)[p.id].(interrupts := v)]
    {
      assert mails[p.id] == MailOf(p);
      p.interrupts := v;
      mails := mails[p.id := MailOf(p)];
    }

    method SetRegs(p: Process, v: Regs)
      requires Valid() && p in procs
      modifies this`mails, p`regs
      ensures Valid() && mails == old(mails)[p.id := old(mails)[p.id].(regs := v)]
    {
      assert mails[p.id] == MailOf(p);
      p.regs := v;
      mails := mails[p.id := MailOf(p)];
    }

    method SetLinks(p: Process, previous: Process?, next: Process?)
      requires Valid() && p in procs
      modifies this`mem, p`previous, p`next
      ensures Valid()
      ensures mem == old(mem)[p.id := old(mem)[p.id].(prev := Ref(previous), next := Ref(next))]
    {
      SetPrevious(p, previous);
      SetNext(p, next);
    }
  }
}
