/** The doubly linked ready queue as memory contents: a map from processes to their link fields. */
module QueueMemory {
  import opened Word32
  import opened Processes
  import opened ReadyQueue

  /** Following `next` from `head` runs through `q`, and every `prev` points back. */
  ghost predicate Chain(q: seq<Proc>, m: Memory, head: Link) {
    && head == At(q, 0)
    && (forall i :: 0 <= i < |q| ==> q[i] in m)
    && (forall i {:trigger m[q[i]]} :: 0 <= i < |q| ==>
         m[q[i]].next == At(q, i + 1) && m[q[i]].prev == At(q, i - 1))
  }

  /** Memory `m` with queue head `head` holds the queue and the tick counts of `s`. */
  ghost predicate Holds(s: Sched, m: Memory, head: Link) {
    && m.Keys == s.ticks.Keys
    && Chain(s.ready, m, head)
    && (forall x {:trigger m[x]} :: x in m ==> m[x].ticks == s.ticks[x])
  }

  /** The ENQUEUED flags mark exactly the queue, and everyone else carries its stale links. */
  ghost predicate Settled(s: Sched, m: Memory) {
    && m.Keys == s.hints.Keys
    && (forall x {:trigger m[x]} :: x in m ==>
         && (m[x].enqueued <==> x in s.ready)
         && (x !in s.ready ==> Hint(m[x].prev, m[x].next) == s.hints[x]))
  }

  ghost predicate Mirrors(s: Sched, m: Memory, head: Link) {
    Holds(s, m, head) && Settled(s, m)
  }

  // ---------- the neighbour-validity macros ----------

  predicate EligibleFirst(m: Memory, head: Link, p: Proc) {
    head.To? && head.p.schedticks <= p.schedticks
  }

  predicate EligibleLast(m: Memory, p: Proc)
    requires p in m
  {
    m[p].prev.To? && m[p].prev.p in m && m[m[p].prev.p].enqueued && m[m[p].prev.p].next == Nil
  }

  predicate PreviousValid(m: Memory, head: Link, p: Proc)
    requires p in m
  {
    if m[p].prev.Nil? then EligibleFirst(m, head, p)
    else
      && m[p].prev.To? && m[p].prev.p in m && m[m[p].prev.p].enqueued
      && m[m[p].prev.p].next == m[p].next
      && m[p].prev.p.schedticks >= p.schedticks
  }

  predicate NextValid(m: Memory, p: Proc)
    requires p in m
  {
    if m[p].next.Nil? then EligibleLast(m, p)
    else
      && m[p].next.To? && m[p].next.p in m && m[m[p].next.p].enqueued
      && m[m[p].next.p].prev == m[p].prev
      && m[p].next.p.schedticks <= p.schedticks
  }

  predicate LastNeighboursValid(m: Memory, head: Link, p: Proc)
    requires p in m
  {
    && (m[p].prev != Nil || m[p].next != Nil)
    && PreviousValid(m, head, p)
    && NextValid(m, p)
  }

  /** The pointer tests decide exactly whether the stale links still bracket a fitting place. */
  lemma NeighboursAgree(q: seq<Proc>, m: Memory, head: Link, p: Proc)
    requires NoDup(q) && Chain(q, m, head) && p in m && p !in q
    requires m[p].prev != To(p) && m[p].next != To(p)
    requires forall x {:trigger m[x]} :: x in m && x != p ==> (m[x].enqueued <==> x in q)
    ensures LastNeighboursValid(m, head, p) <==> HintFits(q, Hint(m[p].prev, m[p].next), p)
  {
    var h := Hint(m[p].prev, m[p].next);
    var k: int := HintPosition(q, h);
    if 0 <= k < |q| {
      assert m[q[k]].prev == At(q, k - 1) && m[q[k]].enqueued;
    }
    if 0 < k {
      assert m[q[k - 1]].next == At(q, k) && m[q[k - 1]].enqueued;
    }
    if h.prev.To? && h.prev.p in q {
      var j := IndexOf(q, h.prev.p);
      assert m[q[j]].next == At(q, j + 1);
      if j + 1 < |q| {
        IndexUnique(q, j + 1);
      }
    }
  }

  // ---------- linking and unlinking ----------

  /** Make the neighbours named by `p`'s links point to `p`. */
  ghost function Attach(m: Memory, p: Proc): Memory
    requires p in m
  {
    var n := m[p];
    var m1 := if n.prev.To? && n.prev.p in m then m[n.prev.p := m[n.prev.p].(next := To(p))] else m;
    if n.next.To? && n.next.p in m1 then m1[n.next.p := m1[n.next.p].(prev := To(p))] else m1
  }

  ghost function AttachHead(m: Memory, head: Link, p: Proc): Link
    requires p in m
  {
    if m[p].prev.Nil? then To(p) else head
  }

  lemma AttachAt(m: Memory, p: Proc, x: Proc)
    requires p in m && x in m
    ensures x in Attach(m, p)
    ensures Attach(m, p)[x] == m[x].(
      next := if m[p].prev == To(x) then To(p) else m[x].next,
      prev := if m[p].next == To(x) then To(p) else m[x].prev)
  {
  }

  lemma AttachInserts(q: seq<Proc>, m: Memory, head: Link, p: Proc, k: nat)
    requires NoDup(q) && Chain(q, m, head) && p in m && p !in q && k <= |q|
    requires m[p].next == At(q, k) && m[p].prev == At(q, k - 1)
    ensures Chain(InsertAt(q, k, p), Attach(m, p), AttachHead(m, head, p))
  {
    forall i {:trigger Attach(m, p)[InsertAt(q, k, p)[i]]} | 0 <= i <= |q|
      ensures LinkedAt(InsertAt(q, k, p), Attach(m, p), i)
    {
      AttachIndex(q, m, head, p, k, i);
    }
  }

  ghost predicate LinkedAt(q: seq<Proc>, m: Memory, i: nat)
    requires i < |q|
  {
    q[i] in m && m[q[i]].next == At(q, i + 1) && m[q[i]].prev == At(q, i - 1)
  }

  lemma InsertLinks(q: seq<Proc>, k: nat, p: Proc, i: nat)
    requires k <= |q| && i <= |q|
    ensures var r := InsertAt(q, k, p);
      && r[i] == (if i < k then q[i] else if i == k then p else q[i - 1])
      && At(r, i + 1) == (if i + 1 == k then To(p) else if i < k then At(q, i + 1) else At(q, i))
      && At(r, i - 1) == (if i == k + 1 then To(p) else if i <= k then At(q, i - 1) else At(q, i - 2))
  {
  }

  lemma AttachIndex(q: seq<Proc>, m: Memory, head: Link, p: Proc, k: nat, i: nat)
    requires NoDup(q) && Chain(q, m, head) && p in m && p !in q && k <= |q| && i <= |q|
    requires m[p].next == At(q, k) && m[p].prev == At(q, k - 1)
    ensures LinkedAt(InsertAt(q, k, p), Attach(m, p), i)
  {
    hide Attach, Chain, NoDup, InsertAt;
    InsertLinks(q, k, p, i);
    if i == k {
      AttachAt(m, p, p);
    } else {
      AttachOld(q, m, head, p, k, if i < k then i else i - 1);
    }
  }

  lemma AttachOld(q: seq<Proc>, m: Memory, head: Link, p: Proc, k: nat, j: nat)
    requires NoDup(q) && Chain(q, m, head) && p in m && p !in q && k <= |q| && j < |q|
    requires m[p].next == At(q, k) && m[p].prev == At(q, k - 1)
    ensures q[j] in Attach(m, p)
    ensures Attach(m, p)[q[j]].next == if j == k - 1 then To(p) else At(q, j + 1)
    ensures Attach(m, p)[q[j]].prev == if j == k then To(p) else At(q, j - 1)
  {
    AttachAt(m, p, q[j]);
    DistinctFrom(q, j);
    assert m[q[j]].next == At(q, j + 1) && m[q[j]].prev == At(q, j - 1);
  }

  lemma AttachFrame(m: Memory, p: Proc)
    requires p in m
    ensures var r := Attach(m, p);
      && r.Keys == m.Keys
      && (forall x {:trigger r[x]} :: x in m ==> r[x].enqueued == m[x].enqueued && r[x].ticks == m[x].ticks)
      && (forall x {:trigger r[x]} :: x in m && To(x) != m[p].prev && To(x) != m[p].next ==> r[x] == m[x])
  {
  }

  ghost function Raise(m: Memory, p: Proc): Memory
    requires p in m
  {
    m[p := m[p].(enqueued := true)]
  }

  /** Point `p`'s own links around position `k`. */
  ghost function Retarget(m: Memory, p: Proc, q: seq<Proc>, k: int): Memory
    requires p in m
  {
    m[p := m[p].(prev := At(q, k - 1), next := At(q, k))]
  }

  /** Setting both links a second time forgets the first. */
  lemma RetargetAgain(m: Memory, head: Link, p: Proc, q: seq<Proc>, k: int, m': Memory)
    requires p in m && p !in q && Chain(q, m, head) && m' == m[p := m[p].(prev := Nil, next := Nil)]
    ensures Chain(q, m', head) && Retarget(m', p, q, k) == Retarget(m, p, q, k)
  {
    FlagChain(q, m, m', head, p);
  }

  /** Flag `p` and point its links around position `k`. */
  ghost function LinkTo(m: Memory, p: Proc, q: seq<Proc>, k: int): Memory
    requires p in m
  {
    Retarget(Raise(m, p), p, q, k)
  }

  /** Memory and head after `p` was flagged, linked at its position and granted its share. */
  ghost predicate Joined(s: Sched, m: Memory, head: Link, p: Proc, m': Memory, head': Link)
    requires p in s.ticks && p in s.hints && p in m && Total(s.ready) < W
  {
    var linked := LinkTo(m, p, s.ready, Position(s, p));
    var attached := Attach(linked, p);
    && m' == attached[p := attached[p].(ticks := Share(s, p))]
    && head' == AttachHead(linked, head, p)
  }

  lemma ChainKeeps(q: seq<Proc>, m: Memory, m': Memory, head: Link)
    requires Chain(q, m, head)
    requires forall i :: 0 <= i < |q| ==> q[i] in m'
    requires forall i {:trigger m'[q[i]]} :: 0 <= i < |q| ==>
      m'[q[i]].next == m[q[i]].next && m'[q[i]].prev == m[q[i]].prev
    ensures Chain(q, m', head)
  {
    forall i {:trigger m'[q[i]]} | 0 <= i < |q|
      ensures LinkedAt(q, m', i)
    {
      assert m[q[i]].next == At(q, i + 1) && m'[q[i]].next == m[q[i]].next;
    }
  }

  /** Every process is where the new state says, with the fields it says. */
  ghost predicate HeldAt(s: Sched, m: Memory, x: Proc)
    requires x in m && x in s.ticks && x in s.hints
  {
    && m[x].ticks == s.ticks[x]
    && (m[x].enqueued <==> x in s.ready)
    && (x !in s.ready ==> Hint(m[x].prev, m[x].next) == s.hints[x])
  }

  lemma JoinAt(s: Sched, m: Memory, head: Link, p: Proc, m': Memory, head': Link, x: Proc)
    requires SchedInv(s) && Mirrors(s, m, head) && p in s.ticks && p !in s.ready
    requires Joined(s, m, head, p, m', head') && x in m
    requires forall y :: y in Enqueue(s, p).ready <==> y in s.ready || y == p
    ensures x in m' && HeldAt(Enqueue(s, p), m', x)
  {
    var linked := LinkTo(m, p, s.ready, Position(s, p));
    AttachAt(linked, p, x);
    AttachAt(linked, p, p);
  }

  lemma JoinChain(s: Sched, m: Memory, head: Link, p: Proc, m': Memory, head': Link)
    requires SchedInv(s) && Mirrors(s, m, head) && p in s.ticks && p !in s.ready
    requires Joined(s, m, head, p, m', head')
    ensures m'.Keys == m.Keys
    ensures Chain(InsertAt(s.ready, Position(s, p), p), m', head')
  {
    var k := Position(s, p);
    LinkToChain(s.ready, m, head, p, k);
    var attached := Attach(LinkTo(m, p, s.ready, k), p);
    ChainTicks(InsertAt(s.ready, k, p), attached, head', p, Share(s, p));
  }

  lemma LinkToChain(q: seq<Proc>, m: Memory, head: Link, p: Proc, k: nat)
    requires NoDup(q) && Chain(q, m, head) && p in m && p !in q && k <= |q|
    ensures var linked := LinkTo(m, p, q, k);
      && Attach(linked, p).Keys == m.Keys
      && Chain(InsertAt(q, k, p), Attach(linked, p), AttachHead(linked, head, p))
  {
    var linked := LinkTo(m, p, q, k);
    ChainKeeps(q, m, linked, head);
    AttachInserts(q, linked, head, p, k);
    AttachFrame(linked, p);
  }

  lemma ChainTicks(q: seq<Proc>, m: Memory, head: Link, p: Proc, t: Word)
    requires Chain(q, m, head) && p in m
    ensures Chain(q, m[p := m[p].(ticks := t)], head)
  {
    ChainKeeps(q, m, m[p := m[p].(ticks := t)], head);
  }

  /** The memory after `enqueue` linked in a `p` that was not queued and granted it `t` ticks. */
  ghost function JoinMemory(m: Memory, head: Link, p: Proc, q: seq<Proc>, t: Word): Memory
    requires p in m
  {
    var attached := Attach(Aim(m, head, p, q), p);
    attached[p := attached[p].(ticks := t)]
  }

  ghost function JoinHead(m: Memory, head: Link, p: Proc, q: seq<Proc>): Link
    requires p in m
  {
    AttachHead(Aim(m, head, p, q), head, p)
  }

  lemma JoinMirrors(s: Sched, m: Memory, head: Link, p: Proc)
    requires SchedInv(s) && Mirrors(s, m, head) && p in s.ticks && p !in s.ready
    ensures Mirrors(Enqueue(s, p), JoinMemory(m, head, p, s.ready, Share(s, p)), JoinHead(m, head, p, s.ready))
  {
    var m', head' := JoinMemory(m, head, p, s.ready, Share(s, p)), JoinHead(m, head, p, s.ready);
    MirrorsLinkable(s, m, head, p);
    AimIsLinkTo(s.ready, m, head, p);
    EnqueueKeeps(s, p);
    JoinChain(s, m, head, p, m', head');
    forall x {:trigger m'[x]} | x in m'
      ensures HeldAt(Enqueue(s, p), m', x)
    {
      JoinAt(s, m, head, p, m', head', x);
    }
  }

  /** What `enqueue` may rely on before it links `p` in. */
  ghost predicate Linkable(m: Memory, head: Link, p: Proc, q: seq<Proc>) {
    && Closed(m) && Chain(q, m, head)
    && p in m && p !in q && m[p].prev != To(p) && m[p].next != To(p)
  }

  lemma MirrorsLinkable(s: Sched, m: Memory, head: Link, p: Proc)
    requires SchedInv(s) && Mirrors(s, m, head) && p in m && !m[p].enqueued
    ensures Linkable(m, head, p, s.ready)
    ensures p in s.ticks && p !in s.ready && Total(s.ready) + p.schedticks < W
  {
    MirrorsClosed(s, m, head);
    TotalIsWord(s);
    assert s.hints[p] == Hint(m[p].prev, m[p].next);
  }

  // ---------- ticks ----------

  lemma SetTicks(s: Sched, m: Memory, head: Link, p: Proc, t: Word, s': Sched)
    requires Holds(s, m, head) && p in m
    requires s'.ready == s.ready && s'.ticks == s.ticks[p := t]
    ensures Holds(s', m[p := m[p].(ticks := t)], head)
  {
    ChainTicks(s.ready, m, head, p, t);
    assert s'.ticks.Keys == s.ticks.Keys;
  }

  /** `m'` differs from `m` in tick counts only. */
  ghost predicate OnlyTicks(m: Memory, m': Memory) {
    && m'.Keys == m.Keys
    && forall x {:trigger m'[x]} :: x in m' ==> m'[x] == m[x].(ticks := m'[x].ticks)
  }

  // ---------- unlinking ----------

  /** Make the neighbours named by `p`'s links skip `p`. */
  ghost function Detach(m: Memory, p: Proc): Memory
    requires p in m
  {
    var n := m[p];
    var m1 := if n.prev.To? && n.prev.p in m then m[n.prev.p := m[n.prev.p].(next := n.next)] else m;
    if n.next.To? && n.next.p in m1 then m1[n.next.p := m1[n.next.p].(prev := n.prev)] else m1
  }

  ghost function DetachHead(m: Memory, head: Link, p: Proc): Link
    requires p in m
  {
    if head == To(p) then m[p].next else head
  }

  lemma DetachAt(m: Memory, p: Proc, x: Proc)
    requires p in m && x in m
    ensures x in Detach(m, p)
    ensures Detach(m, p)[x] == m[x].(
      next := if m[p].prev == To(x) then m[p].next else m[x].next,
      prev := if m[p].next == To(x) then m[p].prev else m[x].prev)
  {
  }

  lemma RemoveLinks(q: seq<Proc>, k: nat, i: nat)
    requires k < |q| && i < |q| - 1
    ensures var r := RemoveAt(q, k);
      && r[i] == (if i < k then q[i] else q[i + 1])
      && At(r, i + 1) == (if i + 1 < k then At(q, i + 1) else At(q, i + 2))
      && At(r, i - 1) == (if i <= k then At(q, i - 1) else At(q, i))
  {
  }

  lemma DetachIndex(q: seq<Proc>, m: Memory, head: Link, k: nat, i: nat)
    requires NoDup(q) && Chain(q, m, head) && k < |q| && i < |q| - 1
    ensures LinkedAt(RemoveAt(q, k), Detach(m, q[k]), i)
  {
    RemoveLinks(q, k, i);
    var j := if i < k then i else i + 1;
    DetachAt(m, q[k], q[j]);
    DistinctFrom(q, j);
    assert m[q[j]].next == At(q, j + 1) && m[q[k]].next == At(q, k + 1);
  }

  lemma DetachRemoves(q: seq<Proc>, m: Memory, head: Link, k: nat)
    requires NoDup(q) && Chain(q, m, head) && k < |q|
    ensures Chain(RemoveAt(q, k), Detach(m, q[k]), DetachHead(m, head, q[k]))
  {
    DistinctFrom(q, 0);
    assert m[q[k]].next == At(q, k + 1);
    forall i {:trigger Detach(m, q[k])[RemoveAt(q, k)[i]]} | 0 <= i < |q| - 1
      ensures LinkedAt(RemoveAt(q, k), Detach(m, q[k]), i)
    {
      DetachIndex(q, m, head, k, i);
    }
  }

  lemma LeaveAt(s: Sched, y: Sched, m: Memory, p: Proc, x: Proc)
    requires CanDequeue(s, p) && Leaving(s, y, m, p) && Total(s.ready) != p.schedticks && x in m
    requires forall z :: z in Dequeue(s, p).ready <==> z in s.ready && z != p
    ensures x in Detach(m, p) && HeldAt(Dequeue(s, p), Detach(m, p), x)
  {
    var k := IndexOf(s.ready, p);
    DetachAt(m, p, x);
    assert m[s.ready[k]].next == At(s.ready, k + 1);
  }

  /** `m` is the memory of `s` once `p` has lost its flag and any yielding has adjusted tick counts to `y`. */
  ghost predicate Leaving(s: Sched, y: Sched, m: Memory, p: Proc)
    requires CanDequeue(s, p)
  {
    && p in s.ready && s.ready != [p]
    && |s.ready| >= 2
    && y == Yielded(s, p)
    && Holds(y, m, At(s.ready, 0)) && m.Keys == s.hints.Keys
    && (forall z {:trigger m[z]} :: z in m ==>
         && (m[z].enqueued <==> z in s.ready && z != p)
         && (z !in s.ready ==> Hint(m[z].prev, m[z].next) == s.hints[z]))
  }

  lemma LeaveMirrors(s: Sched, y: Sched, m: Memory, p: Proc)
    requires CanDequeue(s, p) && Leaving(s, y, m, p)
    ensures Mirrors(Dequeue(s, p), Detach(m, p), DetachHead(m, At(s.ready, 0), p))
  {
    SoleMember(s, p);
    DequeueKeeps(s, p);
    DetachRemoves(s.ready, m, At(s.ready, 0), IndexOf(s.ready, p));
    DetachKeys(m, p);
    forall x {:trigger Detach(m, p)[x]} | x in m
      ensures HeldAt(Dequeue(s, p), Detach(m, p), x)
    {
      LeaveAt(s, y, m, p, x);
    }
  }

  lemma DetachKeys(m: Memory, p: Proc)
    requires p in m
    ensures Detach(m, p).Keys == m.Keys
  {
  }

  lemma SoleMirrors(s: Sched, m: Memory, head: Link, p: Proc)
    requires CanDequeue(s, p) && Mirrors(s, m, head) && s.ready == [p]
    ensures Mirrors(Dequeue(s, p), m[p := m[p].(enqueued := false)], Nil)
  {
    SoleMember(s, p);
    assert m[s.ready[0]].next == Nil;
  }

  /** Changing the record of a process outside the queue leaves the chain alone. */
  lemma FlagChain(q: seq<Proc>, m: Memory, m': Memory, head: Link, p: Proc)
    requires Chain(q, m, head) && p !in q
    requires p in m' && m' == m[p := m'[p]]
    ensures Chain(q, m', head)
  {
    ChainKeeps(q, m, m', head);
  }

  ghost predicate Proper(m: Memory, l: Link) {
    l == Nil || (l.To? && l.p in m)
  }

  /** Every link is null or names a process. */
  ghost predicate Closed(m: Memory) {
    forall x {:trigger m[x]} :: x in m ==> Proper(m, m[x].prev) && Proper(m, m[x].next)
  }

  /** What `enqueue` does to `p`'s own record: raise the flag, and re-aim the links unless the old ones still fit. */
  ghost function Aim(m: Memory, head: Link, p: Proc, q: seq<Proc>): Memory
    requires p in m
  {
    if LastNeighboursValid(Raise(m, p), head, p) then Raise(m, p)
    else LinkTo(m, p, q, SearchPosition(q, p.schedticks))
  }

  lemma AimReady(m: Memory, head: Link, p: Proc, q: seq<Proc>)
    requires Linkable(m, head, p, q)
    ensures var a := Aim(m, head, p, q);
      Detachable(a, p)
  {
  }

  lemma AimIsLinkTo(q: seq<Proc>, m: Memory, head: Link, p: Proc)
    requires NoDup(q) && Linkable(m, head, p, q)
    requires forall x {:trigger m[x]} :: x in m && x != p ==> (m[x].enqueued <==> x in q)
    ensures var h := Hint(m[p].prev, m[p].next);
      Aim(m, head, p, q) ==
        LinkTo(m, p, q, if HintFits(q, h, p) then HintPosition(q, h) else SearchPosition(q, p.schedticks))
  {
    var f := Raise(m, p);
    FlagChain(q, m, f, head, p);
    NeighboursAgree(q, f, head, p);
  }

  lemma MirrorsClosed(s: Sched, m: Memory, head: Link)
    requires SchedInv(s) && Mirrors(s, m, head)
    ensures Closed(m)
  {
    forall x {:trigger m[x]} | x in m
      ensures Proper(m, m[x].prev) && Proper(m, m[x].next)
    {
      if x in s.ready {
        var i := IndexOf(s.ready, x);
        assert m[s.ready[i]].next == At(s.ready, i + 1);
      } else {
        assert s.hints[x] == Hint(m[x].prev, m[x].next);
      }
    }
  }

  /** In the memory of a queue, the successor link of a member is its queue successor. */
  lemma Successor(s: Sched, m: Memory, head: Link, p: Proc)
    requires Holds(s, m, head) && NoDup(s.ready) && p in s.ready
    ensures m[p].next == At(s.ready, IndexOf(s.ready, p) + 1)
  {
    assert m[s.ready[IndexOf(s.ready, p)]].next == At(s.ready, IndexOf(s.ready, p) + 1);
  }

  ghost function Renew(m: Memory, c: Choice): Memory {
    if c.refill && c.target in m then m[c.target := m[c.target].(ticks := c.target.schedticks)] else m
  }

  lemma PickHolds(s: Sched, m: Memory, head: Link)
    requires SchedInv(s) && CanPick(s) && Holds(s, m, head)
    ensures var c := Choose(s);
      && (c.refill ==> c.target in m)
      && Pick(s) == Install(s, c)
      && SchedInv(Pick(s)) && Holds(Pick(s), Renew(m, c), head)
  {
    var c := Choose(s);
    SchedInvTicks(s, Install(s, c));
    if c.refill {
      SetTicks(s, m, head, c.target, c.target.schedticks, Install(s, c));
    }
  }

  lemma OnlyTicksTrans(a: Memory, b: Memory, c: Memory)
    requires OnlyTicks(a, b) && OnlyTicks(b, c)
    ensures OnlyTicks(a, c)
  {
    forall x {:trigger c[x]} | x in c
      ensures c[x] == a[x].(ticks := c[x].ticks)
    {
      assert b[x] == a[x].(ticks := b[x].ticks);
    }
  }

  lemma OnlyTicksSame(m: Memory)
    ensures OnlyTicks(m, m)
  {
  }

  /** Lowering `p`'s flag and spending ticks turns the memory of `s` into one `p` is leaving. */
  lemma ChainHead(q: seq<Proc>, m: Memory, head: Link)
    requires Chain(q, m, head)
    ensures head == At(q, 0)
  {
  }

  lemma LowerFlags(s: Sched, m: Memory, p: Proc, m': Memory)
    requires Settled(s, m) && p in m && p in s.ready && OnlyTicks(m[p := m[p].(enqueued := false)], m')
    ensures m'.Keys == s.hints.Keys
    ensures forall z {:trigger m'[z]} :: z in m' ==>
      && (m'[z].enqueued <==> z in s.ready && z != p)
      && (z !in s.ready ==> Hint(m'[z].prev, m'[z].next) == s.hints[z])
  {
    var low := m[p := m[p].(enqueued := false)];
    forall z {:trigger m'[z]} | z in m'
      ensures (m'[z].enqueued <==> z in s.ready && z != p)
      ensures z !in s.ready ==> Hint(m'[z].prev, m'[z].next) == s.hints[z]
    {
      assert m'[z] == low[z].(ticks := m'[z].ticks);
    }
  }

  lemma LowerLeaves(s: Sched, m: Memory, head: Link, p: Proc, y: Sched, m': Memory)
    requires CanDequeue(s, p) && p in s.ready && |s.ready| >= 2
    requires Mirrors(s, m, head) && y == Yielded(s, p)
    requires OnlyTicks(m[p := m[p].(enqueued := false)], m') && Holds(y, m', head)
    ensures Leaving(s, y, m', p)
  {
    hide SchedInv, Yielded, Chain, Total;
    LowerFlags(s, m, p, m');
    ChainHead(s.ready, m, head);
    assert s.ready != [p];
  }

  lemma LowerHolds(s: Sched, m: Memory, head: Link, p: Proc)
    requires Holds(s, m, head) && p in m
    ensures Holds(s, m[p := m[p].(enqueued := false)], head)
  {
    ChainKeeps(s.ready, m, m[p := m[p].(enqueued := false)], head);
  }

  /** `p`'s links are null or name other processes. */
  ghost predicate Detachable(m: Memory, p: Proc) {
    p in m && Proper(m, m[p].prev) && Proper(m, m[p].next) && m[p].prev != To(p) && m[p].next != To(p)
  }

  lemma LeavingDetachable(s: Sched, y: Sched, m: Memory, p: Proc)
    requires CanDequeue(s, p) && Leaving(s, y, m, p)
    ensures Detachable(m, p) && m[p].ticks == y.ticks[p]
  {
    NeighboursOk(s.ready, p);
    var k := IndexOf(s.ready, p);
    assert m[s.ready[k]].next == At(s.ready, k + 1);
  }

  /** Where only tick counts changed, flags and hints still agree. */
  lemma StillSettled(s: Sched, m: Memory, r: Sched, m': Memory)
    requires Settled(s, m) && OnlyTicks(m, m') && r.ready == s.ready && r.hints == s.hints
    ensures Settled(r, m')
  {
    forall x {:trigger m'[x]} | x in m'
      ensures (m'[x].enqueued <==> x in r.ready) && (x !in r.ready ==> Hint(m'[x].prev, m'[x].next) == r.hints[x])
    {
      assert m'[x] == m[x].(ticks := m'[x].ticks);
    }
  }
}
