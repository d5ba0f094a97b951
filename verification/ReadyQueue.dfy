/** The ready queue as a value: what the scheduler's operations mean, free of links. */
module ReadyQueue {
  import opened Word32
  import opened Processes

  // ---------- sequences of processes ----------

  ghost predicate NoDup(q: seq<Proc>) {
    q == [] || (q[0] !in q[1..] && NoDup(q[1..]))
  }

  lemma {:induction false} Distinct(q: seq<Proc>)
    ensures NoDup(q) <==> forall i, j :: 0 <= i < j < |q| ==> q[i] != q[j]
  {
    if q != [] {
      Distinct(q[1..]);
      if NoDup(q) {
        forall i, j | 0 <= i < j < |q|
          ensures q[i] != q[j]
        {
          if i > 0 {
            assert q[1..][i - 1] != q[1..][j - 1];
          } else {
            assert q[1..][j - 1] in q[1..];
          }
        }
      } else if q[0] !in q[1..] {
        var i, j :| 0 <= i < j < |q[1..]| && q[1..][i] == q[1..][j];
        assert q[i + 1] == q[j + 1];
      } else {
        var j := IndexOf(q[1..], q[0]);
        assert q[0] == q[j + 1];
      }
    }
  }

  lemma DistinctFrom(q: seq<Proc>, j: int)
    requires NoDup(q)
    ensures 0 <= j < |q| ==> forall i :: 0 <= i < |q| && i != j ==> q[i] != q[j]
  {
    Distinct(q);
  }

  ghost predicate Within(q: seq<Proc>, procs: set<Proc>) {
    forall i :: 0 <= i < |q| ==> q[i] in procs
  }

  /** Heaviest first. */
  ghost predicate Descending(q: seq<Proc>) {
    |q| < 2 || (q[0].schedticks >= q[1].schedticks && Descending(q[1..]))
  }

  lemma {:induction false} Sorted(q: seq<Proc>)
    ensures Descending(q) <==> forall i, j :: 0 <= i < j < |q| ==> q[i].schedticks >= q[j].schedticks
  {
    if |q| >= 2 {
      Sorted(q[1..]);
      if Descending(q) {
        forall i, j | 0 <= i < j < |q|
          ensures q[i].schedticks >= q[j].schedticks
        {
          assert q[1..][j - 1] == q[j];
          if i > 0 {
            assert q[1..][i - 1] == q[i];
          } else if j > 1 {
            assert q[1..][0].schedticks >= q[1..][j - 1].schedticks;
          }
        }
      } else if q[0].schedticks >= q[1].schedticks {
        var i, j :| 0 <= i < j < |q[1..]| && q[1..][i].schedticks < q[1..][j].schedticks;
        assert q[i + 1].schedticks < q[j + 1].schedticks;
      }
    }
  }

  /** A link to the element at `i`, or to nothing beyond either end. */
  ghost function At(q: seq<Proc>, i: int): Link {
    if 0 <= i < |q| then To(q[i]) else Nil
  }

  ghost function IndexOf(q: seq<Proc>, p: Proc): (i: nat)
    requires p in q
    ensures i < |q| && q[i] == p
  {
    if q[0] == p then 0 else 1 + IndexOf(q[1..], p)
  }

  lemma {:induction false} IndexUnique(q: seq<Proc>, i: nat)
    requires NoDup(q) && i < |q|
    ensures IndexOf(q, q[i]) == i
  {
    if i > 0 {
      assert q[1..][i - 1] == q[i];
      IndexUnique(q[1..], i - 1);
    }
  }

  ghost function InsertAt(q: seq<Proc>, k: nat, p: Proc): (r: seq<Proc>)
    requires k <= |q|
    ensures |r| == |q| + 1
    ensures forall i :: 0 <= i < |r| ==> r[i] == if i < k then q[i] else if i == k then p else q[i - 1]
  {
    seq(|q| + 1, i requires 0 <= i <= |q| => if i < k then q[i] else if i == k then p else q[i - 1])
  }

  ghost function RemoveAt(q: seq<Proc>, k: nat): (r: seq<Proc>)
    requires k < |q|
    ensures |r| == |q| - 1
    ensures forall i :: 0 <= i < |r| ==> r[i] == if i < k then q[i] else q[i + 1]
  {
    seq(|q| - 1, i requires 0 <= i < |q| - 1 => if i < k then q[i] else q[i + 1])
  }

  ghost function Remove(q: seq<Proc>, p: Proc): seq<Proc> {
    if p in q then RemoveAt(q, IndexOf(q, p)) else q
  }

  /** Sum of weights. */
  ghost function Total(q: seq<Proc>): nat {
    if q == [] then 0 else q[0].schedticks + Total(q[1..])
  }

  lemma {:induction false} TotalAppend(a: seq<Proc>, b: seq<Proc>)
    ensures Total(a + b) == Total(a) + Total(b)
  {
    if a == [] {
      assert a + b == b;
    } else {
      TotalAppend(a[1..], b);
      assert (a + b)[1..] == a[1..] + b;
    }
  }

  lemma {:induction false} TotalInsert(q: seq<Proc>, k: nat, p: Proc)
    requires k <= |q|
    ensures Total(InsertAt(q, k, p)) == Total(q) + p.schedticks
  {
    var r := InsertAt(q, k, p);
    if k == 0 {
      assert r[1..] == q;
    } else {
      assert r[1..] == InsertAt(q[1..], k - 1, p);
      TotalInsert(q[1..], k - 1, p);
    }
  }

  lemma TotalRemove(q: seq<Proc>, k: nat)
    requires k < |q|
    ensures Total(RemoveAt(q, k)) == Total(q) - q[k].schedticks
  {
    assert q == InsertAt(RemoveAt(q, k), k, q[k]);
    TotalInsert(RemoveAt(q, k), k, q[k]);
  }

  /** `table` lists `procs`, each once and each with a positive weight. */
  ghost predicate Roster(table: seq<Proc>, procs: set<Proc>) {
    if table == [] then procs == {}
    else table[0] in procs && table[0].schedticks > 0 && Roster(table[1..], procs - {table[0]})
  }

  lemma {:induction false} RosterWeights(table: seq<Proc>, procs: set<Proc>)
    requires Roster(table, procs)
    ensures forall p :: p in procs ==> p.schedticks > 0
  {
    if table != [] {
      RosterWeights(table[1..], procs - {table[0]});
      assert forall p :: p in procs ==> p == table[0] || p in procs - {table[0]};
    }
  }

  lemma RemoveFacts(q: seq<Proc>, p: Proc)
    requires p in q && NoDup(q)
    ensures var r := Remove(q, p);
      && NoDup(r)
      && Total(r) == Total(q) - p.schedticks
      && (forall x :: x in r <==> x in q && x != p)
  {
    var k := IndexOf(q, p);
    var r := RemoveAt(q, k);
    TotalRemove(q, k);
    Distinct(q);
    Distinct(r);
    forall x | x in q && x != p
      ensures x in r
    {
      var i := IndexOf(q, x);
      assert r[if i < k then i else i - 1] == x;
    }
  }

  /** A duplicate-free selection from the process table weighs no more than the table. */
  lemma {:induction false} TotalBound(q: seq<Proc>, table: seq<Proc>, procs: set<Proc>)
    requires NoDup(q) && Within(q, procs) && Roster(table, procs)
    ensures Total(q) <= Total(table)
    decreases table
  {
    if table != [] {
      if table[0] in q {
        RemoveFacts(q, table[0]);
        TotalBound(Remove(q, table[0]), table[1..], procs - {table[0]});
      } else {
        TotalBound(q, table[1..], procs - {table[0]});
      }
    }
  }

  // ---------- scheduler state ----------

  /** The links a process keeps after it left the queue. */
  datatype Hint = Hint(prev: Link, next: Link)

  datatype Sched = Sched(
    table: seq<Proc>,            // all processes
    idle: Proc,                  // runs when nothing is ready
    ready: seq<Proc>,            // the ready queue, head first
    hints: map<Proc, Hint>,      // stale links of processes not in the queue
    ticks: map<Proc, Word>,      // ticks left, per process
    qticks: Word,                   // ticks left, queue-wide counter
    cur: Proc,                   // running process
    nxt: Link)                  // process picked to run next, if any

  ghost predicate Known(s: Sched, l: Link) {
    l == Nil || (l.To? && l.p in s.ticks)
  }

  ghost predicate HintsOk(s: Sched) {
    forall p {:trigger s.hints[p]} :: p in s.hints ==>
      && s.hints[p].prev != To(p) && s.hints[p].next != To(p)
      && Known(s, s.hints[p].prev) && Known(s, s.hints[p].next)
  }

  /** The scheduler's invariant. */
  ghost predicate SchedInv(s: Sched) {
    && Roster(s.table, s.ticks.Keys) && Total(s.table) < W
    && s.hints.Keys == s.ticks.Keys
    && s.idle !in s.ticks
    && NoDup(s.ready) && Descending(s.ready)
    && Within(s.ready, s.ticks.Keys) && Total(s.ready) < W
    && HintsOk(s)
    && (s.cur == s.idle || s.cur in s.ticks)
    && (s.nxt == Nil || s.nxt == To(s.idle) || Known(s, s.nxt))
  }

  /** Nothing enqueued yet, nobody has run, every link null. */
  ghost function Initial(table: seq<Proc>, idle: Proc, ticks: map<Proc, Word>): Sched {
    Sched(table, idle, [], map x | x in ticks :: Hint(Nil, Nil), ticks, 0, idle, Nil)
  }

  lemma InitialInv(table: seq<Proc>, idle: Proc, ticks: map<Proc, Word>)
    requires Roster(table, ticks.Keys) && Total(table) < W && idle !in ticks
    ensures SchedInv(Initial(table, idle, ticks))
  {
    assert Initial(table, idle, ticks).hints.Keys == ticks.Keys;
  }

  lemma TotalIsWord(s: Sched)
    requires SchedInv(s)
    ensures forall p :: p in s.ticks && p !in s.ready ==> Total(s.ready) + p.schedticks < W
    ensures forall p :: p in s.ticks ==> p.schedticks > 0
  {
    RosterWeights(s.table, s.ticks.Keys);
    forall p | p in s.ticks && p !in s.ready
      ensures Total(s.ready) + p.schedticks < W
    {
      TotalAppend(s.ready, [p]);
      assert Total([p]) == p.schedticks;
      Distinct(s.ready);
      Distinct(s.ready + [p]);
      TotalBound(s.ready + [p], s.table, s.ticks.Keys);
    }
  }

  // ---------- enqueue ----------

  /** Where a process with these stale links would go if they still describe adjacent queue members. */
  ghost function HintPosition(q: seq<Proc>, h: Hint): (k: nat)
    ensures k <= |q|
  {
    if h.next.To? && h.next.p in q then IndexOf(q, h.next.p) else |q|
  }

  /** The stale links name two adjacent members of the queue (or one end of it), and `p` fits between by weight. */
  ghost predicate HintFits(q: seq<Proc>, h: Hint, p: Proc) {
    var k := HintPosition(q, h);
    && (h.prev.To? || h.next.To?)
    && h.next == At(q, k) && h.prev == At(q, k - 1)
    && (k > 0 ==> q[k - 1].schedticks >= p.schedticks)
    && (k < |q| ==> q[k].schedticks <= p.schedticks)
  }

  /** The first place whose occupant is not heavier than `w`. */
  ghost function SearchPosition(q: seq<Proc>, w: Word): (k: nat)
    ensures k <= |q|
    ensures forall i :: 0 <= i < k ==> q[i].schedticks > w
    ensures k < |q| ==> q[k].schedticks <= w
  {
    if q == [] || q[0].schedticks <= w then 0 else 1 + SearchPosition(q[1..], w)
  }

  ghost function Position(s: Sched, p: Proc): (k: nat)
    requires p in s.hints
    ensures k <= |s.ready|
  {
    if HintFits(s.ready, s.hints[p], p)
    then HintPosition(s.ready, s.hints[p])
    else SearchPosition(s.ready, p.schedticks)
  }

  /** Ticks granted to a process joining a queue of total weight `qsched` with `qticks` left. */
  ghost function JoinTicks(w: Word, qsched: Word, qticks: Word, left: Word): Word {
    if qsched == 0 then w
    else
      var count1 := Sub(w, Div(Mul(Sub(qsched, qticks), w), qsched));
      if count1 < left then count1 else left
  }

  ghost function Share(s: Sched, p: Proc): Word
    requires p in s.ticks && Total(s.ready) < W
  {
    JoinTicks(p.schedticks, Total(s.ready), s.qticks, s.ticks[p])
  }

  ghost function Enqueue(s: Sched, p: Proc): Sched
    requires p in s.ticks && p in s.hints && Total(s.ready) < W
  {
    if p in s.ready then s
    else
      var t := Share(s, p);
      s.(ready := InsertAt(s.ready, Position(s, p), p),
         ticks := s.ticks[p := t],
         qticks := Add(s.qticks, t))
  }

  // ---------- charge and pick ----------

  ghost function Charge(s: Sched): Sched
    requires s.cur == s.idle || s.cur in s.ticks
  {
    if s.cur == s.idle then s
    else s.(ticks := s.ticks[s.cur := Sub(s.ticks[s.cur], 1)], qticks := Sub(s.qticks, 1))
  }

  ghost function Numerator(sched: Word, left: Word): Word {
    Add(Sub(sched, left), 1)
  }

  /** The virtual-time test for letting the successor `(qw, qt)` run after `(pt)`. */
  ghost predicate Eligible(pt: Word, qw: Word, qt: Word, qsched: Word, qticks: Word) {
    || qt > pt
    || Sub(Mul(Numerator(qw, qt), qsched), Mul(Numerator(qsched, qticks), qw)) < qsched
  }

  ghost function LastRun(s: Sched): Proc {
    if s.nxt.To? then s.nxt.p else s.cur
  }

  ghost predicate CanPick(s: Sched) {
    s.ready == [] || LastRun(s) == s.idle || LastRun(s) in s.ready
  }

  /** Who runs next, and whether its ticks are renewed. */
  datatype Choice = Choice(target: Proc, refill: bool)

  ghost function ChooseHead(s: Sched): Choice
    requires s.ready != [] && s.ready[0] in s.ticks
  {
    Choice(s.ready[0], s.ticks[s.ready[0]] == 0)
  }

  /** The choice when the queue member `last` ran last. */
  ghost function ChooseAfter(s: Sched, last: Proc): (c: Choice)
    requires last in s.ready && Within(s.ready, s.ticks.Keys) && Total(s.ready) < W
    ensures c.target in s.ready
  {
    var i := IndexOf(s.ready, last);
    if i + 1 == |s.ready| then ChooseHead(s)
    else
      var n := s.ready[i + 1];
      if s.ticks[last] == Sub(last.schedticks, 1) then Choice(n, true)
      else if Eligible(s.ticks[last], n.schedticks, s.ticks[n], Total(s.ready), s.qticks) then Choice(n, false)
      else ChooseHead(s)
  }

  ghost function Choose(s: Sched): (c: Choice)
    requires CanPick(s) && Within(s.ready, s.ticks.Keys) && Total(s.ready) < W
    ensures s.ready == [] ==> c == Choice(s.idle, false)
    ensures s.ready != [] ==> c.target in s.ready
  {
    if s.ready == [] then Choice(s.idle, false)
    else if LastRun(s) == s.idle then Choice(s.ready[0], false)
    else ChooseAfter(s, LastRun(s))
  }

  ghost function Install(s: Sched, c: Choice): Sched {
    s.(ticks := if c.refill then s.ticks[c.target := c.target.schedticks] else s.ticks, nxt := To(c.target))
  }

  ghost function Pick(s: Sched): (r: Sched)
    requires CanPick(s) && Within(s.ready, s.ticks.Keys) && Total(s.ready) < W
    ensures r.nxt.To?
    ensures r == s.(ticks := r.ticks, nxt := r.nxt)
    ensures r.ticks.Keys == s.ticks.Keys
    ensures s.ready == [] ==> r.nxt.p == s.idle
    ensures s.ready != [] ==> r.nxt.p in s.ready
  {
    Install(s, Choose(s))
  }

  // ---------- dequeue ----------

  /** Charging and picking leave the queue and the hints alone, and a pick stays possible after the charge. */
  lemma PickSettled(s: Sched)
    requires SchedInv(s) && CanPick(s)
    ensures CanPick(Charge(s))
    ensures var r := Pick(Charge(s)); r.ready == s.ready && r.hints == s.hints && r.nxt.To?
  {
  }

  /** One round of the yielding loop: charge, pick, and install the pick. */
  ghost function YieldOnce(s: Sched): (r: Sched)
    requires SchedInv(s) && CanPick(s)
    ensures r.nxt == To(r.cur)
    ensures r == s.(ticks := r.ticks, qticks := r.qticks, cur := r.cur, nxt := r.nxt)
    ensures r.ticks.Keys == s.ticks.Keys
  {
    TotalIsWord(s);
    var c := Pick(Charge(s));
    c.(cur := c.nxt.p)
  }

  /** Rounds the yielding loop can still take: down to the weight, or down to zero and one refill. */
  function Rounds(ticks: Word, weight: Word): nat {
    if ticks == 0 then W else if ticks >= weight then ticks - weight else ticks
  }

  lemma SchedInvTicks(s: Sched, r: Sched)
    requires SchedInv(s) && r.ticks.Keys == s.ticks.Keys
    requires r == s.(ticks := r.ticks, qticks := r.qticks, cur := r.cur, nxt := r.nxt)
    requires r.cur == s.idle || r.cur in s.ticks
    requires r.nxt == Nil || r.nxt == To(s.idle) || Known(s, r.nxt)
    ensures SchedInv(r)
  {
    assert forall p :: p in r.ticks <==> p in s.ticks.Keys;
  }

  /** The picker returns the process that just ran only when that process heads the queue. */
  lemma PickSelf(s: Sched, p: Proc)
    requires SchedInv(s) && p in s.ready && LastRun(s) == p && |s.ready| >= 2 && Total(s.ready) < W
    requires Pick(s).nxt == To(p)
    ensures s.ticks[p] != Sub(p.schedticks, 1)
    ensures Pick(s) == Install(s, Choice(p, s.ticks[p] == 0))
  {
    var i := IndexOf(s.ready, p);
    Distinct(s.ready);
    if i + 1 < |s.ready| {
      assert s.ready[i + 1] != p;
    }
  }

  ghost predicate CanYield(s: Sched, p: Proc) {
    && SchedInv(s) && p in s.ready && s.cur == p && |s.ready| >= 2
    && (s.nxt == Nil || s.nxt == To(p))
  }

  lemma YieldProgress(s: Sched, p: Proc)
    requires CanYield(s, p)
    ensures var r := YieldOnce(s);
      && SchedInv(r)
      && r.cur in s.ready
      && (r.cur == p ==> Rounds(r.ticks[p], p.schedticks) < Rounds(s.ticks[p], p.schedticks))
  {
    TotalIsWord(s);
    var c := Charge(s);
    SchedInvTicks(s, c);
    var r := YieldOnce(s);
    SchedInvTicks(s, r);
    if r.cur == p {
      PickSelf(c, p);
    }
  }

  /** Charge the running `p` until something else is picked. */
  ghost function Yield(s: Sched, p: Proc): (r: Sched)
    requires CanYield(s, p)
    ensures SchedInv(r) && r.cur != p && r.cur in r.ready && r.nxt == To(r.cur)
    ensures r == s.(ticks := r.ticks, qticks := r.qticks, cur := r.cur, nxt := r.nxt)
    ensures r.ticks.Keys == s.ticks.Keys
    decreases Rounds(s.ticks[p], p.schedticks)
  {
    YieldProgress(s, p);
    var r := YieldOnce(s);
    if r.cur == p then Yield(r, p) else r
  }

  /** The loop's verdict after one more round. */
  ghost predicate YieldsTo(s: Sched, p: Proc, goal: Sched, again: bool) {
    if again then CanYield(s, p) && Yield(s, p) == goal else s == goal
  }

  lemma YieldUnfold(s: Sched, p: Proc)
    requires CanYield(s, p)
    ensures var r := YieldOnce(s);
      && YieldsTo(r, p, Yield(s, p), r.cur == p)
      && (r.cur == p ==> Rounds(r.ticks[p], p.schedticks) < Rounds(s.ticks[p], p.schedticks))
  {
    YieldProgress(s, p);
  }

  ghost function Neighbours(q: seq<Proc>, p: Proc): Hint
    requires p in q
  {
    Hint(At(q, IndexOf(q, p) - 1), At(q, IndexOf(q, p) + 1))
  }

  ghost predicate CanDequeue(s: Sched, p: Proc) {
    && SchedInv(s) && p in s.ticks
    && (s.nxt == Nil || s.nxt == To(p) || s.cur != p)
  }

  lemma SoleMember(s: Sched, p: Proc)
    requires SchedInv(s) && p in s.ready
    ensures Total(s.ready) == p.schedticks <==> s.ready == [p]
    ensures s.ready != [p] ==> |s.ready| >= 2
  {
    var k := IndexOf(s.ready, p);
    TotalRemove(s.ready, k);
    var rest := RemoveAt(s.ready, k);
    if rest != [] {
      assert rest[0] in s.ready;
      TotalIsWord(s);
      assert Total(rest) > 0;
    } else {
      assert s.ready == [p];
    }
  }

  ghost function Dequeue(s: Sched, p: Proc): Sched
    requires CanDequeue(s, p)
  {
    if p !in s.ready then s
    else if Total(s.ready) == p.schedticks then
      s.(ready := [], hints := s.hints[p := Hint(Nil, Nil)], qticks := 0)
    else
      SoleMember(s, p);
      var y := if s.cur == p then Yield(s, p) else s;
      y.(ready := RemoveAt(s.ready, IndexOf(s.ready, p)),
         hints := s.hints[p := Neighbours(s.ready, p)],
         qticks := Sub(y.qticks, y.ticks[p]))
  }

  /** The state once any yielding is over and before `p` is unlinked. */
  ghost function Yielded(s: Sched, p: Proc): Sched
    requires CanDequeue(s, p) && p in s.ready && |s.ready| >= 2
  {
    if s.cur == p then Yield(s, p) else s
  }

  /** Everything `dequeue` of a member of a longer queue does to the globals. */
  lemma DequeueGlobals(s: Sched, p: Proc)
    requires CanDequeue(s, p) && p in s.ready && |s.ready| >= 2
    ensures var y, r := Yielded(s, p), Dequeue(s, p);
      && SchedInv(r) && SchedInv(y) && y.ready == s.ready && y.ticks.Keys == s.ticks.Keys
      && r.idle == s.idle && r.ticks == y.ticks && r.cur == y.cur && r.nxt == y.nxt
      && r.qticks == Sub(y.qticks, y.ticks[p])
      && Total(r.ready) == Total(s.ready) - p.schedticks
      && Total(s.ready) != p.schedticks
  {
    SoleMember(s, p);
    DequeueKeeps(s, p);
    assert s.ready != [p];
  }

  lemma DequeueSole(s: Sched, p: Proc)
    requires CanDequeue(s, p) && p in s.ready && Total(s.ready) == p.schedticks
    ensures s.ready == [p]
    ensures SchedInv(Dequeue(s, p))
    ensures Dequeue(s, p) == s.(ready := [], hints := s.hints[p := Hint(Nil, Nil)], qticks := 0)
  {
    SoleMember(s, p);
    DequeueKeeps(s, p);
  }

  // ---------- what the operations keep ----------

  lemma PositionFits(s: Sched, p: Proc)
    requires SchedInv(s) && p in s.ticks && p !in s.ready
    ensures var k := Position(s, p);
      && (k > 0 ==> s.ready[k - 1].schedticks >= p.schedticks)
      && (k < |s.ready| ==> s.ready[k].schedticks <= p.schedticks)
  {
  }

  lemma {:induction false} InsertDescending(q: seq<Proc>, k: nat, p: Proc)
    requires k <= |q| && Descending(q)
    requires k > 0 ==> q[k - 1].schedticks >= p.schedticks
    requires k < |q| ==> q[k].schedticks <= p.schedticks
    ensures Descending(InsertAt(q, k, p))
  {
    var r := InsertAt(q, k, p);
    if k == 0 {
      assert r[1..] == q;
    } else {
      assert r[1..] == InsertAt(q[1..], k - 1, p);
      InsertDescending(q[1..], k - 1, p);
    }
  }

  lemma InsertMembers(q: seq<Proc>, k: nat, p: Proc)
    requires k <= |q|
    ensures forall x :: x in InsertAt(q, k, p) <==> x in q || x == p
  {
    var r := InsertAt(q, k, p);
    assert r[k] == p;
    forall x | x in q
      ensures x in r
    {
      var i := IndexOf(q, x);
      assert r[if i < k then i else i + 1] == x;
    }
  }

  lemma {:induction false} InsertNoDup(q: seq<Proc>, k: nat, p: Proc)
    requires k <= |q| && p !in q && NoDup(q)
    ensures NoDup(InsertAt(q, k, p))
  {
    var r := InsertAt(q, k, p);
    if k == 0 {
      assert r[1..] == q;
    } else {
      assert r[1..] == InsertAt(q[1..], k - 1, p);
      InsertMembers(q[1..], k - 1, p);
      InsertNoDup(q[1..], k - 1, p);
    }
  }

  lemma InsertKeeps(q: seq<Proc>, k: nat, p: Proc)
    requires k <= |q| && p !in q && NoDup(q) && Descending(q)
    requires k > 0 ==> q[k - 1].schedticks >= p.schedticks
    requires k < |q| ==> q[k].schedticks <= p.schedticks
    ensures var r := InsertAt(q, k, p);
      && NoDup(r) && Descending(r)
      && (forall x :: x in r <==> x in q || x == p)
      && Total(r) == Total(q) + p.schedticks
  {
    TotalInsert(q, k, p);
    InsertNoDup(q, k, p);
    InsertDescending(q, k, p);
    InsertMembers(q, k, p);
  }

  lemma RemoveKeeps(q: seq<Proc>, p: Proc)
    requires p in q && NoDup(q) && Descending(q)
    ensures var r := Remove(q, p);
      && NoDup(r) && Descending(r)
      && (forall x :: x in r <==> x in q && x != p)
      && Total(r) == Total(q) - p.schedticks
  {
    RemoveFacts(q, p);
    Sorted(q);
    Sorted(Remove(q, p));
  }

  lemma EnqueueJoins(s: Sched, p: Proc)
    requires SchedInv(s) && p in s.ticks && p !in s.ready && Total(s.ready) + p.schedticks < W
    ensures SchedInv(Enqueue(s, p))
    ensures var q := Enqueue(s, p).ready;
      && p in q
      && Total(q) == Total(s.ready) + p.schedticks
      && (forall x :: x in q <==> x in s.ready || x == p)
  {
    EnqueueShape(s, p);
    PositionFits(s, p);
    InsertKeeps(s.ready, Position(s, p), p);
    SchedInvRebuild(s, Enqueue(s, p));
  }

  lemma EnqueueKeeps(s: Sched, p: Proc)
    requires SchedInv(s) && p in s.ticks
    ensures SchedInv(Enqueue(s, p))
    ensures var q := Enqueue(s, p).ready;
      && p in q
      && Total(q) == Total(s.ready) + (if p in s.ready then 0 else p.schedticks)
      && (forall x :: x in q <==> x in s.ready || x == p)
  {
    TotalIsWord(s);
    if p !in s.ready {
      EnqueueJoins(s, p);
    }
  }

  lemma EnqueueGlobals(s: Sched, p: Proc)
    requires SchedInv(s) && p in s.ticks && p !in s.ready
    ensures var r := Enqueue(s, p);
      && SchedInv(r)
      && r.idle == s.idle && r.cur == s.cur && r.nxt == s.nxt && r.ticks.Keys == s.ticks.Keys
      && r.qticks == Add(s.qticks, Share(s, p))
      && Total(r.ready) == Total(s.ready) + p.schedticks
  {
    EnqueueKeeps(s, p);
    EnqueueShape(s, p);
  }

  lemma InsertRemove(q: seq<Proc>, k: nat, p: Proc)
    requires NoDup(q) && p !in q && k <= |q|
    ensures Remove(InsertAt(q, k, p), p) == Remove(q, p) == q
  {
    hide NoDup;
    InsertNoDup(q, k, p);
    IndexUnique(InsertAt(q, k, p), k);
    InsertThenRemove(q, k, p);
  }

  lemma InsertThenRemove(q: seq<Proc>, k: nat, p: Proc)
    requires k <= |q|
    ensures RemoveAt(InsertAt(q, k, p), k) == q && p in InsertAt(q, k, p)
  {
    assert InsertAt(q, k, p)[k] == p;
  }

  /** Enqueueing disturbs nobody else's order: taking the newcomer out again gives the old queue. */
  lemma EnqueueOrder(s: Sched, p: Proc)
    requires SchedInv(s) && p in s.ticks
    ensures Remove(Enqueue(s, p).ready, p) == Remove(s.ready, p)
  {
    hide InsertAt, Remove, Position, Share, Descending, HintsOk, Roster;
    if p !in s.ready {
      EnqueueShape(s, p);
      InsertRemove(s.ready, Position(s, p), p);
    }
  }

  lemma EnqueueShape(s: Sched, p: Proc)
    requires SchedInv(s) && p in s.ticks && p !in s.ready && Total(s.ready) < W
    ensures var r := Enqueue(s, p);
      && r == s.(ready := InsertAt(s.ready, Position(s, p), p), ticks := r.ticks, qticks := r.qticks)
      && r.ticks.Keys == s.ticks.Keys
  {
  }

  lemma SchedInvRebuild(s: Sched, r: Sched)
    requires SchedInv(s) && r.ticks.Keys == s.ticks.Keys
    requires r == s.(ready := r.ready, ticks := r.ticks, qticks := r.qticks)
    requires NoDup(r.ready) && Descending(r.ready)
    requires Total(r.ready) < W && forall i :: 0 <= i < |r.ready| ==> r.ready[i] in s.ticks
    ensures SchedInv(r)
  {
    assert forall p :: p in r.ticks <==> p in s.ticks.Keys;
  }

  lemma DequeueKeeps(s: Sched, p: Proc)
    requires CanDequeue(s, p)
    ensures var r := Dequeue(s, p);
      && SchedInv(r)
      && r.ready == Remove(s.ready, p)
      && (forall q :: q in r.ready <==> q in s.ready && q != p)
      && Total(r.ready) == Total(s.ready) - (if p in s.ready then p.schedticks else 0)
      && (p in s.ready && s.cur == p && r.ready != [] ==> r.nxt == To(r.cur) && r.cur in r.ready)
      && (p in s.ready && s.cur == p && r.ready == [] ==> r.cur == s.cur && r.nxt == s.nxt)
      && (s.cur != p || p !in s.ready ==> r.cur == s.cur && r.nxt == s.nxt)
  {
    if p in s.ready {
      SoleMember(s, p);
      RemoveKeeps(s.ready, p);
      if s.ready == [p] {
        assert Remove(s.ready, p) == [];
      }
      DequeueHints(s, p);
    }
  }

  lemma NeighboursOk(q: seq<Proc>, p: Proc)
    requires p in q && NoDup(q)
    ensures var h := Neighbours(q, p);
      && h.prev != To(p) && h.next != To(p)
      && (h.prev == Nil || (h.prev.To? && h.prev.p in q))
      && (h.next == Nil || (h.next.To? && h.next.p in q))
  {
    DistinctFrom(q, IndexOf(q, p));
  }

  lemma HintsExtend(s: Sched, p: Proc, h: Hint, r: Sched)
    requires HintsOk(s) && r.hints == s.hints[p := h] && r.ticks.Keys == s.ticks.Keys
    requires h.prev != To(p) && h.next != To(p) && Known(s, h.prev) && Known(s, h.next)
    ensures HintsOk(r)
  {
    assert forall x :: x in r.ticks <==> x in s.ticks.Keys;
  }

  lemma DequeueHints(s: Sched, p: Proc)
    requires CanDequeue(s, p) && p in s.ready
    ensures var r := Dequeue(s, p);
      && r.ticks.Keys == s.ticks.Keys
      && r.hints.Keys == s.hints.Keys
      && HintsOk(r)
  {
    NeighboursOk(s.ready, p);
    HintsExtend(s, p, Dequeue(s, p).hints[p], Dequeue(s, p));
  }
}
