/** How the IPC state stands in the process records: state bits, sender chains, and the surgery on them. */
module MailMemory {
  import opened Word32
  import opened Processes
  import opened Ipc
  import RQ = ReadyQueue

  // State flags of a process record; 0 means ready.
  const EMPTY: bv8 := 1
  const RECEIVING: bv8 := 2
  const SENDING: bv8 := 4

  function StateOf(s: Status): bv8 {
    match s
    case Ready => 0
    case Empty => EMPTY
    case Receiving(_) => RECEIVING
    case Queued(_, flagged) => if flagged then SENDING else 0
  }

  function FromOf(s: Status): Word {
    if s.Receiving? then s.from else ANYPROC
  }

  /** One record holds what the state says about its process. */
  ghost predicate Post(v: Ipc, p: Proc, r: Mail) {
    && p in v.status && p in v.interrupts && p in v.regs
    && r.state == StateOf(v.status[p]) && r.receivingFrom == FromOf(v.status[p])
    && r.interrupts == v.interrupts[p] && r.regs == v.regs[p]
  }

  ghost predicate Posted(v: Ipc, m: Mails) {
    m.Keys == v.status.Keys && forall p {:trigger m[p]} :: p in m ==> Post(v, p, m[p])
  }

  /** The processes `q` are linked through `nextSender`, starting at `head`. */
  ghost predicate Chain(q: seq<Proc>, m: Mails, head: Link)
    decreases |q|
  {
    if q == [] then head == Nil
    else head == To(q[0]) && q[0] in m && Chain(q[1..], m, m[q[0]].nextSender)
  }

  ghost function HeadOf(o: Owner, m: Mails, waiters: seq<Link>): Link {
    match o
    case Senders(p) => if p in m then m[p].firstSender else Wild
    case Waiters(f) => if f < |waiters| then waiters[f] else Wild
  }

  ghost predicate Lists(lists: map<Owner, seq<Proc>>, m: Mails, waiters: seq<Link>) {
    forall o {:trigger lists[o]} :: o in lists ==> Chain(lists[o], m, HeadOf(o, m, waiters))
  }

  ghost predicate Mailed(v: Ipc, m: Mails, waiters: seq<Link>) {
    Posted(v, m) && Lists(v.lists, m, waiters)
  }

  // ---------- stores that leave the links alone ----------

  lemma {:induction false} ChainSame(q: seq<Proc>, m: Mails, m': Mails, head: Link)
    requires Chain(q, m, head)
    requires forall i {:trigger q[i]} :: 0 <= i < |q| ==>
      q[i] in m && q[i] in m' && m'[q[i]].nextSender == m[q[i]].nextSender
    ensures Chain(q, m', head)
    decreases |q|
  {
    if q != [] {
      forall i {:trigger q[1..][i]} | 0 <= i < |q[1..]|
        ensures q[1..][i] in m && q[1..][i] in m' && m'[q[1..][i]].nextSender == m[q[1..][i]].nextSender
      {
        assert q[1..][i] == q[i + 1];
      }
      ChainSame(q[1..], m, m', m[q[0]].nextSender);
    }
  }

  lemma {:induction false} ChainMembers(q: seq<Proc>, m: Mails, head: Link, i: nat)
    requires Chain(q, m, head) && i < |q|
    ensures q[i] in m && Chain(q[i..], m, To(q[i]))
    ensures m[q[i]].nextSender == if i + 1 < |q| then To(q[i + 1]) else Nil
    decreases i
  {
    if i > 0 {
      ChainMembers(q[1..], m, m[q[0]].nextSender, i - 1);
      assert q[1..][i - 1..] == q[i..];
    } else {
      assert q[0..] == q;
      if |q| > 1 {
        assert q[1..][0] == q[1];
      }
    }
  }

  lemma ChainStart(q: seq<Proc>, m: Mails, head: Link)
    requires Chain(q, m, head)
    ensures head == if q == [] then Nil else To(q[0])
    ensures q != [] ==> q[0] in m && Chain(q[1..], m, m[q[0]].nextSender)
  {
  }

  /** One record changes in its fields other than the links. */
  ghost predicate SameLinks(r: Mail, r': Mail) {
    r.firstSender == r'.firstSender && r.nextSender == r'.nextSender
  }

  lemma ChainsKeep(lists: map<Owner, seq<Proc>>, m: Mails, waiters: seq<Link>, p: Proc, r: Mail)
    requires Lists(lists, m, waiters) && p in m && SameLinks(m[p], r)
    ensures Lists(lists, m[p := r], waiters)
  {
    hide Chain;
    forall o {:trigger lists[o]} | o in lists
      ensures Chain(lists[o], m[p := r], HeadOf(o, m[p := r], waiters))
    {
      forall i {:trigger lists[o][i]} | 0 <= i < |lists[o]|
        ensures lists[o][i] in m && m[p := r][lists[o][i]].nextSender == m[lists[o][i]].nextSender
      {
        ChainMembers(lists[o], m, HeadOf(o, m, waiters), i);
      }
      ChainSame(lists[o], m, m[p := r], HeadOf(o, m, waiters));
    }
  }

  lemma PostKeeps(v: Ipc, v': Ipc, m: Mails, p: Proc, r: Mail)
    requires Posted(v, m) && p in m && Post(v', p, r)
    requires v'.status.Keys == v.status.Keys
    requires forall x {:trigger m[x]} :: x in m && x != p ==>
      Post(v, x, m[x]) ==> Post(v', x, m[x])
    ensures Posted(v', m[p := r])
  {
    assert m[p := r].Keys == m.Keys;
  }

  /** Storing registers. */
  lemma RegsMailed(v: Ipc, m: Mails, waiters: seq<Link>, p: Proc, r: Regs)
    requires Mailed(v, m, waiters) && p in m
    ensures Mailed(v.(regs := v.regs[p := r]), m[p := m[p].(regs := r)], waiters)
  {
    hide Lists;
    ChainsKeep(v.lists, m, waiters, p, m[p].(regs := r));
    PostKeeps(v, v.(regs := v.regs[p := r]), m, p, m[p].(regs := r));
  }

  /** Storing latched interrupts. */
  lemma InterruptsMailed(v: Ipc, m: Mails, waiters: seq<Link>, p: Proc, b: bv16)
    requires Mailed(v, m, waiters) && p in m
    ensures Mailed(v.(interrupts := v.interrupts[p := b]), m[p := m[p].(interrupts := b)], waiters)
  {
    hide Lists;
    ChainsKeep(v.lists, m, waiters, p, m[p].(interrupts := b));
    PostKeeps(v, v.(interrupts := v.interrupts[p := b]), m, p, m[p].(interrupts := b));
  }

  /** Storing state bits and the awaited sender. */
  lemma StatusMailed(v: Ipc, m: Mails, waiters: seq<Link>, p: Proc, s: Status)
    requires Mailed(v, m, waiters) && p in m
    ensures
      Mailed(v.(status := v.status[p := s]), m[p := m[p].(state := StateOf(s), receivingFrom := FromOf(s))], waiters)
  {
    hide Lists, StateOf, FromOf;
    ChainsKeep(v.lists, m, waiters, p, m[p].(state := StateOf(s), receivingFrom := FromOf(s)));
    PostKeeps(v, v.(status := v.status[p := s]), m, p, m[p].(state := StateOf(s), receivingFrom := FromOf(s)));
  }

  // ---------- list surgery ----------

  /** No process stands twice in a list or in two lists. */
  ghost predicate Separate(lists: map<Owner, seq<Proc>>) {
    && (forall o {:trigger lists[o]} :: o in lists ==> RQ.NoDup(lists[o]))
    && (forall o, w, x {:trigger x in lists[o], x in lists[w]} ::
         o in lists && w in lists && o != w && x in lists[o] ==> x !in lists[w])
  }

  lemma ExclusiveSeparates(v: Ipc)
    requires Exclusive(v)
    ensures Separate(v.lists)
  {
    forall o, w, x {:trigger x in v.lists[o], x in v.lists[w]} |
      o in v.lists && w in v.lists && o != w && x in v.lists[o]
      ensures x !in v.lists[w]
    {
      var i := RQ.IndexOf(v.lists[o], x);
      assert v.lists[o][i] in v.status;
      assert Placed(v, x, o) && Placed(v, x, w);
    }
  }

  /** A process that stands in no list. */
  ghost predicate Unlisted(lists: map<Owner, seq<Proc>>, c: Proc) {
    forall o {:trigger lists[o]} :: o in lists ==> c !in lists[o]
  }

  lemma NotListed(v: Ipc, c: Proc)
    requires Exclusive(v) && c in v.status && !v.status[c].Queued?
    ensures Unlisted(v.lists, c)
  {
    forall o {:trigger v.lists[o]} | o in v.lists
      ensures c !in v.lists[o]
    {
      assert Placed(v, c, o);
    }
  }

  ghost function SetNext(m: Mails, p: Proc, l: Link): Mails
    requires p in m
  {
    m[p := m[p].(nextSender := l)]
  }

  ghost function SetFirst(m: Mails, p: Proc, l: Link): Mails
    requires p in m
  {
    m[p := m[p].(firstSender := l)]
  }

  /** The records after `c` has been linked behind the list `q` of `o`. */
  ghost function AppendMails(m: Mails, o: Owner, q: seq<Proc>, c: Proc): Mails
    requires c in m && (q == [] && o.Senders? ==> o.p in m) && (q != [] ==> q[|q| - 1] in m)
  {
    var m1 := if q != [] then SetNext(m, q[|q| - 1], To(c)) else if o.Senders? then SetFirst(m, o.p, To(c)) else m;
    SetNext(m1, c, Nil)
  }

  ghost function AppendWaiters(waiters: seq<Link>, o: Owner, q: seq<Proc>, c: Proc): seq<Link> {
    if q == [] && o.Waiters? && o.slot < |waiters| then waiters[o.slot := To(c)] else waiters
  }

  lemma {:induction false} ChainAppend(q: seq<Proc>, m: Mails, head: Link, c: Proc)
    requires Chain(q, m, head) && RQ.NoDup(q) && c !in q && c in m && q != []
    ensures q[|q| - 1] in m && Chain(q + [c], SetNext(SetNext(m, q[|q| - 1], To(c)), c, Nil), head)
    decreases |q|
  {
    ChainMembers(q, m, head, |q| - 1);
    var m2 := SetNext(SetNext(m, q[|q| - 1], To(c)), c, Nil);
    assert (q + [c])[1..] == q[1..] + [c];
    if |q| == 1 {
      assert Chain([], m2, Nil);
      assert [c][1..] == [];
      assert Chain([c], m2, To(c));
      assert q[1..] + [c] == [c];
    } else {
      ChainAppend(q[1..], m, m[q[0]].nextSender, c);
      RQ.Distinct(q);
    }
  }

  lemma ChainMembersAll(q: seq<Proc>, m: Mails, head: Link)
    requires Chain(q, m, head)
    ensures forall i {:trigger q[i]} :: 0 <= i < |q| ==> q[i] in m
  {
    forall i {:trigger q[i]} | 0 <= i < |q|
      ensures q[i] in m
    {
      ChainMembers(q, m, head, i);
    }
  }

  /** Linking a process behind a list changes that list and no other. */
  lemma AppendLists(lists: map<Owner, seq<Proc>>, m: Mails, waiters: seq<Link>, c: Proc, o: Owner)
    requires Separate(lists) && Lists(lists, m, waiters)
    requires c in m && Unlisted(lists, c) && o in lists
    requires o.Senders? ==> o.p in m
    requires o.Waiters? ==> o.slot < |waiters|
    ensures var q := lists[o];
      && (q != [] ==> q[|q| - 1] in m)
      && Lists(lists[o := q + [c]], AppendMails(m, o, q, c), AppendWaiters(waiters, o, q, c))
  {
    hide Separate, Chain;
    var q := lists[o];
    ChainMembersAll(q, m, HeadOf(o, m, waiters));
    var m2, w2 := AppendMails(m, o, q, c), AppendWaiters(waiters, o, q, c);
    forall w {:trigger lists[o := q + [c]][w]} | w in lists[o := q + [c]]
      ensures Chain(lists[o := q + [c]][w], m2, HeadOf(w, m2, w2))
    {
      if w == o {
        AppendOwn(lists, m, waiters, c, o);
      } else {
        AppendOther(lists, m, waiters, c, o, w);
      }
    }
  }

  lemma AppendOwn(lists: map<Owner, seq<Proc>>, m: Mails, waiters: seq<Link>, c: Proc, o: Owner)
    requires Separate(lists) && Lists(lists, m, waiters)
    requires c in m && Unlisted(lists, c) && o in lists
    requires o.Senders? ==> o.p in m
    requires o.Waiters? ==> o.slot < |waiters|
    requires lists[o] != [] ==> lists[o][|lists[o]| - 1] in m
    ensures var m2, w2 := AppendMails(m, o, lists[o], c), AppendWaiters(waiters, o, lists[o], c);
      Chain(lists[o] + [c], m2, HeadOf(o, m2, w2))
  {
    var q := lists[o];
    if q != [] {
      ChainAppend(q, m, HeadOf(o, m, waiters), c);
    } else {
      var m2 := AppendMails(m, o, q, c);
      assert [c][1..] == [] && Chain([], m2, Nil);
      assert [] + [c] == [c];
    }
  }

  lemma AppendOther(lists: map<Owner, seq<Proc>>, m: Mails, waiters: seq<Link>, c: Proc, o: Owner, w: Owner)
    requires Separate(lists) && Lists(lists, m, waiters)
    requires c in m && Unlisted(lists, c) && o in lists && w in lists && w != o
    requires o.Senders? ==> o.p in m
    requires o.Waiters? ==> o.slot < |waiters|
    requires lists[o] != [] ==> lists[o][|lists[o]| - 1] in m
    ensures var m2, w2 := AppendMails(m, o, lists[o], c), AppendWaiters(waiters, o, lists[o], c);
      Chain(lists[w], m2, HeadOf(w, m2, w2))
  {
    hide Chain;
    var q := lists[o];
    var m2, w2 := AppendMails(m, o, q, c), AppendWaiters(waiters, o, q, c);
    assert c !in lists[w];
    if q != [] {
      assert q[|q| - 1] in lists[o] && q[|q| - 1] !in lists[w];
    }
    ChainMembersAll(lists[w], m, HeadOf(w, m, waiters));
    assert HeadOf(w, m2, w2) == HeadOf(w, m, waiters);
    ChainSame(lists[w], m, m2, HeadOf(w, m, waiters));
  }

  /** The records after the member at index `k` has been taken out of the senders `q` of `c`. */
  ghost function RemoveMails(m: Mails, c: Proc, q: seq<Proc>, k: nat): Mails
    requires c in m && k < |q| && q[k] in m && (k > 0 ==> q[k - 1] in m)
  {
    var l := m[q[k]].nextSender;
    var m1 := if k == 0 then SetFirst(m, c, l) else SetNext(m, q[k - 1], l);
    SetNext(m1, q[k], Nil)
  }

  lemma {:induction false} ChainRemove(q: seq<Proc>, m: Mails, head: Link, k: nat)
    requires Chain(q, m, head) && RQ.NoDup(q) && 0 < k < |q|
    ensures q[k] in m && q[k - 1] in m
    ensures Chain(RQ.RemoveAt(q, k), SetNext(SetNext(m, q[k - 1], m[q[k]].nextSender), q[k], Nil), head)
    decreases k
  {
    ChainMembers(q, m, head, k);
    ChainMembers(q, m, head, k - 1);
    var m2 := SetNext(SetNext(m, q[k - 1], m[q[k]].nextSender), q[k], Nil);
    var r := RQ.RemoveAt(q, k);
    RQ.Distinct(q);
    if k == 1 {
      assert r[1..] == q[2..] && q[1..][1..] == q[2..];
      forall i {:trigger q[2..][i]} | 0 <= i < |q[2..]|
        ensures q[2..][i] in m && q[2..][i] in m2 && m2[q[2..][i]].nextSender == m[q[2..][i]].nextSender
      {
        ChainMembers(q, m, head, i + 2);
        assert q[2..][i] == q[i + 2];
      }
      ChainSame(q[2..], m, m2, m[q[1]].nextSender);
    } else {
      ChainRemove(q[1..], m, m[q[0]].nextSender, k - 1);
      assert r[1..] == RQ.RemoveAt(q[1..], k - 1);
    }
  }

  /** Taking a process out of a list of senders changes that list and no other. */
  lemma RemoveLists(lists: map<Owner, seq<Proc>>, m: Mails, waiters: seq<Link>, c: Proc, k: nat)
    requires Separate(lists) && Lists(lists, m, waiters)
    requires c in m && Senders(c) in lists && k < |lists[Senders(c)]|
    ensures var q := lists[Senders(c)];
      && q[k] in m && (k > 0 ==> q[k - 1] in m)
      && Lists(lists[Senders(c) := RQ.RemoveAt(q, k)], RemoveMails(m, c, q, k), waiters)
  {
    hide Separate, Chain;
    var o := Senders(c);
    var q := lists[o];
    ChainMembersAll(q, m, HeadOf(o, m, waiters));
    var m2 := RemoveMails(m, c, q, k);
    forall w {:trigger lists[o := RQ.RemoveAt(q, k)][w]} | w in lists[o := RQ.RemoveAt(q, k)]
      ensures Chain(lists[o := RQ.RemoveAt(q, k)][w], m2, HeadOf(w, m2, waiters))
    {
      if w == o {
        RemoveOwn(lists, m, waiters, c, k);
      } else {
        RemoveOther(lists, m, waiters, c, k, w);
      }
    }
  }

  lemma RemoveOwn(lists: map<Owner, seq<Proc>>, m: Mails, waiters: seq<Link>, c: Proc, k: nat)
    requires Separate(lists) && Lists(lists, m, waiters)
    requires c in m && Senders(c) in lists && k < |lists[Senders(c)]|
    requires lists[Senders(c)][k] in m && (k > 0 ==> lists[Senders(c)][k - 1] in m)
    ensures var q := lists[Senders(c)];
      Chain(RQ.RemoveAt(q, k), RemoveMails(m, c, q, k), HeadOf(Senders(c), RemoveMails(m, c, q, k), waiters))
  {
    var q := lists[Senders(c)];
    var m2 := RemoveMails(m, c, q, k);
    if k > 0 {
      ChainRemove(q, m, m[c].firstSender, k);
    } else {
      assert RQ.RemoveAt(q, 0) == q[1..];
      RQ.Distinct(q);
      ChainMembersAll(q[1..], m, m[q[0]].nextSender);
      ChainSame(q[1..], m, m2, m[q[0]].nextSender);
    }
  }

  lemma RemoveOther(lists: map<Owner, seq<Proc>>, m: Mails, waiters: seq<Link>, c: Proc, k: nat, w: Owner)
    requires Separate(lists) && Lists(lists, m, waiters)
    requires c in m && Senders(c) in lists && k < |lists[Senders(c)]| && w in lists && w != Senders(c)
    requires lists[Senders(c)][k] in m && (k > 0 ==> lists[Senders(c)][k - 1] in m)
    ensures var m2 := RemoveMails(m, c, lists[Senders(c)], k); Chain(lists[w], m2, HeadOf(w, m2, waiters))
  {
    hide Chain;
    var q := lists[Senders(c)];
    var m2 := RemoveMails(m, c, q, k);
    assert q[k] in lists[Senders(c)] && q[k] !in lists[w];
    if k > 0 {
      assert q[k - 1] in lists[Senders(c)] && q[k - 1] !in lists[w];
    }
    ChainMembersAll(lists[w], m, HeadOf(w, m, waiters));
    assert HeadOf(w, m2, waiters) == HeadOf(w, m, waiters);
    ChainSame(lists[w], m, m2, HeadOf(w, m, waiters));
  }

  /** Handing a slot's waiters to `c`: their links stay, only the two heads change. */
  lemma HandOverLists(v: Ipc, m: Mails, waiters: seq<Link>, c: Proc, slot: nat)
    requires Lists(v.lists, m, waiters) && c in m && slot < |waiters|
    requires Senders(c) in v.lists && Waiters(slot) in v.lists
    ensures Lists(v.lists[Senders(c) := v.lists[Waiters(slot)]][Waiters(slot) := []],
                  SetFirst(m, c, waiters[slot]), waiters[slot := Nil])
  {
    hide Chain;
    var lists := v.lists[Senders(c) := v.lists[Waiters(slot)]][Waiters(slot) := []];
    var m2, w2 := SetFirst(m, c, waiters[slot]), waiters[slot := Nil];
    forall w {:trigger lists[w]} | w in lists
      ensures Chain(lists[w], m2, HeadOf(w, m2, w2))
    {
      if w == Waiters(slot) {
        EmptyChain(m2);
      } else {
        var from := if w == Senders(c) then Waiters(slot) else w;
        ChainMembersAll(v.lists[from], m, HeadOf(from, m, waiters));
        ChainSame(v.lists[from], m, m2, HeadOf(from, m, waiters));
      }
    }
  }

  lemma EmptyChain(m: Mails)
    ensures Chain([], m, Nil)
  {
  }

  // ---------- surgery touches links only ----------

  ghost predicate LinksOnly(m: Mails, m': Mails) {
    && m'.Keys == m.Keys
    && forall x {:trigger m'[x]} :: x in m' ==>
         m'[x] == m[x].(firstSender := m'[x].firstSender, nextSender := m'[x].nextSender)
  }

  /** Link surgery goes with a change of lists. */
  lemma Relinked(v: Ipc, m: Mails, lists: map<Owner, seq<Proc>>, m': Mails, waiters': seq<Link>)
    requires Posted(v, m) && LinksOnly(m, m') && Lists(lists, m', waiters')
    ensures Mailed(v.(lists := lists), m', waiters')
  {
    hide Lists;
    forall x {:trigger m'[x]} | x in m'
      ensures Post(v.(lists := lists), x, m'[x])
    {
      assert Post(v, x, m[x]);
    }
  }

  lemma AppendLinksOnly(m: Mails, o: Owner, q: seq<Proc>, c: Proc)
    requires c in m && (q == [] && o.Senders? ==> o.p in m) && (q != [] ==> q[|q| - 1] in m)
    ensures LinksOnly(m, AppendMails(m, o, q, c))
  {
  }

  lemma RemoveLinksOnly(m: Mails, c: Proc, q: seq<Proc>, k: nat)
    requires c in m && k < |q| && q[k] in m && (k > 0 ==> q[k - 1] in m)
    ensures LinksOnly(m, RemoveMails(m, c, q, k))
  {
  }
}
