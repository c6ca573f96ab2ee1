/**
 The waiting framework: queues of wait blocks, selection of the waiter to release, notification and rollback. A
 thread waits with two wait blocks, slot 0 for the object and slot 1 for the cancel event.
 */
module Sync {
  import opened Options
  import opened Seqs

  type Thread = nat

  /** Every thread has an event of its own for timeouts. */
  datatype Object = Plain(id: nat) | TimerEvent(thread: Thread)

  datatype Block = Block(thread: Thread, slot: nat)

  datatype Status = InProgress | Satisfied | Cancelled | Deleted

  /** `waitable` is set exactly while the block is linked. */
  datatype Link = Link(waitable: Option<Object>, status: Status)

  // Selection

  datatype Policy = Fifo | Prio

  /** FIFO releases the longest waiting, PRIO the longest waiting of those of highest priority. */
  ghost predicate IsChosen(prios: seq<nat>, policy: Policy, k: int) {
    && 0 <= k < |prios|
    && match policy
       case Fifo => k == 0
       case Prio =>
         (forall j | 0 <= j < |prios| :: prios[k] <= prios[j]) && (forall j | 0 <= j < k :: prios[k] < prios[j])
  }

  function Prios<A>(queue: seq<A>, prio: A -> nat): (r: seq<nat>)
    ensures |r| == |queue| && forall i | 0 <= i < |queue| :: r[i] == prio(queue[i])
  {
    if queue == [] then [] else Prios(queue[..|queue| - 1], prio) + [prio(queue[|queue| - 1])]
  }

  function Chosen(prios: seq<nat>, policy: Policy): (k: nat)
    requires prios != []
    ensures k < |prios|
  {
    var front := prios[..|prios| - 1];
    if front == [] || policy == Fifo then 0
    else if prios[|prios| - 1] < front[Chosen(front, policy)] then |prios| - 1
    else Chosen(front, policy)
  }

  lemma {:induction false} ChosenIsChosen(prios: seq<nat>, policy: Policy)
    requires prios != []
    ensures IsChosen(prios, policy, Chosen(prios, policy))
  {
    var front := prios[..|prios| - 1];
    assert prios == front + [prios[|prios| - 1]];
    if front != [] {
      ChosenIsChosen(front, policy);
      assert forall j | 0 <= j < |front| :: prios[j] == front[j];
    }
  }

  /** The k-th in a queue is the one to release: the longest waiting, of all or of those of highest priority. */
  ghost predicate IsNext<A>(queue: seq<A>, policy: Policy, prio: A -> nat, k: int) {
    && 0 <= k < |queue|
    && (policy == Fifo ==> k == 0)
    && (policy == Prio ==> forall j | 0 <= j < |queue| :: prio(queue[k]) <= prio(queue[j]))
    && (policy == Prio ==> forall j | 0 <= j < k :: prio(queue[k]) < prio(queue[j]))
  }

  lemma ChosenIsNext<A>(queue: seq<A>, policy: Policy, prio: A -> nat)
    requires queue != []
    ensures IsNext(queue, policy, prio, Chosen(Prios(queue, prio), policy))
  {
    ChosenIsChosen(Prios(queue, prio), policy);
  }

  lemma ChosenIsUnique(prios: seq<nat>, policy: Policy, k: int)
    requires IsChosen(prios, policy, k)
    ensures k == Chosen(prios, policy)
  {
    ChosenIsChosen(prios, policy);
  }

  /** `prio` gives the current scheduling parameters of the waiters. */
  method WaitBlockGet<A>(queue: seq<A>, policy: Policy, prio: A -> nat) returns (next: nat)
    requires queue != []
    ensures next == Chosen(Prios(queue, prio), policy) && IsChosen(Prios(queue, prio), policy, next)
  {
    next := 0;
    if policy == Prio {
      var n := 0;
      while n < |queue|
        invariant 0 <= n <= |queue| && 0 <= next < |queue| && (n == 0 ==> next == 0)
        invariant forall j | 0 <= j < n :: prio(queue[next]) <= prio(queue[j])
        invariant forall j | 0 <= j < next :: prio(queue[next]) < prio(queue[j])
      {
        if prio(queue[n]) < prio(queue[next]) {
          next := n;
        }
        n := n + 1;
      }
    }
    ChosenIsUnique(Prios(queue, prio), policy, next);
  }

  // Wait blocks and queues

  /** `grants` counts, for the current wait of a thread, the SATISFIED notifications of its main block. */
  datatype Net = Net(
    queues: map<Object, seq<Block>>,
    links: map<Block, Link>,
    wbNum: map<Thread, nat>,
    suspends: map<Thread, nat>,
    grants: map<Thread, nat>)
  {
    /** Everything starts zero-filled. */
    function Queue(o: Object): seq<Block> {
      if o in queues then queues[o] else []
    }

    function LinkOf(b: Block): Link {
      if b in links then links[b] else Link(None, InProgress)
    }

    function WbNum(t: Thread): nat {
      if t in wbNum then wbNum[t] else 0
    }

    function Suspends(t: Thread): nat {
      if t in suspends then suspends[t] else 0
    }

    function Grants(t: Thread): nat {
      if t in grants then grants[t] else 0
    }
  }

  /** A block is in the queue of the object it names, once, and in no other. */
  ghost predicate Linked(n: Net) {
    && (forall o: Object {:trigger n.Queue(o)} :: NoDuplicates(n.Queue(o)))
    && (forall o: Object, b: Block {:trigger b in n.Queue(o)} :: b in n.Queue(o) <==> n.LinkOf(b).waitable == Some(o))
  }

  function Started(n: Net, o: Object, b: Block): Net {
    n.(queues := n.queues[o := n.Queue(o) + [b]], links := n.links[b := n.LinkOf(b).(waitable := Some(o))])
  }

  /** A resume of a thread that is not suspended does nothing. */
  function Resumed(n: Net, t: Thread): Net {
    if n.Suspends(t) > 0 then n.(suspends := n.suspends[t := n.Suspends(t) - 1]) else n
  }

  function Released(n: Net, reason: Status, b: Block): Net {
    var n' := n.(links := n.links[b := Link(None, reason)]);
    var granted := n'.(grants := n.grants[b.thread := n.Grants(b.thread) + 1]);
    Resumed(if b.slot == 0 && reason == Satisfied then granted else n', b.thread)
  }

  function NotifiedOne(n: Net, o: Object, reason: Status, b: Block): Net {
    Released(n.(queues := n.queues[o := Without(n.Queue(o), b)]), reason, b)
  }

  function NotifiedAll(n: Net, o: Object, reason: Status): Net
    decreases |n.Queue(o)|
  {
    if n.Queue(o) == [] then n
    else
      var first := n.Queue(o)[0];
      NotifiedAll(NotifiedOne(n, o, reason, first), o, reason)
  }

  function CancelledOne(n: Net, b: Block): Net {
    match n.LinkOf(b).waitable
    case None => n
    case Some(o) =>
      n.(queues := n.queues[o := Without(n.Queue(o), b)], links := n.links[b := Link(None, Cancelled)])
  }

  function CancelledUpTo(n: Net, t: Thread, i: nat): Net {
    if i == 0 then n else CancelledOne(CancelledUpTo(n, t, i - 1), Block(t, i - 1))
  }

  function RolledBack(n: Net, t: Thread): Net {
    CancelledUpTo(n.(wbNum := n.wbNum[t := 0]), t, n.WbNum(t))
  }

  // Every step keeps blocks and queues in agreement

  lemma StartedLinked(n: Net, o: Object, b: Block)
    requires Linked(n) && n.LinkOf(b).waitable == None
    ensures Linked(Started(n, o, b))
  {
    var n' := Started(n, o, b);
    assert b !in n.Queue(o);
    forall p: Object, c: Block ensures c in n'.Queue(p) <==> n'.LinkOf(c).waitable == Some(p) {
      assert c in n.Queue(p) <==> n.LinkOf(c).waitable == Some(p);
    }
    forall p: Object ensures NoDuplicates(n'.Queue(p)) {
      assert NoDuplicates(n.Queue(p));
    }
  }

  /** A block that starts to wait is the last in its queue; nobody loses a place, and no other queue changes. */
  lemma StartedIs(n: Net, o: Object, b: Block)
    ensures var n' := Started(n, o, b);
            && n'.Queue(o) == n.Queue(o) + [b] && n'.LinkOf(b) == n.LinkOf(b).(waitable := Some(o))
            && (forall p | p != o :: n'.Queue(p) == n.Queue(p))
            && (forall c | c != b :: n'.LinkOf(c) == n.LinkOf(c))
            && n'.suspends == n.suspends && n'.grants == n.grants && n'.wbNum == n.wbNum
  {
  }

  /** A block leaves its queue; the others stay as they are. */
  lemma UnlinkedOne(n: Net, n': Net, o: Object, b: Block)
    requires Linked(n) && b in n.Queue(o)
    requires n'.queues == n.queues[o := Without(n.Queue(o), b)]
    requires n'.links == n.links[b := Link(None, n'.LinkOf(b).status)]
    ensures Linked(n')
  {
    assert NoDuplicates(n.Queue(o));
    WithoutIs(n.Queue(o), b);
    forall p: Object, c: Block ensures c in n'.Queue(p) <==> n'.LinkOf(c).waitable == Some(p) {
      assert c in n.Queue(p) <==> n.LinkOf(c).waitable == Some(p);
      assert b in n.Queue(o) <==> n.LinkOf(b).waitable == Some(o);
    }
    forall p: Object ensures NoDuplicates(n'.Queue(p)) {
      assert NoDuplicates(n.Queue(p));
    }
  }

  lemma NotifiedOneLinked(n: Net, o: Object, reason: Status, b: Block)
    requires Linked(n) && b in n.Queue(o)
    ensures Linked(NotifiedOne(n, o, reason, b))
  {
    UnlinkedOne(n, NotifiedOne(n, o, reason, b), o, b);
  }

  lemma {:induction false} NotifiedAllLinked(n: Net, o: Object, reason: Status)
    requires Linked(n)
    ensures Linked(NotifiedAll(n, o, reason)) && NotifiedAll(n, o, reason).Queue(o) == []
    decreases |n.Queue(o)|
  {
    if n.Queue(o) != [] {
      NotifiedOneLinked(n, o, reason, n.Queue(o)[0]);
      NotifiedAllLinked(NotifiedOne(n, o, reason, n.Queue(o)[0]), o, reason);
    }
  }

  /** Every block that was queued gets the reason, and the rest stay as they are. */
  lemma {:induction false} NotifiedAllIs(n: Net, o: Object, reason: Status, b: Block)
    requires Linked(n)
    ensures NotifiedAll(n, o, reason).LinkOf(b) == if b in n.Queue(o) then Link(None, reason) else n.LinkOf(b)
    decreases |n.Queue(o)|
  {
    if n.Queue(o) != [] {
      var first := n.Queue(o)[0];
      assert NoDuplicates(n.Queue(o));
      WithoutIs(n.Queue(o), first);
      NotifiedOneLinked(n, o, reason, first);
      NotifiedAllIs(NotifiedOne(n, o, reason, first), o, reason, b);
    }
  }

  lemma CancelledOneLinked(n: Net, b: Block)
    requires Linked(n)
    ensures Linked(CancelledOne(n, b)) && CancelledOne(n, b).LinkOf(b).waitable == None
  {
    if o :| n.LinkOf(b).waitable == Some(o) {
      assert b in n.Queue(o);
      UnlinkedOne(n, CancelledOne(n, b), o, b);
    }
  }

  /** Rollback unlinks both blocks of the thread, and only those that were linked become CANCELLED. */
  lemma RolledBackIs(n: Net, t: Thread)
    requires Linked(n) && n.WbNum(t) == 2
    ensures var r := RolledBack(n, t);
            && Linked(r) && r.WbNum(t) == 0
            && r.suspends == n.suspends && r.grants == n.grants
            && (forall u | u != t :: r.WbNum(u) == n.WbNum(u))
            && forall b: Block {:trigger r.LinkOf(b)} ::
                 r.LinkOf(b) == if b.thread == t && b.slot < 2 && n.LinkOf(b).waitable.Some?
                                then Link(None, Cancelled) else n.LinkOf(b)
  {
    var n0 := n.(wbNum := n.wbNum[t := 0]);
    assert Linked(n0) by {
      assert forall o: Object :: n0.Queue(o) == n.Queue(o);
      assert forall b: Block :: n0.LinkOf(b) == n.LinkOf(b);
    }
    var n1 := CancelledOne(n0, Block(t, 0));
    CancelledOneLinked(n0, Block(t, 0));
    CancelledOneLinked(n1, Block(t, 1));
    assert CancelledUpTo(n0, t, 1) == n1 by {
      assert CancelledUpTo(n0, t, 0) == n0;
    }
    assert RolledBack(n, t) == CancelledOne(n1, Block(t, 1));
  }

  class WaitNet {
    var queues: map<Object, seq<Block>>
    var links: map<Block, Link>
    var wbNum: map<Thread, nat>
    var suspends: map<Thread, nat>
    ghost var grants: map<Thread, nat>

    ghost function View(): Net
      reads this
    {
      Net(queues, links, wbNum, suspends, grants)
    }

    constructor ()
      ensures View() == Net(map[], map[], map[], map[], map[])
    {
      queues, links, wbNum, suspends, grants := map[], map[], map[], map[], map[];
    }

    method WaitStart(o: Object, b: Block)
      modifies this
      ensures View() == Started(old(View()), o, b)
    {
      var queue := if o in queues then queues[o] else [];
      var status := if b in links then links[b].status else InProgress;
      links := links[b := Link(Some(o), status)];
      queues := queues[o := queue + [b]];
    }

    method NotifyWaiter(t: Thread)
      modifies `suspends
      ensures View() == Resumed(old(View()), t)
    {
      if t in suspends && suspends[t] > 0 {
        suspends := suspends[t := suspends[t] - 1];
      }
    }

    method Release(reason: Status, b: Block)
      modifies this
      ensures View() == Released(old(View()), reason, b)
    {
      links := links[b := Link(None, reason)];
      if b.slot == 0 && reason == Satisfied {
        grants := grants[b.thread := (if b.thread in grants then grants[b.thread] else 0) + 1];
      }
      NotifyWaiter(b.thread);
    }

    method NotifyOne(o: Object, reason: Status, b: Block)
      requires o in queues
      modifies this
      ensures View() == NotifiedOne(old(View()), o, reason, b)
    {
      queues := queues[o := Without(queues[o], b)];
      Release(reason, b);
    }

    method NotifyFirst(o: Object, reason: Status)
      requires o in queues && queues[o] != [] && NoDuplicates(queues[o])
      modifies this
      ensures View() == NotifiedOne(old(View()), o, reason, old(queues[o][0]))
    {
      var first := queues[o][0];
      WithoutFirst(queues[o]);
      queues := queues[o := queues[o][1..]];
      Release(reason, first);
    }

    method NotifyAll(o: Object, reason: Status)
      requires Linked(View())
      modifies this
      ensures View() == NotifiedAll(old(View()), o, reason)
    {
      while o in queues && queues[o] != []
        invariant Linked(View())
        invariant NotifiedAll(View(), o, reason) == NotifiedAll(old(View()), o, reason)
        decreases |View().Queue(o)|
      {
        NotifiedOneLinked(View(), o, reason, queues[o][0]);
        NotifyFirst(o, reason);
      }
    }

    method Rollback(t: Thread) returns (rolledBack: nat)
      modifies this
      ensures View() == RolledBack(old(View()), t) && rolledBack == old(View()).WbNum(t)
    {
      rolledBack := if t in wbNum then wbNum[t] else 0;
      wbNum := wbNum[t := 0];
      ghost var n := View();
      var i := 0;
      while i < rolledBack
        invariant 0 <= i <= rolledBack
        invariant View() == CancelledUpTo(n, t, i)
      {
        var b := Block(t, i);
        if b in links && links[b].waitable.Some? {
          var o := links[b].waitable.value;
          queues := queues[o := Without(if o in queues then queues[o] else [], b)];
          links := links[b := Link(None, Cancelled)];
        }
        i := i + 1;
      }
    }
  }
}
