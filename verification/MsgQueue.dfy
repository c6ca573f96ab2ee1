/**
 The message queue: a ring buffer with insertion at both ends, direct hand-off to blocked receivers and refill from
 blocked senders. `State` shows the ring as a sequence; the class works on the buffer.
 */
module MsgQueue {
  import opened Options
  import opened Seqs
  import opened Sync

  type Msg = int
  type Receiver = nat

  datatype Sender = Sender(waiter: Thread, msg: Msg, toBack: bool)

  datatype Delivery = Delivery(receiver: Receiver, msg: Msg)

  /** `delivered` is what was written to receivers' buffers so far. */
  datatype State = State(
    max: nat,
    policy: Policy,
    ring: seq<Msg>,
    sendQ: seq<Sender>,
    recvQ: seq<Receiver>,
    delivered: seq<Delivery>)

  ghost predicate Valid(q: State) {
    && q.max > 0 && |q.ring| <= q.max
    && (q.sendQ != [] ==> |q.ring| == q.max)
    && (q.recvQ != [] ==> q.ring == [])
  }

  function SenderPrio(prio: Thread -> nat): Sender -> nat {
    (s: Sender) => prio(s.waiter)
  }

  function Put(ring: seq<Msg>, s: Sender): seq<Msg> {
    if s.toBack then ring + [s.msg] else [s.msg] + ring
  }

  /** The state after a send, and whether the sender goes on at once. */
  function Sent(q: State, s: Sender, wait: bool, prio: Thread -> nat): (State, bool) {
    if |q.ring| == q.max then (if wait then q.(sendQ := q.sendQ + [s]) else q, false)
    else if q.ring == [] && q.recvQ != [] then
      var k := Chosen(Prios(q.recvQ, prio), q.policy);
      (q.(recvQ := RemoveAt(q.recvQ, k), delivered := q.delivered + [Delivery(q.recvQ[k], s.msg)]), true)
    else (q.(ring := Put(q.ring, s)), true)
  }

  /** One blocked sender's message goes into the ring. */
  function Admitted(q: State, prio: Thread -> nat): State
    requires q.sendQ != []
  {
    var k := Chosen(Prios(q.sendQ, SenderPrio(prio)), q.policy);
    q.(ring := Put(q.ring, q.sendQ[k]), sendQ := RemoveAt(q.sendQ, k))
  }

  function Received(q: State, r: Receiver, wait: bool, prio: Thread -> nat): (State, bool) {
    if q.ring == [] then (if wait then q.(recvQ := q.recvQ + [r]) else q, false)
    else
      var q' := q.(ring := q.ring[1..], delivered := q.delivered + [Delivery(r, q.ring[0])]);
      (if |q'.ring| + 1 == q.max && q.sendQ != [] then Admitted(q', prio) else q', true)
  }

  function Refilled(q: State, prio: Thread -> nat): State
    decreases |q.sendQ|
  {
    if |q.ring| < q.max && q.sendQ != [] then Refilled(Admitted(q, prio), prio) else q
  }

  function Flushed(q: State, prio: Thread -> nat): State {
    Refilled(q.(ring := []), prio)
  }

  /** A wait that ends without a notification takes its block out of the queue. */
  function SendCancelled(q: State, k: nat): State
    requires k < |q.sendQ|
  {
    q.(sendQ := RemoveAt(q.sendQ, k))
  }

  function RecvCancelled(q: State, k: nat): State
    requires k < |q.recvQ|
  {
    q.(recvQ := RemoveAt(q.recvQ, k))
  }

  // What the operations do, whatever the policy

  /** A send is accepted unless the ring is full: the next receiver gets the message, or it goes into the ring. */
  lemma SentIs(q: State, s: Sender, wait: bool, prio: Thread -> nat)
    requires Valid(q)
    ensures var (q', ok) := Sent(q, s, wait, prio);
            && (ok <==> |q.ring| < q.max)
            && (ok && q.recvQ != [] ==>
                  exists k :: IsNext(q.recvQ, q.policy, prio, k)
                           && q' == q.(recvQ := RemoveAt(q.recvQ, k),
                                       delivered := q.delivered + [Delivery(q.recvQ[k], s.msg)]))
            && (ok && q.recvQ == [] ==> q' == q.(ring := if s.toBack then q.ring + [s.msg] else [s.msg] + q.ring))
            && (!ok ==> q' == q.(sendQ := q.sendQ + if wait then [s] else []))
  {
    if |q.ring| < q.max && q.recvQ != [] {
      ChosenIsNext(q.recvQ, q.policy, prio);
    }
  }

  /** The next blocked sender's message goes into the ring, at the end it asked for. */
  lemma AdmittedIs(q: State, prio: Thread -> nat)
    requires q.sendQ != []
    ensures exists k :: IsNext(q.sendQ, q.policy, SenderPrio(prio), k)
                     && Admitted(q, prio) == q.(sendQ := RemoveAt(q.sendQ, k), ring :=
                          if q.sendQ[k].toBack then q.ring + [q.sendQ[k].msg] else [q.sendQ[k].msg] + q.ring)
  {
    ChosenIsNext(q.sendQ, q.policy, SenderPrio(prio));
  }

  /** A receive takes the first message of the ring, and one blocked sender takes its place. */
  lemma ReceivedIs(q: State, r: Receiver, wait: bool, prio: Thread -> nat)
    requires Valid(q)
    ensures var (q', ok) := Received(q, r, wait, prio);
            && (ok <==> q.ring != [])
            && (ok ==> q'.delivered == q.delivered + [Delivery(r, q.ring[0])] && q'.recvQ == q.recvQ)
            && (ok && q.sendQ == [] ==> q'.ring == q.ring[1..] && q'.sendQ == [])
            && (ok && q.sendQ != [] ==>
                  && |q'.sendQ| == |q.sendQ| - 1 && |q'.ring| == q.max
                  && q' == Admitted(q.(ring := q.ring[1..], delivered := q'.delivered), prio))
            && (!ok ==> q' == q.(recvQ := q.recvQ + if wait then [r] else []))
  {
  }

  /** A receiver or a sender that gives up is taken out of its queue, and nothing else happens. */
  lemma CancelledAre(q: State, k: nat)
    ensures k < |q.recvQ| ==>
              RecvCancelled(q, k) == q.(recvQ := q.recvQ[..k] + q.recvQ[k + 1..])
              && multiset(q.recvQ) == multiset(RecvCancelled(q, k).recvQ) + multiset{q.recvQ[k]}
    ensures k < |q.sendQ| ==>
              SendCancelled(q, k) == q.(sendQ := q.sendQ[..k] + q.sendQ[k + 1..])
              && multiset(q.sendQ) == multiset(SendCancelled(q, k).sendQ) + multiset{q.sendQ[k]}
  {
    if k < |q.recvQ| {
      assert q.recvQ == q.recvQ[..k] + [q.recvQ[k]] + q.recvQ[k + 1..];
    }
    if k < |q.sendQ| {
      assert q.sendQ == q.sendQ[..k] + [q.sendQ[k]] + q.sendQ[k + 1..];
    }
  }

  /** A message sent to the front is the next to be received. */
  lemma FrontIsNext(q: State, s: Sender, wait: bool, r: Receiver, prio: Thread -> nat)
    requires Valid(q) && !s.toBack && |q.ring| < q.max && q.recvQ == []
    ensures var q' := Sent(q, s, wait, prio).0;
            Received(q', r, wait, prio).0.delivered == q.delivered + [Delivery(r, s.msg)]
  {
    SentIs(q, s, wait, prio);
  }

  // Blocked senders imply a full ring, blocked receivers an empty one

  lemma SentValid(q: State, s: Sender, wait: bool, prio: Thread -> nat)
    requires Valid(q)
    ensures Valid(Sent(q, s, wait, prio).0)
    ensures Sent(q, s, wait, prio).1 <==> |q.ring| < q.max
  {
  }

  lemma ReceivedValid(q: State, r: Receiver, wait: bool, prio: Thread -> nat)
    requires Valid(q)
    ensures Valid(Received(q, r, wait, prio).0)
    ensures Received(q, r, wait, prio).1 <==> q.ring != []
  {
  }

  lemma {:induction false} RefilledIs(q: State, prio: Thread -> nat)
    requires q.max > 0 && |q.ring| <= q.max
    ensures var r := Refilled(q, prio);
            && r.max == q.max && r.recvQ == q.recvQ && r.delivered == q.delivered && r.policy == q.policy
            && |r.ring| <= q.max && (r.sendQ != [] ==> |r.ring| == q.max)
            && |r.ring| + |r.sendQ| == |q.ring| + |q.sendQ|
    decreases |q.sendQ|
  {
    if |q.ring| < q.max && q.sendQ != [] {
      RefilledIs(Admitted(q, prio), prio);
    }
  }

  lemma FlushedValid(q: State, prio: Thread -> nat)
    requires Valid(q)
    ensures Valid(Flushed(q, prio))
  {
    RefilledIs(q.(ring := []), prio);
  }

  // One unbounded queue

  function Msgs(senders: seq<Sender>): seq<Msg> {
    seq(|senders|, i requires 0 <= i < |senders| => senders[i].msg)
  }

  /** What is still to be delivered: the ring, then what blocked senders hold. */
  function Backlog(q: State): seq<Msg> {
    q.ring + Msgs(q.sendQ)
  }

  ghost predicate AllToBack(senders: seq<Sender>) {
    forall i | 0 <= i < |senders| :: senders[i].toBack
  }

  /** With FIFO policy and insertion at the back only, the longest waiting is served first. */
  ghost predicate Plain(q: State) {
    Valid(q) && q.policy == Fifo && AllToBack(q.sendQ)
  }

  lemma FifoChoosesFirst(prios: seq<nat>)
    requires prios != []
    ensures Chosen(prios, Fifo) == 0
  {
  }

  lemma AdmittedKeepsBacklog(q: State, prio: Thread -> nat)
    requires q.policy == Fifo && q.sendQ != [] && AllToBack(q.sendQ)
    ensures Backlog(Admitted(q, prio)) == Backlog(q) && AllToBack(Admitted(q, prio).sendQ)
    ensures |Admitted(q, prio).ring| == |q.ring| + 1 && Admitted(q, prio).sendQ == q.sendQ[1..]
  {
    FifoChoosesFirst(Prios(q.sendQ, SenderPrio(prio)));
    FirstSender(q.sendQ);
    assert Admitted(q, prio) == q.(ring := q.ring + [q.sendQ[0].msg], sendQ := q.sendQ[1..]);
    assert q.ring + [q.sendQ[0].msg] + Msgs(q.sendQ[1..]) == q.ring + Msgs(q.sendQ);
  }

  lemma FirstSender(senders: seq<Sender>)
    requires senders != []
    ensures RemoveAt(senders, 0) == senders[1..]
    ensures Msgs(senders) == [senders[0].msg] + Msgs(senders[1..])
  {
  }

  /** A send that is accepted or blocks puts its message last, unless a receiver takes it with nothing before it. */
  lemma SentIsEnqueue(q: State, s: Sender, wait: bool, prio: Thread -> nat)
    requires Plain(q) && s.toBack
    ensures var (q', ok) := Sent(q, s, wait, prio);
            && Plain(q')
            && (!ok && !wait ==> q' == q)
            && (ok || wait ==>
                  if q.recvQ == [] then Backlog(q') == Backlog(q) + [s.msg] && q'.delivered == q.delivered
                  else && Backlog(q) == [] == Backlog(q') && q'.recvQ == q.recvQ[1..]
                       && q'.delivered == q.delivered + [Delivery(q.recvQ[0], s.msg)])
  {
    SentValid(q, s, wait, prio);
    assert Msgs(q.sendQ + [s]) == Msgs(q.sendQ) + [s.msg];
    if q.recvQ != [] {
      FifoChoosesFirst(Prios(q.recvQ, prio));
      assert RemoveAt(q.recvQ, 0) == q.recvQ[1..];
    }
  }

  /** A receive takes the first message of the whole backlog. */
  lemma ReceivedIsDequeue(q: State, r: Receiver, wait: bool, prio: Thread -> nat)
    requires Plain(q)
    ensures var (q', ok) := Received(q, r, wait, prio);
            && Plain(q') && (ok <==> Backlog(q) != [])
            && (ok ==> && Backlog(q') == Backlog(q)[1..] && q'.recvQ == q.recvQ
                       && q'.delivered == q.delivered + [Delivery(r, Backlog(q)[0])])
            && (!ok ==> q' == q.(recvQ := if wait then q.recvQ + [r] else q.recvQ))
  {
    ReceivedValid(q, r, wait, prio);
    if q.ring != [] {
      var q' := q.(ring := q.ring[1..], delivered := q.delivered + [Delivery(r, q.ring[0])]);
      assert Backlog(q') == Backlog(q)[1..];
      if q.sendQ != [] {
        AdmittedKeepsBacklog(q', prio);
      }
    }
  }

  lemma {:induction false} RefilledKeepsBacklog(q: State, prio: Thread -> nat)
    requires q.policy == Fifo && AllToBack(q.sendQ)
    ensures Backlog(Refilled(q, prio)) == Backlog(q) && AllToBack(Refilled(q, prio).sendQ)
    decreases |q.sendQ|
  {
    if |q.ring| < q.max && q.sendQ != [] {
      AdmittedKeepsBacklog(q, prio);
      RefilledKeepsBacklog(Admitted(q, prio), prio);
    }
  }

  /** A flush drops what is in the ring and nothing else: blocked senders' messages survive it, in order. */
  lemma FlushDropsRing(q: State, prio: Thread -> nat)
    requires Plain(q)
    ensures Plain(Flushed(q, prio)) && Backlog(Flushed(q, prio)) == Backlog(q)[|q.ring|..]
  {
    FlushedValid(q, prio);
    RefilledIs(q.(ring := []), prio);
    RefilledKeepsBacklog(q.(ring := []), prio);
    assert Backlog(q.(ring := [])) == Backlog(q)[|q.ring|..];
  }

  // Runs

  datatype Op =
    | Send(s: Sender, wait: bool)
    | Receive(r: Receiver, wait: bool)
    | CancelSend(sk: nat)
    | CancelReceive(rk: nat)
    | Flush

  /**
   What went in and what became of it: `offered` are the messages of sends that were accepted or blocked, `requests`
   the receivers that were served or blocked, and `lost` the messages flushed or withdrawn by a cancelled send.
   */
  datatype Account = Account(q: State, offered: seq<Msg>, requests: seq<Receiver>, lost: multiset<Msg>)

  ghost predicate Enabled(q: State, op: Op) {
    match op
    case CancelSend(k) => k < |q.sendQ|
    case CancelReceive(k) => k < |q.recvQ|
    case _ => true
  }

  ghost function Next(a: Account, op: Op, prio: Thread -> nat): Account
    requires Enabled(a.q, op)
  {
    match op
    case Send(s, wait) =>
      var (q', ok) := Sent(a.q, s, wait, prio);
      a.(q := q', offered := if ok || wait then a.offered + [s.msg] else a.offered)
    case Receive(r, wait) =>
      var (q', ok) := Received(a.q, r, wait, prio);
      a.(q := q', requests := if ok || wait then a.requests + [r] else a.requests)
    case CancelSend(k) => a.(q := SendCancelled(a.q, k), lost := a.lost + multiset{a.q.sendQ[k].msg})
    case CancelReceive(k) => a.(q := RecvCancelled(a.q, k))
    case Flush => a.(q := Flushed(a.q, prio), lost := a.lost + multiset(a.q.ring))
  }

  function DeliveredMsgs(d: seq<Delivery>): seq<Msg> {
    seq(|d|, i requires 0 <= i < |d| => d[i].msg)
  }

  function DeliveredTo(d: seq<Delivery>): seq<Receiver> {
    seq(|d|, i requires 0 <= i < |d| => d[i].receiver)
  }

  /** Messages that are delivered or still to be delivered. */
  function Held(q: State): multiset<Msg> {
    multiset(DeliveredMsgs(q.delivered)) + multiset(Backlog(q))
  }

  /** Everything offered is delivered, waiting or lost, each message as often as it was offered. */
  ghost predicate Conserved(a: Account) {
    multiset(a.offered) == Held(a.q) + a.lost
  }

  lemma DeliveredSnoc(d: seq<Delivery>, x: Delivery)
    ensures DeliveredMsgs(d + [x]) == DeliveredMsgs(d) + [x.msg]
    ensures DeliveredTo(d + [x]) == DeliveredTo(d) + [x.receiver]
  {
  }

  lemma RemoveMsg(senders: seq<Sender>, k: nat)
    requires k < |senders|
    ensures multiset(Msgs(senders)) == multiset(Msgs(RemoveAt(senders, k))) + multiset{senders[k].msg}
  {
    var m := Msgs(senders);
    assert m == m[..k] + [m[k]] + m[k + 1..];
    assert Msgs(RemoveAt(senders, k)) == m[..k] + m[k + 1..];
  }

  lemma AdmittedMultiset(q: State, prio: Thread -> nat)
    requires q.sendQ != []
    ensures multiset(Backlog(Admitted(q, prio))) == multiset(Backlog(q))
  {
    RemoveMsg(q.sendQ, Chosen(Prios(q.sendQ, SenderPrio(prio)), q.policy));
  }

  lemma {:induction false} RefilledMultiset(q: State, prio: Thread -> nat)
    ensures multiset(Backlog(Refilled(q, prio))) == multiset(Backlog(q))
    ensures Refilled(q, prio).delivered == q.delivered
    decreases |q.sendQ|
  {
    if |q.ring| < q.max && q.sendQ != [] {
      AdmittedMultiset(q, prio);
      RefilledMultiset(Admitted(q, prio), prio);
    }
  }

  lemma NextConserves(a: Account, op: Op, prio: Thread -> nat)
    requires Valid(a.q) && Conserved(a) && Enabled(a.q, op)
    ensures Valid(Next(a, op, prio).q) && Conserved(Next(a, op, prio))
  {
    match op
    case Send(s, wait) => SendConserves(a, s, wait, prio);
    case Receive(r, wait) => ReceiveConserves(a, r, wait, prio);
    case CancelSend(k) => RemoveMsg(a.q.sendQ, k);
    case CancelReceive(k) =>
    case Flush =>
      FlushedValid(a.q, prio);
      RefilledMultiset(a.q.(ring := []), prio);
  }

  lemma BlockedHeld(q: State, s: Sender)
    ensures Held(q.(sendQ := q.sendQ + [s])) == Held(q) + multiset{s.msg}
  {
    assert Msgs(q.sendQ + [s]) == Msgs(q.sendQ) + [s.msg];
    assert Backlog(q.(sendQ := q.sendQ + [s])) == Backlog(q) + [s.msg];
  }

  lemma HandedHeld(q: State, k: nat, msg: Msg)
    requires k < |q.recvQ|
    ensures Held(q.(recvQ := RemoveAt(q.recvQ, k), delivered := q.delivered + [Delivery(q.recvQ[k], msg)])) ==
            Held(q) + multiset{msg}
  {
    DeliveredSnoc(q.delivered, Delivery(q.recvQ[k], msg));
    assert Backlog(q.(recvQ := RemoveAt(q.recvQ, k), delivered := q.delivered + [Delivery(q.recvQ[k], msg)]))
        == Backlog(q);
  }

  lemma PutHeld(q: State, s: Sender)
    ensures Held(q.(ring := Put(q.ring, s))) == Held(q) + multiset{s.msg}
  {
    assert multiset(Put(q.ring, s)) == multiset(q.ring) + multiset{s.msg};
  }

  lemma SendConserves(a: Account, s: Sender, wait: bool, prio: Thread -> nat)
    requires Valid(a.q) && Conserved(a)
    ensures var a' := Next(a, Send(s, wait), prio); Valid(a'.q) && Conserved(a')
  {
    SentValid(a.q, s, wait, prio);
    if |a.q.ring| == a.q.max {
      BlockedHeld(a.q, s);
    } else if a.q.recvQ != [] {
      HandedHeld(a.q, Chosen(Prios(a.q.recvQ, prio), a.q.policy), s.msg);
    } else {
      PutHeld(a.q, s);
    }
  }

  lemma TakenHeld(q: State, r: Receiver)
    requires q.ring != []
    ensures Held(q.(ring := q.ring[1..], delivered := q.delivered + [Delivery(r, q.ring[0])])) == Held(q)
  {
    DeliveredSnoc(q.delivered, Delivery(r, q.ring[0]));
    assert q.ring == [q.ring[0]] + q.ring[1..];
  }

  lemma ReceiveConserves(a: Account, r: Receiver, wait: bool, prio: Thread -> nat)
    requires Valid(a.q) && Conserved(a)
    ensures var a' := Next(a, Receive(r, wait), prio); Valid(a'.q) && Conserved(a')
  {
    ReceivedValid(a.q, r, wait, prio);
    if a.q.ring != [] {
      TakenHeld(a.q, r);
      if a.q.sendQ != [] {
        AdmittedMultiset(a.q.(ring := a.q.ring[1..], delivered := a.q.delivered + [Delivery(r, a.q.ring[0])]), prio);
      }
    }
  }

  ghost predicate IsRun(accounts: seq<Account>, ops: seq<Op>, prios: seq<Thread -> nat>) {
    && |accounts| == |ops| + 1 == |prios| + 1
    && accounts[0].q == State(accounts[0].q.max, accounts[0].q.policy, [], [], [], []) && accounts[0].q.max > 0
    && accounts[0].offered == [] && accounts[0].requests == [] && accounts[0].lost == multiset{}
    && forall k {:trigger ops[k]} | 0 <= k < |ops| ::
         Enabled(accounts[k].q, ops[k]) && accounts[k + 1] == Next(accounts[k], ops[k], prios[k])
  }

  /** In every run, whatever the policy, the timeouts and the flushes, no message is duplicated or disappears. */
  lemma {:induction false} RunsConserve(accounts: seq<Account>, ops: seq<Op>, prios: seq<Thread -> nat>, k: nat)
    requires IsRun(accounts, ops, prios) && k < |accounts|
    ensures Valid(accounts[k].q) && Conserved(accounts[k])
  {
    if k > 0 {
      RunsConserve(accounts, ops, prios, k - 1);
      NextConserves(accounts[k - 1], ops[k - 1], prios[k - 1]);
    }
  }

  /** Sends to the back, and receives; no timeouts and no flush. */
  predicate InOrder(op: Op) {
    (op.Send? && op.s.toBack) || op.Receive?
  }

  /** What was delivered, and then what is still to be delivered. */
  function Stream(q: State): seq<Msg> {
    DeliveredMsgs(q.delivered) + Backlog(q)
  }

  /** The receivers served, and then those that wait. */
  function Line(q: State): seq<Receiver> {
    DeliveredTo(q.delivered) + q.recvQ
  }

  /** A send extends the stream at its end, and leaves the line of receivers as it is. */
  lemma SentStream(q: State, s: Sender, wait: bool, prio: Thread -> nat)
    requires Plain(q) && s.toBack
    ensures var (q', ok) := Sent(q, s, wait, prio);
            Plain(q') && Line(q') == Line(q) && Stream(q') == if ok || wait then Stream(q) + [s.msg] else Stream(q)
  {
    SentIsEnqueue(q, s, wait, prio);
    var (q', ok) := Sent(q, s, wait, prio);
    if (ok || wait) && q.recvQ != [] {
      HandedStream(q, q', s.msg);
    } else if ok || wait {
      assert DeliveredMsgs(q.delivered) + (Backlog(q) + [s.msg]) == Stream(q) + [s.msg];
    }
  }

  lemma HandedStream(q: State, q': State, msg: Msg)
    requires q.recvQ != [] && Backlog(q) == [] == Backlog(q') && q'.recvQ == q.recvQ[1..]
    requires q'.delivered == q.delivered + [Delivery(q.recvQ[0], msg)]
    ensures Line(q') == Line(q) && Stream(q') == Stream(q) + [msg]
  {
    DeliveredSnoc(q.delivered, Delivery(q.recvQ[0], msg));
    assert q.recvQ == [q.recvQ[0]] + q.recvQ[1..];
  }

  /** A receive extends the line at its end, and leaves the stream of messages as it is. */
  lemma ReceivedStream(q: State, r: Receiver, wait: bool, prio: Thread -> nat)
    requires Plain(q)
    ensures var (q', ok) := Received(q, r, wait, prio);
            Plain(q') && Stream(q') == Stream(q) && Line(q') == if ok || wait then Line(q) + [r] else Line(q)
  {
    ReceivedIsDequeue(q, r, wait, prio);
    var b := Backlog(q);
    if b != [] {
      DeliveredSnoc(q.delivered, Delivery(r, b[0]));
      assert b == [b[0]] + b[1..];
      assert q.recvQ == [];
    }
  }

  /** Messages are delivered in the order they were offered, to the receivers in the order they asked. */
  ghost predicate FirstInFirstOut(a: Account) {
    Plain(a.q) && Stream(a.q) == a.offered && Line(a.q) == a.requests
  }

  lemma NextInOrder(a: Account, op: Op, prio: Thread -> nat)
    requires FirstInFirstOut(a) && InOrder(op)
    ensures FirstInFirstOut(Next(a, op, prio))
  {
    if op.Send? {
      SentStream(a.q, op.s, op.wait, prio);
    } else {
      ReceivedStream(a.q, op.r, op.wait, prio);
    }
  }

  /** With FIFO policy the queue is one unbounded FIFO: every message is delivered once, in send order. */
  lemma {:induction false} RunsAreFifo(accounts: seq<Account>, ops: seq<Op>, prios: seq<Thread -> nat>, k: nat)
    requires IsRun(accounts, ops, prios) && k < |accounts| && accounts[0].q.policy == Fifo
    requires forall i | 0 <= i < |ops| :: InOrder(ops[i])
    ensures FirstInFirstOut(accounts[k])
  {
    if k > 0 {
      RunsAreFifo(accounts, ops, prios, k - 1);
      NextInOrder(accounts[k - 1], ops[k - 1], prios[k - 1]);
    }
  }

  // Messages and waits that are lost do not change the order of the others

  /** What is delivered or waits is in the order of the offers, and receivers are served in the order they asked. */
  ghost predicate OrderKept(a: Account) {
    Plain(a.q) && Subsequence(Stream(a.q), a.offered) && Subsequence(Line(a.q), a.requests)
  }

  lemma SendKeepsOrder(a: Account, s: Sender, wait: bool, prio: Thread -> nat)
    requires OrderKept(a) && s.toBack
    ensures OrderKept(Next(a, Send(s, wait), prio))
  {
    SentStream(a.q, s, wait, prio);
    SubsequenceSnoc(Stream(a.q), a.offered, s.msg);
  }

  lemma ReceiveKeepsOrder(a: Account, r: Receiver, wait: bool, prio: Thread -> nat)
    requires OrderKept(a)
    ensures OrderKept(Next(a, Receive(r, wait), prio))
  {
    ReceivedStream(a.q, r, wait, prio);
    SubsequenceSnoc(Line(a.q), a.requests, r);
  }

  lemma CancelSendKeepsOrder(a: Account, k: nat)
    requires OrderKept(a) && k < |a.q.sendQ|
    ensures OrderKept(a.(q := SendCancelled(a.q, k)))
  {
    var q := a.q;
    var front, m := DeliveredMsgs(q.delivered) + q.ring + Msgs(q.sendQ[..k]), [q.sendQ[k].msg];
    assert Stream(q) == front + m + Msgs(q.sendQ[k + 1..]);
    assert Stream(SendCancelled(q, k)) == front + Msgs(q.sendQ[k + 1..]);
    SubsequenceCut(front, m, Msgs(q.sendQ[k + 1..]), a.offered);
  }

  lemma CancelReceiveKeepsOrder(a: Account, k: nat)
    requires OrderKept(a) && k < |a.q.recvQ|
    ensures OrderKept(a.(q := RecvCancelled(a.q, k)))
  {
    var q := a.q;
    var front := DeliveredTo(q.delivered) + q.recvQ[..k];
    assert Line(q) == front + [q.recvQ[k]] + q.recvQ[k + 1..];
    assert Line(RecvCancelled(q, k)) == front + q.recvQ[k + 1..];
    SubsequenceCut(front, [q.recvQ[k]], q.recvQ[k + 1..], a.requests);
  }

  lemma FlushedStream(q: State, prio: Thread -> nat)
    requires Plain(q)
    ensures Stream(Flushed(q, prio)) == DeliveredMsgs(q.delivered) + Msgs(q.sendQ)
    ensures Line(Flushed(q, prio)) == Line(q)
  {
    FlushDropsRing(q, prio);
    RefilledIs(q.(ring := []), prio);
    assert Backlog(q)[|q.ring|..] == Msgs(q.sendQ);
  }

  lemma FlushKeepsOrder(a: Account, prio: Thread -> nat)
    requires OrderKept(a)
    ensures OrderKept(Next(a, Flush, prio))
  {
    FlushedStream(a.q, prio);
    CutRing(a.q, a.offered);
    assert Plain(Flushed(a.q, prio)) by {
      FlushDropsRing(a.q, prio);
    }
  }

  lemma CutRing(q: State, offered: seq<Msg>)
    requires Subsequence(Stream(q), offered)
    ensures Subsequence(DeliveredMsgs(q.delivered) + Msgs(q.sendQ), offered)
  {
    var d := DeliveredMsgs(q.delivered);
    assert Stream(q) == d + q.ring + Msgs(q.sendQ);
    SubsequenceCut(d, q.ring, Msgs(q.sendQ), offered);
  }

  lemma NextKeepsOrder(a: Account, op: Op, prio: Thread -> nat)
    requires OrderKept(a) && Enabled(a.q, op) && (op.Send? ==> op.s.toBack)
    ensures OrderKept(Next(a, op, prio))
  {
    match op
    case Send(s, wait) => SendKeepsOrder(a, s, wait, prio);
    case Receive(r, wait) => ReceiveKeepsOrder(a, r, wait, prio);
    case CancelSend(k) => CancelSendKeepsOrder(a, k);
    case CancelReceive(k) => CancelReceiveKeepsOrder(a, k);
    case Flush => FlushKeepsOrder(a, prio);
  }

  /** With FIFO policy and sends to the back, timeouts and flushes lose messages but never change their order. */
  lemma {:induction false} RunsKeepOrder(accounts: seq<Account>, ops: seq<Op>, prios: seq<Thread -> nat>, k: nat)
    requires IsRun(accounts, ops, prios) && k < |accounts| && accounts[0].q.policy == Fifo
    requires forall i | 0 <= i < |ops| && ops[i].Send? :: ops[i].s.toBack
    ensures OrderKept(accounts[k])
  {
    if k > 0 {
      RunsKeepOrder(accounts, ops, prios, k - 1);
      NextKeepsOrder(accounts[k - 1], ops[k - 1], prios[k - 1]);
    }
  }

  // The ring buffer

  function Wrap(i: nat, max: nat): (r: nat)
    requires i < 2 * max
    ensures r < max
  {
    if i < max then i else i - max
  }

  lemma WrapIsMod(i: nat, max: nat)
    requires i < 2 * max
    ensures i % max == Wrap(i, max)
  {
    if i >= max {
      assert i % max == (i - max) % max by {
        ModPlus(i - max, max);
      }
    }
    ModSmall(Wrap(i, max), max);
  }

  lemma ModSmall(i: nat, max: nat)
    requires i < max
    ensures i % max == i
  {
  }

  lemma ModPlus(i: nat, max: nat)
    requires i < max
    ensures (i + max) % max == i
  {
    assert (i + max) / max == 1;
  }

  /** `items` messages from `tail` on, wrapping around. */
  ghost function RingOf(buf: seq<Msg>, max: nat, tail: nat, items: nat): seq<Msg>
    requires max <= |buf| && tail < max && items <= max
  {
    seq(items, i requires 0 <= i < items => buf[Wrap(tail + i, max)])
  }

  lemma PutBackRing(buf: seq<Msg>, max: nat, tail: nat, items: nat, msg: Msg)
    requires max <= |buf| && tail < max && items < max
    ensures RingOf(buf[Wrap(tail + items, max) := msg], max, tail, items + 1) == RingOf(buf, max, tail, items) + [msg]
    ensures Wrap(Wrap(tail + items, max) + 1, max) == Wrap(tail + items + 1, max)
  {
    var before := RingOf(buf, max, tail, items);
    var after := RingOf(buf[Wrap(tail + items, max) := msg], max, tail, items + 1);
    forall i {:trigger after[i]} | 0 <= i < items ensures after[i] == before[i] {
      assert Wrap(tail + i, max) != Wrap(tail + items, max);
    }
    assert after[items] == msg;
    assert after == before + [msg];
  }

  lemma PutFrontRing(buf: seq<Msg>, max: nat, tail: nat, items: nat, msg: Msg)
    requires max <= |buf| && tail < max && items < max
    ensures var tail' := Wrap(tail + max - 1, max);
            && RingOf(buf[tail' := msg], max, tail', items + 1) == [msg] + RingOf(buf, max, tail, items)
            && Wrap(tail' + items + 1, max) == Wrap(tail + items, max)
  {
    var tail' := Wrap(tail + max - 1, max);
    var before := RingOf(buf, max, tail, items);
    var after := RingOf(buf[tail' := msg], max, tail', items + 1);
    forall i {:trigger after[i]} | 0 < i <= items ensures after[i] == before[i - 1] {
      assert Wrap(tail' + i, max) == Wrap(tail + (i - 1), max);
    }
    assert Wrap(tail' + 0, max) == tail';
    assert after == [msg] + before;
  }

  lemma TakeRing(buf: seq<Msg>, max: nat, tail: nat, items: nat)
    requires max <= |buf| && tail < max && 0 < items <= max
    ensures RingOf(buf, max, Wrap(tail + 1, max), items - 1) == RingOf(buf, max, tail, items)[1..]
    ensures Wrap(Wrap(tail + 1, max) + items - 1, max) == Wrap(tail + items, max)
    ensures RingOf(buf, max, tail, items)[0] == buf[tail]
  {
    var before := RingOf(buf, max, tail, items);
    var after := RingOf(buf, max, Wrap(tail + 1, max), items - 1);
    forall i {:trigger after[i]} | 0 <= i < items - 1 ensures after[i] == before[i + 1] {
      assert Wrap(Wrap(tail + 1, max) + i, max) == Wrap(tail + (i + 1), max);
    }
    assert after == before[1..];
    assert Wrap(tail + 0, max) == tail;
  }

  class MsgQ {
    const buf: array<Msg>
    const itemsMax: nat
    const policy: Policy
    var items: nat
    var head: nat
    var tail: nat
    var sendQ: seq<Sender>
    var recvQ: seq<Receiver>
    ghost var delivered: seq<Delivery>

    ghost predicate RingOk()
      reads this, buf
    {
      && 0 < itemsMax <= buf.Length && items <= itemsMax && tail < itemsMax
      && head == Wrap(tail + items, itemsMax)
    }

    ghost function View(): State
      requires RingOk()
      reads this, buf
    {
      State(itemsMax, policy, RingOf(buf[..], itemsMax, tail, items), sendQ, recvQ, delivered)
    }

    constructor (buf: array<Msg>, itemsMax: nat, policy: Policy)
      requires 0 < itemsMax <= buf.Length
      ensures RingOk() && this.buf == buf && View() == State(itemsMax, policy, [], [], [], [])
    {
      this.buf, this.itemsMax, this.policy := buf, itemsMax, policy;
      items, head, tail := 0, 0, 0;
      sendQ, recvQ, delivered := [], [], [];
    }

    method PutMsg(msg: Msg, toBack: bool)
      requires RingOk() && items < itemsMax
      modifies `items, `head, `tail, buf
      ensures RingOk()
      ensures View().ring == if toBack then old(View()).ring + [msg] else [msg] + old(View()).ring
    {
      if toBack {
        PutBack(msg);
      } else {
        PutFront(msg);
      }
    }

    method PutBack(msg: Msg)
      requires RingOk() && items < itemsMax
      modifies `items, `head, buf
      ensures RingOk() && View().ring == old(View()).ring + [msg]
    {
      ghost var b := buf[..];
      PutBackRing(b, itemsMax, tail, items, msg);
      WrapIsMod(head + 1, itemsMax);
      buf[head] := msg;
      head := (head + 1) % itemsMax;
      assert buf[..] == b[Wrap(tail + items, itemsMax) := msg];
      items := items + 1;
    }

    method PutFront(msg: Msg)
      requires RingOk() && items < itemsMax
      modifies `items, `tail, buf
      ensures RingOk() && View().ring == [msg] + old(View()).ring
    {
      ghost var b := buf[..];
      PutFrontRing(b, itemsMax, tail, items, msg);
      WrapIsMod(tail + (itemsMax - 1), itemsMax);
      tail := (tail + (itemsMax - 1)) % itemsMax;
      buf[tail] := msg;
      assert buf[..] == b[tail := msg];
      items := items + 1;
    }

    /** A blocked sender's message goes into the ring and its wait is satisfied. */
    method Admit(prio: Thread -> nat)
      requires RingOk() && items < itemsMax && sendQ != []
      modifies this, buf
      ensures RingOk() && View() == Admitted(old(View()), prio)
    {
      var k := WaitBlockGet(sendQ, policy, SenderPrio(prio));
      PutMsg(sendQ[k].msg, sendQ[k].toBack);
      sendQ := RemoveAt(sendQ, k);
    }

    /** The message goes straight to a blocked receiver. */
    method Forward(msg: Msg, prio: Thread -> nat)
      requires recvQ != []
      modifies `recvQ, `delivered
      ensures var k := Chosen(Prios(old(recvQ), prio), policy);
              recvQ == RemoveAt(old(recvQ), k) && delivered == old(delivered) + [Delivery(old(recvQ)[k], msg)]
    {
      var k := WaitBlockGet(recvQ, policy, prio);
      delivered := delivered + [Delivery(recvQ[k], msg)];
      recvQ := RemoveAt(recvQ, k);
    }

    method TestAndWaitSend(s: Sender, wait: bool, prio: Thread -> nat) returns (satisfied: bool)
      requires RingOk() && Valid(View())
      modifies this, buf
      ensures RingOk() && Valid(View()) && (View(), satisfied) == Sent(old(View()), s, wait, prio)
    {
      SentValid(View(), s, wait, prio);
      satisfied := false;
      if items == itemsMax {
        if wait {
          sendQ := sendQ + [s];
        }
      } else {
        if items == 0 && recvQ != [] {
          Forward(s.msg, prio);
        } else {
          PutMsg(s.msg, s.toBack);
        }
        satisfied := true;
      }
    }

    method TakeFirst(r: Receiver)
      requires RingOk() && items > 0
      modifies `delivered, `tail, `items
      ensures RingOk() && items == old(items) - 1
      ensures var q := old(View());
              q.ring != [] &&
              View() == q.(ring := q.ring[1..], delivered := q.delivered + [Delivery(r, q.ring[0])])
    {
      TakeRing(buf[..], itemsMax, tail, items);
      WrapIsMod(tail + 1, itemsMax);
      delivered := delivered + [Delivery(r, buf[tail])];
      tail := (tail + 1) % itemsMax;
      items := items - 1;
    }

    method TestAndWaitRecv(r: Receiver, wait: bool, prio: Thread -> nat) returns (satisfied: bool)
      requires RingOk() && Valid(View())
      modifies this, buf
      ensures RingOk() && Valid(View()) && (View(), satisfied) == Received(old(View()), r, wait, prio)
    {
      ReceivedValid(View(), r, wait, prio);
      satisfied := false;
      if items == 0 {
        if wait {
          recvQ := recvQ + [r];
        }
      } else {
        TakeFirst(r);
        if items == itemsMax - 1 && sendQ != [] {
          Admit(prio);
        }
        satisfied := true;
      }
    }

    method CoreFlush(prio: Thread -> nat)
      requires RingOk() && Valid(View())
      modifies this, buf
      ensures RingOk() && Valid(View()) && View() == Flushed(old(View()), prio)
    {
      FlushedValid(View(), prio);
      head, tail, items := 0, 0, 0;
      assert View() == old(View()).(ring := []);
      while items < itemsMax && sendQ != []
        invariant RingOk() && Refilled(View(), prio) == Flushed(old(View()), prio)
        decreases |sendQ|
      {
        Admit(prio);
      }
    }
  }
}
