/**
 The read/write lock: readers wait behind writers, an unlock hands over to the next writer or lets all readers in, and
 a writer that gives up waiting kicks the readers it held back.
 */
module RwLock {
  import opened Options
  import opened Seqs
  import opened Sync

  /**
   `kicks` counts the writers that came back without the lock and have not kicked yet; `woken` logs notifications;
   `holders` are the threads let in to read that have not unlocked yet, each as often as it was let in.
   */
  datatype State = State(
    owner: Option<Thread>,
    readers: nat,
    rdQ: seq<Thread>,
    wrQ: seq<Thread>,
    kicks: nat,
    woken: seq<Thread>,
    holders: multiset<Thread>)

  /** Never an owner and a reader. */
  ghost predicate Exclusive(s: State) {
    s.owner.Some? ==> s.readers == 0
  }

  /** No writer is left queued on a free lock. */
  ghost predicate WritersServed(s: State) {
    s.wrQ != [] ==> s.owner.Some? || s.readers > 0
  }

  /** No reader is left queued when nothing holds it back, unless a kick is due. */
  ghost predicate ReadersServed(s: State) {
    s.rdQ != [] ==> s.owner.Some? || s.wrQ != [] || s.kicks > 0
  }

  /** The counter of readers counts the threads that read. */
  ghost predicate Counted(s: State) {
    |s.holders| == s.readers
  }

  ghost predicate Inv(s: State) {
    && Exclusive(s) && WritersServed(s) && ReadersServed(s) && Counted(s)
    && NoDuplicates(s.rdQ) && NoDuplicates(s.wrQ)
  }

  function Start(): State {
    State(None, 0, [], [], 0, [], multiset{})
  }

  function Pick(q: seq<Thread>, policy: Policy, prio: Thread -> nat): Thread
    requires q != []
  {
    q[Chosen(Prios(q, prio), policy)]
  }

  function ReadTried(s: State, t: Thread, wait: bool): (State, bool) {
    if s.owner.None? && s.wrQ == [] then (s.(readers := s.readers + 1, holders := s.holders + multiset{t}), true)
    else (if wait then s.(rdQ := s.rdQ + [t]) else s, false)
  }

  function WriteTried(s: State, t: Thread, wait: bool): (State, bool) {
    if s.owner.None? && s.readers == 0 then (s.(owner := Some(t)), true)
    else (if wait then s.(wrQ := s.wrQ + [t]) else s, false)
  }

  function WriterReleased(s: State, policy: Policy, prio: Thread -> nat): State
    requires s.wrQ != []
  {
    var w := Pick(s.wrQ, policy, prio);
    s.(owner := Some(w), wrQ := Without(s.wrQ, w), woken := s.woken + [w])
  }

  function ReaderReleased(s: State, policy: Policy, prio: Thread -> nat): State
    requires s.rdQ != []
  {
    var r := Pick(s.rdQ, policy, prio);
    s.(readers := s.readers + 1, rdQ := Without(s.rdQ, r), woken := s.woken + [r],
       holders := s.holders + multiset{r})
  }

  /** The loop that lets readers in until a writer waits. */
  function ReadersReleased(s: State, policy: Policy, prio: Thread -> nat): State
    decreases |s.rdQ|
  {
    if s.rdQ == [] || s.wrQ != [] then s else ReadersReleased(ReaderReleased(s, policy, prio), policy, prio)
  }

  function Unlocked(s: State, me: Thread, policy: Policy, prio: Thread -> nat): State {
    if s.owner == Some(me) then
      if s.wrQ != [] then WriterReleased(s, policy, prio)
      else ReadersReleased(s.(owner := None), policy, prio)
    else if s.owner.None? && s.readers > 0 then
      var s' := s.(readers := s.readers - 1, holders := s.holders - multiset{me});
      if s'.readers == 0 && s.wrQ != [] then WriterReleased(s', policy, prio) else s'
    else s
  }

  // What the operations do

  /** A reader gets in just when no writer owns the lock or waits for it. */
  lemma ReadTriedIs(s: State, t: Thread, wait: bool)
    ensures var (s', ok) := ReadTried(s, t, wait);
            && (ok <==> s.owner.None? && s.wrQ == [])
            && (ok ==> s' == s.(readers := s.readers + 1, holders := s.holders + multiset{t}))
            && (!ok ==> s' == s.(rdQ := s'.rdQ) && s'.rdQ == s.rdQ + if wait then [t] else [])
  {
  }

  /** A writer gets in just when nobody owns the lock or reads. */
  lemma WriteTriedIs(s: State, t: Thread, wait: bool)
    ensures var (s', ok) := WriteTried(s, t, wait);
            && (ok <==> s.owner.None? && s.readers == 0)
            && (ok ==> s' == s.(owner := Some(t)))
            && (!ok ==> s' == s.(wrQ := s'.wrQ) && s'.wrQ == s.wrQ + if wait then [t] else [])
  {
  }

  /** The next waiting writer owns the lock, and was notified. */
  ghost predicate TakenOver(s: State, s': State, policy: Policy, prio: Thread -> nat) {
    exists k :: IsNext(s.wrQ, policy, prio, k) && s'.owner == Some(s.wrQ[k])
             && s'.wrQ == RemoveAt(s.wrQ, k) && s'.woken == s.woken + [s.wrQ[k]]
  }

  lemma WriterReleasedIs(s: State, policy: Policy, prio: Thread -> nat)
    requires NoDuplicates(s.wrQ) && s.wrQ != []
    ensures TakenOver(s, WriterReleased(s, policy, prio), policy, prio)
  {
    var k := Chosen(Prios(s.wrQ, prio), policy);
    ChosenIsNext(s.wrQ, policy, prio);
    WithoutAt(s.wrQ, k);
    assert Pick(s.wrQ, policy, prio) == s.wrQ[k] && Without(s.wrQ, s.wrQ[k]) == RemoveAt(s.wrQ, k);
  }

  /**
   Once the owner or the last reader unlocks, the next writer owns the lock; without one an owner lets all readers in.
   An unlock by anyone else leaves a lock with an owner as it is.
   */
  lemma UnlockedIs(s: State, me: Thread, policy: Policy, prio: Thread -> nat)
    requires Inv(s)
    ensures var s' := Unlocked(s, me, policy, prio);
            && (s.owner.Some? && s.owner != Some(me) ==> s' == s)
            && ((s.owner == Some(me) || (s.owner.None? && s.readers == 1)) && s.wrQ != [] ==>
                  TakenOver(s, s', policy, prio) && s'.readers == 0)
            && (s.owner == Some(me) && s.wrQ == [] ==> s'.owner == None && s'.rdQ == [] && s'.readers == |s.rdQ|)
            && (s.owner.None? && s.readers > 0 && (s.readers > 1 || s.wrQ == []) ==>
                  s'.owner == None && s'.readers == s.readers - 1 && s'.wrQ == s.wrQ && s'.rdQ == s.rdQ)
  {
    if s.wrQ != [] {
      WriterReleasedIs(s, policy, prio);
    } else {
      ReadersReleasedIs(s.(owner := None), policy, prio);
    }
  }

  // The loop

  /** The loop ends with the readers' queue empty or a writer waiting, and counts everyone it lets in. */
  lemma {:induction false} ReadersReleasedIs(s: State, policy: Policy, prio: Thread -> nat)
    ensures var r := ReadersReleased(s, policy, prio);
            if s.wrQ != [] then r == s
            else r.rdQ == [] && r.readers == s.readers + |s.rdQ| && r.holders == s.holders + multiset(s.rdQ)
                 && r.owner == s.owner && r.wrQ == [] && r.kicks == s.kicks
    decreases |s.rdQ|
  {
    if s.rdQ != [] && s.wrQ == [] {
      WithoutMultiset(s.rdQ, Pick(s.rdQ, policy, prio));
      ReadersReleasedIs(ReaderReleased(s, policy, prio), policy, prio);
    }
  }

  /** It notifies the queued readers and nobody else, each once. */
  lemma {:induction false} ReadersWoken(s: State, policy: Policy, prio: Thread -> nat)
    requires s.wrQ == []
    ensures multiset(ReadersReleased(s, policy, prio).woken) == multiset(s.woken) + multiset(s.rdQ)
    decreases |s.rdQ|
  {
    if s.rdQ != [] {
      WithoutMultiset(s.rdQ, Pick(s.rdQ, policy, prio));
      ReadersWoken(ReaderReleased(s, policy, prio), policy, prio);
    }
  }

  lemma FirstReader(s: State, prio: Thread -> nat)
    requires NoDuplicates(s.rdQ) && s.rdQ != []
    ensures var s' := ReaderReleased(s, Fifo, prio);
            && NoDuplicates(s'.rdQ) && |s'.rdQ| < |s.rdQ| && s'.wrQ == s.wrQ
            && s'.woken + s'.rdQ == s.woken + s.rdQ
  {
    assert Pick(s.rdQ, Fifo, prio) == s.rdQ[0];
    WithoutFirst(s.rdQ);
    assert s.woken + [s.rdQ[0]] + s.rdQ[1..] == s.woken + s.rdQ;
  }

  /** With FIFO policy they go in the order they came. */
  lemma {:induction false} ReadersWokenInOrder(s: State, prio: Thread -> nat)
    requires NoDuplicates(s.rdQ) && s.wrQ == []
    ensures ReadersReleased(s, Fifo, prio).woken == s.woken + s.rdQ
    decreases |s.rdQ|
  {
    if s.rdQ != [] {
      FirstReader(s, prio);
      ReadersWokenInOrder(ReaderReleased(s, Fifo, prio), prio);
    } else {
      assert s.woken + s.rdQ == s.woken;
    }
  }

  // Runs

  datatype Op =
    | ReadLock(t: Thread, wait: bool)
    | WriteLock(t: Thread, wait: bool)
    | ReadGivesUp(t: Thread)
    | WriteGivesUp(t: Thread)
    | Kick(policy: Policy)
    | Unlock(t: Thread, policy: Policy)

  ghost predicate Enabled(s: State, op: Op) {
    match op
    case ReadLock(t, _) => t !in s.rdQ && t !in s.wrQ
    case WriteLock(t, _) => t !in s.rdQ && t !in s.wrQ
    case ReadGivesUp(t) => t in s.rdQ
    case WriteGivesUp(t) => t in s.wrQ
    case Kick(_) => s.kicks > 0
    case Unlock(_, _) => true
  }

  /** A write lock that is not taken, at once or after a wait, makes a kick due. */
  function Next(s: State, op: Op, prio: Thread -> nat): State
    requires Enabled(s, op)
  {
    match op
    case ReadLock(t, wait) => ReadTried(s, t, wait).0
    case WriteLock(t, wait) =>
      var (s', taken) := WriteTried(s, t, wait);
      if taken || wait then s' else s'.(kicks := s'.kicks + 1)
    case ReadGivesUp(t) => s.(rdQ := Without(s.rdQ, t))
    case WriteGivesUp(t) => s.(wrQ := Without(s.wrQ, t), kicks := s.kicks + 1)
    case Kick(policy) => ReadersReleased(s, policy, prio).(kicks := s.kicks - 1)
    case Unlock(t, p) => Unlocked(s, t, p, prio)
  }

  lemma PickedIn(q: seq<Thread>, policy: Policy, prio: Thread -> nat)
    requires q != []
    ensures Pick(q, policy, prio) in q
  {
  }

  /** Without the lock held by a writer, an unlock counts one reader less, whoever calls it. */
  predicate UnlockSafe(s: State, t: Thread) {
    s.owner.None? && s.readers > 0 ==> t in s.holders
  }

  lemma UnlockInv(s: State, t: Thread, policy: Policy, prio: Thread -> nat)
    requires Inv(s)
    ensures Inv(Unlocked(s, t, policy, prio)) <==> UnlockSafe(s, t)
  {
    if s.owner == Some(t) {
      WriterUnlocks(s, t, policy, prio);
    } else if s.owner.None? && s.readers > 0 {
      ReaderUnlocks(s, t, policy, prio);
    }
  }

  lemma WriterUnlocks(s: State, t: Thread, policy: Policy, prio: Thread -> nat)
    requires Inv(s) && s.owner == Some(t)
    ensures Inv(Unlocked(s, t, policy, prio))
  {
    if s.wrQ != [] {
      PickedIn(s.wrQ, policy, prio);
      WithoutIs(s.wrQ, Pick(s.wrQ, policy, prio));
    } else {
      ReadersReleasedIs(s.(owner := None), policy, prio);
    }
  }

  lemma ReaderUnlocks(s: State, t: Thread, policy: Policy, prio: Thread -> nat)
    requires Inv(s) && s.owner.None? && s.readers > 0
    ensures Inv(Unlocked(s, t, policy, prio)) <==> t in s.holders
  {
    LessOne(s.holders, t);
    var s' := Unlocked(s, t, policy, prio);
    assert s'.holders == s.holders - multiset{t} && s'.readers == s.readers - 1;
    if s.wrQ != [] {
      PickedIn(s.wrQ, policy, prio);
      WithoutIs(s.wrQ, Pick(s.wrQ, policy, prio));
    }
  }

  lemma LessOne(m: multiset<Thread>, t: Thread)
    ensures |m - multiset{t}| == |m| - if t in m then 1 else 0
  {
    if t in m {
      assert m == (m - multiset{t}) + multiset{t};
    } else {
      assert m - multiset{t} == m;
    }
  }

  /** The loop of the kick does not test the owner; it comes to nothing in these cases, or nobody owns the lock. */
  predicate KickSafe(s: State) {
    s.owner.None? || s.rdQ == [] || s.wrQ != []
  }

  predicate Safe(s: State, op: Op) {
    match op
    case Kick(_) => KickSafe(s)
    case Unlock(t, _) => UnlockSafe(s, t)
    case _ => true
  }

  /** Every operation keeps the invariant, kicks and unlocks just in those cases. */
  lemma NextInv(s: State, op: Op, prio: Thread -> nat)
    requires Inv(s) && Enabled(s, op)
    ensures Inv(Next(s, op, prio)) <==> Safe(s, op)
  {
    match op
    case ReadLock(_, _) =>
    case WriteLock(_, _) =>
    case ReadGivesUp(t) => WithoutIs(s.rdQ, t);
    case WriteGivesUp(t) => WithoutIs(s.wrQ, t);
    case Kick(policy) => KickExact(s, policy, prio);
    case Unlock(t, p) => UnlockInv(s, t, p, prio);
  }

  lemma KickExact(s: State, policy: Policy, prio: Thread -> nat)
    requires Inv(s) && s.kicks > 0
    ensures Inv(Next(s, Kick(policy), prio)) <==> KickSafe(s)
  {
    ReadersReleasedIs(s, policy, prio);
    var readers := Next(s, Kick(policy), prio).readers;
    if s.wrQ != [] {
      assert readers == s.readers;
    } else if s.rdQ == [] {
      assert readers == s.readers + 0;
    } else {
      assert readers >= 1;
    }
  }

  /** A kick that is due is made, and lets all queued readers in unless a writer waits. */
  lemma KickIs(s: State, policy: Policy, prio: Thread -> nat)
    requires s.kicks > 0
    ensures var s' := Next(s, Kick(policy), prio);
            && s'.kicks == s.kicks - 1 && s'.owner == s.owner && s'.wrQ == s.wrQ
            && (s.wrQ != [] ==> s' == s.(kicks := s.kicks - 1))
            && (s.wrQ == [] ==> s'.rdQ == [] && s'.holders == s.holders + multiset(s.rdQ))
  {
    ReadersReleasedIs(s, policy, prio);
  }

  /** A thread that gives up is not queued any more; a writer that does, or that only tries and fails, owes a kick. */
  lemma GivesUpIs(s: State, t: Thread, prio: Thread -> nat)
    requires Inv(s)
    ensures t !in s.rdQ && t !in s.wrQ && (s.owner.Some? || s.readers > 0) ==>
              Next(s, WriteLock(t, false), prio) == s.(kicks := s.kicks + 1)
    ensures t in s.rdQ ==>
              var s' := Next(s, ReadGivesUp(t), prio);
              s' == s.(rdQ := s'.rdQ) && forall u :: u in s'.rdQ <==> u in s.rdQ && u != t
    ensures t in s.wrQ ==>
              var s' := Next(s, WriteGivesUp(t), prio);
              && s' == s.(wrQ := s'.wrQ, kicks := s.kicks + 1)
              && forall u :: u in s'.wrQ <==> u in s.wrQ && u != t
  {
    WithoutIs(s.rdQ, t);
    WithoutIs(s.wrQ, t);
  }

  /** Priorities may change between operations. */
  ghost predicate IsRun(states: seq<State>, ops: seq<Op>, prios: seq<Thread -> nat>) {
    && |states| == |ops| + 1 == |prios| + 1 && states[0] == Start()
    && forall k {:trigger ops[k]} | 0 <= k < |ops| ::
         Enabled(states[k], ops[k]) && states[k + 1] == Next(states[k], ops[k], prios[k])
  }

  /**
   All runs in which readers are kicked and the lock is unlocked only where that is safe: nobody reads while a writer
   owns the lock, and the queues are served.
   */
  lemma {:induction false} RunsAreExclusive(states: seq<State>, ops: seq<Op>, prios: seq<Thread -> nat>, k: nat)
    requires IsRun(states, ops, prios) && k < |states|
    requires forall i {:trigger ops[i]} | 0 <= i < |ops| :: Safe(states[i], ops[i])
    ensures Inv(states[k]) && (states[k].owner.Some? ==> states[k].holders == multiset{})
  {
    if k > 0 {
      RunsAreExclusive(states, ops, prios, k - 1);
      var s, op := states[k - 1], ops[k - 1];
      NextInv(s, op, prios[k - 1]);
      assert Safe(s, op) && states[k] == Next(s, op, prios[k - 1]);
    }
  }

  /** A thread that holds nothing unlocks: the counter says that nobody reads, and a writer enters beside a reader. */
  lemma UnlockBreaks(prio: Thread -> nat) returns (s: State)
    ensures s == Next(Next(Start(), ReadLock(1, true), prio), WriteLock(2, true), prio)
    ensures Inv(s) && !UnlockSafe(s, 9)
    ensures var s' := Next(s, Unlock(9, Fifo), prio);
            s'.owner == Some(2) && s'.readers == 0 && s'.holders == multiset{1}
  {
    var one := multiset{1};
    s := State(None, 1, [], [2], 0, [], one);
    assert Start().holders + one == one;
    assert Next(Start(), ReadLock(1, true), prio) == State(None, 1, [], [], 0, [], one);
    UnlockedAnyway(s, 9, prio);
  }

  lemma UnlockedAnyway(s: State, t: Thread, prio: Thread -> nat)
    requires s.owner.None? && s.readers == 1 && s.wrQ == [2] && t !in s.holders
    ensures var s' := Next(s, Unlock(t, Fifo), prio);
            s'.owner == Some(2) && s'.readers == 0 && s'.holders == s.holders
  {
    assert s.holders - multiset{t} == s.holders;
  }

  lemma ThreeQueued(prio: Thread -> nat) returns (s: State)
    ensures s == Next(Next(Next(Start(), WriteLock(1, true), prio),
                           WriteLock(2, true), prio), ReadLock(3, true), prio)
    ensures s == State(Some(1), 0, [3], [2], 0, [], multiset{})
  {
    s := State(Some(1), 0, [3], [2], 0, [], multiset{});
  }

  /** Without the hypothesis a run leads to an owner and a reader: a writer gives up while another owns the lock. */
  lemma KickBreaks(prio: Thread -> nat) returns (s: State)
    ensures s == Next(Next(Next(Start(), WriteLock(1, true), prio),
                           WriteLock(2, true), prio), ReadLock(3, true), prio)
    ensures Enabled(s, WriteGivesUp(2)) && Enabled(Next(s, WriteGivesUp(2), prio), Kick(Fifo))
    ensures !Exclusive(Next(Next(s, WriteGivesUp(2), prio), Kick(Fifo), prio))
  {
    s := ThreeQueued(prio);
    var s' := Next(s, WriteGivesUp(2), prio);
    assert s' == State(Some(1), 0, [3], [], 1, [], multiset{});
    KickExact(s', Fifo, prio);
  }

  class Lock {
    var owner: Option<Thread>
    var readers: nat
    var rdQ: seq<Thread>
    var wrQ: seq<Thread>
    const policy: Policy
    ghost var kicks: nat
    ghost var woken: seq<Thread>
    ghost var holders: multiset<Thread>

    ghost function View(): State
      reads this
    {
      State(owner, readers, rdQ, wrQ, kicks, woken, holders)
    }

    constructor (policy: Policy)
      ensures View() == Start() && this.policy == policy
    {
      this.policy := policy;
      owner, readers, rdQ, wrQ, kicks, woken, holders := None, 0, [], [], 0, [], multiset{};
    }

    method TestAndWaitReader(me: Thread, wait: bool) returns (satisfied: bool)
      modifies this
      ensures (View(), satisfied) == ReadTried(old(View()), me, wait)
    {
      satisfied := false;
      if owner.None? && wrQ == [] {
        readers := readers + 1;
        holders := holders + multiset{me};
        satisfied := true;
      } else if wait {
        rdQ := rdQ + [me];
      }
    }

    method TestAndWaitWriter(me: Thread, wait: bool) returns (satisfied: bool)
      modifies this
      ensures (View(), satisfied) == WriteTried(old(View()), me, wait)
    {
      satisfied := false;
      if owner.None? && readers == 0 {
        owner := Some(me);
        satisfied := true;
      } else if wait {
        wrQ := wrQ + [me];
      }
    }

    method ReleaseWriter(policy: Policy, prio: Thread -> nat)
      requires wrQ != []
      modifies this
      ensures View() == WriterReleased(old(View()), policy, prio)
    {
      var k := WaitBlockGet(wrQ, policy, prio);
      var waiter := wrQ[k];
      owner := Some(waiter);
      wrQ := Without(wrQ, waiter);
      woken := woken + [waiter];
    }

    method ReleaseReader(policy: Policy, prio: Thread -> nat)
      requires rdQ != []
      modifies `readers, `rdQ, `woken, `holders
      ensures View() == ReaderReleased(old(View()), policy, prio)
    {
      var k := WaitBlockGet(rdQ, policy, prio);
      var waiter := rdQ[k];
      readers := readers + 1;
      rdQ := Without(rdQ, waiter);
      woken := woken + [waiter];
      holders := holders + multiset{waiter};
    }

    method ReleaseReaders(policy: Policy, prio: Thread -> nat)
      modifies `readers, `rdQ, `woken, `holders
      ensures View() == ReadersReleased(old(View()), policy, prio)
    {
      while rdQ != [] && wrQ == []
        invariant ReadersReleased(View(), policy, prio) == ReadersReleased(old(View()), policy, prio)
        decreases |rdQ|
      {
        ReleaseReader(policy, prio);
      }
    }

    method UnlockWithPolicy(me: Thread, policy: Policy, prio: Thread -> nat)
      modifies this
      ensures View() == Unlocked(old(View()), me, policy, prio)
    {
      if owner == Some(me) {
        if wrQ != [] {
          ReleaseWriter(policy, prio);
        } else {
          owner := None;
          ReleaseReaders(policy, prio);
        }
      } else {
        if owner.None? && readers > 0 {
          readers := readers - 1;
          holders := holders - multiset{me};
          if readers == 0 && wrQ != [] {
            ReleaseWriter(policy, prio);
          }
        }
      }
    }

    method KickReaders(prio: Thread -> nat)
      requires kicks > 0
      modifies this
      ensures View() == Next(old(View()), Kick(policy), prio)
    {
      ReleaseReaders(policy, prio);
      kicks := kicks - 1;
    }
  }
}
