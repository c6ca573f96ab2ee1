/**
 The wait protocol: a thread waits for an object and, at the same time, for an event that cancels the wait. Objects
 and events notify it in any order, and it comes back to take the wait down and work out the result.
 */
module WaitProtocol {
  import opened Options
  import opened Seqs
  import opened Sync

  const INFINITE_TIMEOUT: nat := 0xFFFF_FFFF
  const MAX_RELATIVE_TIMEOUT: nat := 0x7FFF_FFFF

  type Timeout = n: nat | n < 0x1_0000_0000

  datatype Result = Ok | WaitCancelled | WaitDeleted | WaitInterrupted | WaitTimeout | InvalidTimeout

  /** Where a thread is: in no wait, between arming its timer and starting the wait, or in a wait. */
  datatype Phase =
    | Running(last: Option<Result>)
    | Armed(target: Object)
    | Waiting(target: Object, cancel: Option<Object>, timed: bool)

  datatype State = State(net: Net, phases: map<Thread, Phase>, signaled: map<Object, bool>) {
    function Phase(t: Thread): Phase {
      if t in phases then phases[t] else Running(None)
    }

    function Signaled(e: Object): bool {
      e in signaled && signaled[e]
    }
  }

  function WaitStatus(obj0: Status, obj1: Status): Result {
    if obj0 == Satisfied then Ok
    else if obj1 == Satisfied then WaitCancelled
    else if obj0 == Deleted || obj1 == Deleted then WaitDeleted
    else WaitInterrupted
  }

  function Reported(result: Result, timed: bool): Result {
    if timed && result == WaitCancelled then WaitTimeout else result
  }

  // The steps

  /** Fresh wait blocks. The main block's attribute shares its memory with the status, so that may be anything. */
  function Prepared(n: Net, t: Thread, attr: Status): Net {
    n.(links := n.links[Block(t, 0) := Link(None, attr)][Block(t, 1) := Link(None, InProgress)],
       wbNum := n.wbNum[t := 2], grants := n.grants[t := 0])
  }

  function Suspended(n: Net, t: Thread): Net {
    n.(suspends := n.suspends[t := n.Suspends(t) + 1])
  }

  function Returned(s: State, t: Thread, net: Net, result: Result): State {
    s.(net := net, phases := s.phases[t := Running(Some(result))])
  }

  /** `available` is what the object's own test says; if so, the thread is given what it waits for. */
  function Begun(s: State, t: Thread, o: Object, attr: Status, cancel: Option<Object>, timed: bool, available: bool)
    : State
  {
    var n := Prepared(s.net, t, attr);
    if available then Returned(s, t, RolledBack(n.(grants := n.grants[t := 1]), t), Ok)
    else
      var n' := Started(n, o, Block(t, 0));
      match cancel
      case None => s.(net := Suspended(n', t), phases := s.phases[t := Waiting(o, cancel, timed)])
      case Some(e) =>
        if s.Signaled(e) then Returned(s, t, RolledBack(n', t), Reported(WaitCancelled, timed))
        else
          var n'' := Started(n', e, Block(t, 1));
          s.(net := Suspended(n'', t), phases := s.phases[t := Waiting(o, cancel, timed)])
  }

  function Ended(s: State, t: Thread): State
    requires s.Phase(t).Waiting?
  {
    var n := RolledBack(s.net, t);
    var result := if s.net.WbNum(t) == 0 then WaitInterrupted
                  else WaitStatus(n.LinkOf(Block(t, 0)).status, n.LinkOf(Block(t, 1)).status);
    Returned(s, t, n, Reported(result, s.Phase(t).timed))
  }

  function TimedBegun(s: State, t: Thread, o: Object, attr: Status, timeout: Timeout, available: bool): State {
    var counted := s.net.(grants := s.net.grants[t := if timeout == 0 && available then 1 else 0]);
    if timeout == INFINITE_TIMEOUT then Begun(s, t, o, attr, None, false, available)
    else if timeout == 0 then Returned(s, t, counted, if available then Ok else WaitTimeout)
    else if timeout < MAX_RELATIVE_TIMEOUT then
      s.(signaled := s.signaled[TimerEvent(t) := false], phases := s.phases[t := Armed(o)])
    else Returned(s, t, counted, InvalidTimeout)
  }

  function EventSet(s: State, e: Object): State {
    s.(signaled := s.signaled[e := true], net := if s.Signaled(e) then s.net else NotifiedAll(s.net, e, Satisfied))
  }

  /** Threads go through their waits; objects and events notify whatever is in their queues, at any time. */
  datatype Step =
    | Begin(t: Thread, o: Object, attr: Status, cancel: Option<Object>, available: bool)
    | BeginTimed(t: Thread, o: Object, attr: Status, timeout: Timeout, available: bool)
    | BeginArmed(t: Thread, attr: Status, available: bool)
    | End(t: Thread)
    | Notify(o: Object, b: Block, reason: Status)
    | NotifyEvery(o: Object, reason: Status)
    | SetEvent(e: Object)
    | ResetEvent(e: Object)

  ghost predicate Enabled(s: State, step: Step) {
    match step
    case Begin(t, _, _, _, _) => s.Phase(t).Running?
    case BeginTimed(t, _, _, _, _) => s.Phase(t).Running?
    case BeginArmed(t, _, _) => s.Phase(t).Armed?
    case End(t) => s.Phase(t).Waiting? && s.net.Suspends(t) == 0
    case Notify(o, b, reason) => b in s.net.Queue(o) && (reason == Satisfied || reason == Deleted)
    case NotifyEvery(_, reason) => reason == Satisfied || reason == Deleted
    case SetEvent(_) => true
    case ResetEvent(_) => true
  }

  function Next(s: State, step: Step): State
    requires Enabled(s, step)
  {
    match step
    case Begin(t, o, attr, cancel, available) => Begun(s, t, o, attr, cancel, false, available)
    case BeginTimed(t, o, attr, timeout, available) => TimedBegun(s, t, o, attr, timeout, available)
    case BeginArmed(t, attr, available) =>
      Begun(s, t, s.Phase(t).target, attr, Some(TimerEvent(t)), true, available)
    case End(t) => Ended(s, t)
    case Notify(o, b, reason) => s.(net := NotifiedOne(s.net, o, reason, b))
    case NotifyEvery(o, reason) => s.(net := NotifiedAll(s.net, o, reason))
    case SetEvent(e) => EventSet(s, e)
    case ResetEvent(e) => s.(signaled := s.signaled[e := false])
  }

  // The invariant

  predicate Unlinked(l: Link) {
    l.waitable == None
  }

  predicate Notified(l: Link) {
    Unlinked(l) && (l.status == Satisfied || l.status == Deleted)
  }

  /**
   What holds of a thread with these two blocks. In a wait it sleeps just as long as no block was notified, it was
   granted the object just when its main block was SATISFIED, and it is granted the object at most once.
   */
  predicate ThreadOk(phase: Phase, main: Link, cancel: Link, wbNum: nat, suspends: nat, grants: nat) {
    match phase
    case Running(last) =>
      && Unlinked(main) && Unlinked(cancel) && wbNum == 0 && suspends == 0
      && (last.Some? ==> last.value != WaitInterrupted && grants == if last.value == Ok then 1 else 0)
    case Armed(_) => Unlinked(main) && Unlinked(cancel) && wbNum == 0 && suspends == 0
    case Waiting(o, c, _) =>
      && wbNum == 2
      && (main.waitable == Some(o) || Notified(main))
      && grants == (if Notified(main) && main.status == Satisfied then 1 else 0)
      && (c.None? ==> cancel == Link(None, InProgress))
      && (c.Some? ==> cancel.waitable == c || Notified(cancel))
      && suspends == if Notified(main) || Notified(cancel) then 0 else 1
  }

  ghost predicate Fine(s: State, t: Thread) {
    ThreadOk(s.Phase(t), s.net.LinkOf(Block(t, 0)), s.net.LinkOf(Block(t, 1)),
             s.net.WbNum(t), s.net.Suspends(t), s.net.Grants(t))
  }

  ghost predicate Inv(s: State) {
    && Linked(s.net) && (forall t {:trigger Fine(s, t)} :: Fine(s, t))
    && forall b {:trigger s.net.LinkOf(b)} :: s.net.LinkOf(b).waitable.Some? ==> b.slot < 2
  }

  lemma NotifiedLinkIs(n: Net, o: Object, b: Block, reason: Status, c: Block)
    ensures NotifiedOne(n, o, reason, b).LinkOf(c) == if c == b then Link(None, reason) else n.LinkOf(c)
  {
  }

  lemma NotifiedCountsAre(n: Net, o: Object, b: Block, reason: Status, t: Thread)
    ensures var n' := NotifiedOne(n, o, reason, b);
            && n'.WbNum(t) == n.WbNum(t)
            && n'.Suspends(t) == n.Suspends(t) - (if b.thread == t && n.Suspends(t) > 0 then 1 else 0)
            && n'.Grants(t) == n.Grants(t) + (if b.thread == t && b.slot == 0 && reason == Satisfied then 1 else 0)
  {
  }

  lemma NotifyFine(s: State, o: Object, b: Block, reason: Status, t: Thread)
    requires Fine(s, t) && b.slot < 2
    requires s.net.LinkOf(b).waitable == Some(o) && (reason == Satisfied || reason == Deleted)
    ensures Fine(s.(net := NotifiedOne(s.net, o, reason, b)), t)
  {
    NotifiedLinkIs(s.net, o, b, reason, Block(t, 0));
    NotifiedLinkIs(s.net, o, b, reason, Block(t, 1));
    NotifiedCountsAre(s.net, o, b, reason, t);
    assert b == Block(b.thread, 0) || b == Block(b.thread, 1);
  }

  lemma NotifyInv(s: State, o: Object, b: Block, reason: Status)
    requires Inv(s) && b in s.net.Queue(o) && (reason == Satisfied || reason == Deleted)
    ensures Inv(s.(net := NotifiedOne(s.net, o, reason, b)))
  {
    var s' := s.(net := NotifiedOne(s.net, o, reason, b));
    NotifiedOneLinked(s.net, o, reason, b);
    assert s.net.LinkOf(b).waitable == Some(o);
    forall t ensures Fine(s', t) {
      assert Fine(s, t);
      NotifyFine(s, o, b, reason, t);
    }
    forall c ensures s'.net.LinkOf(c).waitable.Some? ==> c.slot < 2 {
      NotifiedLinkIs(s.net, o, b, reason, c);
    }
  }

  lemma {:induction false} NotifyEveryInv(s: State, o: Object, reason: Status)
    requires Inv(s) && (reason == Satisfied || reason == Deleted)
    ensures Inv(s.(net := NotifiedAll(s.net, o, reason)))
    decreases |s.net.Queue(o)|
  {
    if s.net.Queue(o) != [] {
      var first := s.net.Queue(o)[0];
      NotifyInv(s, o, first, reason);
      NotifyEveryInv(s.(net := NotifiedOne(s.net, o, reason, first)), o, reason);
    }
  }

  lemma PreparedLinked(n: Net, t: Thread, attr: Status)
    requires Linked(n) && Unlinked(n.LinkOf(Block(t, 0))) && Unlinked(n.LinkOf(Block(t, 1)))
    ensures Linked(Prepared(n, t, attr))
  {
    var n' := Prepared(n, t, attr);
    assert forall o: Object :: n'.Queue(o) == n.Queue(o);
    forall o: Object, b: Block ensures b in n'.Queue(o) <==> n'.LinkOf(b).waitable == Some(o) {
      assert b in n.Queue(o) <==> n.LinkOf(b).waitable == Some(o);
    }
  }

  lemma SameLinks(n: Net, n': Net)
    requires Linked(n) && n'.queues == n.queues && n'.links == n.links
    ensures Linked(n')
  {
    assert forall o: Object :: n'.Queue(o) == n.Queue(o);
    assert forall b: Block :: n'.LinkOf(b) == n.LinkOf(b);
  }

  /** What a wait leaves behind when it ends before the thread sleeps: both blocks unlinked. */
  ghost predicate Undone(n: Net, n': Net, t: Thread, grants: nat) {
    && Linked(n') && n'.WbNum(t) == 0 && n'.suspends == n.suspends && n'.grants == n.grants[t := grants]
    && Unlinked(n'.LinkOf(Block(t, 0))) && Unlinked(n'.LinkOf(Block(t, 1)))
    && (forall u | u != t :: n'.WbNum(u) == n.WbNum(u))
    && forall b: Block {:trigger n'.LinkOf(b)} | b.thread != t || b.slot >= 2 :: n'.LinkOf(b) == n.LinkOf(b)
  }

  lemma AvailableUndone(n: Net, t: Thread, attr: Status)
    requires Linked(n) && Unlinked(n.LinkOf(Block(t, 0))) && Unlinked(n.LinkOf(Block(t, 1)))
    ensures var p := Prepared(n, t, attr);
            Undone(n, RolledBack(p.(grants := p.grants[t := 1]), t), t, 1)
  {
    PreparedLinked(n, t, attr);
    var p := Prepared(n, t, attr);
    var g := p.(grants := p.grants[t := 1]);
    SameLinks(p, g);
    RolledBackIs(g, t);
    assert g.grants == n.grants[t := 1];
    forall b: Block | b.thread != t || b.slot >= 2 ensures g.LinkOf(b) == n.LinkOf(b) {}
  }

  lemma CancelUndone(n: Net, t: Thread, attr: Status, o: Object)
    requires Linked(n) && Unlinked(n.LinkOf(Block(t, 0))) && Unlinked(n.LinkOf(Block(t, 1)))
    ensures Undone(n, RolledBack(Started(Prepared(n, t, attr), o, Block(t, 0)), t), t, 0)
  {
    PreparedLinked(n, t, attr);
    var p := Prepared(n, t, attr);
    var n' := Started(p, o, Block(t, 0));
    StartedLinked(p, o, Block(t, 0));
    RolledBackIs(n', t);
    forall b: Block | b.thread != t || b.slot >= 2 ensures n'.LinkOf(b) == n.LinkOf(b) {}
  }

  /** A thread that goes to sleep has its blocks in the queues it waits in. */
  lemma SleepLinked(n: Net, t: Thread, attr: Status, o: Object, cancel: Option<Object>)
    requires Linked(n) && Unlinked(n.LinkOf(Block(t, 0))) && Unlinked(n.LinkOf(Block(t, 1)))
    ensures Linked(Asleep(n, t, attr, o, cancel))
  {
    PreparedLinked(n, t, attr);
    var p := Prepared(n, t, attr);
    StartedLinked(p, o, Block(t, 0));
    var n' := Started(p, o, Block(t, 0));
    if cancel.Some? {
      StartedLinked(n', cancel.value, Block(t, 1));
      SameLinks(Started(n', cancel.value, Block(t, 1)), Suspended(Started(n', cancel.value, Block(t, 1)), t));
    } else {
      SameLinks(n', Suspended(n', t));
    }
  }

  lemma UndoneInv(s: State, t: Thread, net: Net, result: Result)
    requires Inv(s) && Fine(s, t) && !s.Phase(t).Waiting?
    requires result == Ok || result == WaitCancelled || result == WaitTimeout
    requires Undone(s.net, net, t, if result == Ok then 1 else 0)
    ensures Inv(Returned(s, t, net, result))
  {
    forall u ensures Fine(Returned(s, t, net, result), u) {
      assert Fine(s, u);
    }
  }

  function Asleep(n: Net, t: Thread, attr: Status, o: Object, cancel: Option<Object>): Net {
    var n' := Started(Prepared(n, t, attr), o, Block(t, 0));
    Suspended(if cancel.Some? then Started(n', cancel.value, Block(t, 1)) else n', t)
  }

  lemma AsleepLinkIs(n: Net, t: Thread, attr: Status, o: Object, cancel: Option<Object>, b: Block)
    ensures Asleep(n, t, attr, o, cancel).LinkOf(b) ==
            if b == Block(t, 0) then Link(Some(o), attr)
            else if b == Block(t, 1) then Link(cancel, InProgress)
            else n.LinkOf(b)
  {
  }

  lemma AsleepCountsAre(n: Net, t: Thread, attr: Status, o: Object, cancel: Option<Object>, u: Thread)
    ensures var n' := Asleep(n, t, attr, o, cancel);
            && n'.WbNum(u) == (if u == t then 2 else n.WbNum(u))
            && n'.Suspends(u) == n.Suspends(u) + (if u == t then 1 else 0)
            && n'.Grants(u) == (if u == t then 0 else n.Grants(u))
  {
  }

  lemma SleepInv(s: State, t: Thread, attr: Status, o: Object, cancel: Option<Object>, timed: bool)
    requires Inv(s) && Fine(s, t) && !s.Phase(t).Waiting?
    ensures Inv(s.(net := Asleep(s.net, t, attr, o, cancel), phases := s.phases[t := Waiting(o, cancel, timed)]))
  {
    var net := Asleep(s.net, t, attr, o, cancel);
    var s' := s.(net := net, phases := s.phases[t := Waiting(o, cancel, timed)]);
    SleepLinked(s.net, t, attr, o, cancel);
    forall u ensures Fine(s', u) {
      assert Fine(s, u);
      AsleepLinkIs(s.net, t, attr, o, cancel, Block(u, 0));
      AsleepLinkIs(s.net, t, attr, o, cancel, Block(u, 1));
      AsleepCountsAre(s.net, t, attr, o, cancel, u);
    }
    forall b ensures net.LinkOf(b).waitable.Some? ==> b.slot < 2 {
      AsleepLinkIs(s.net, t, attr, o, cancel, b);
    }
  }

  lemma BegunInv(s: State, t: Thread, o: Object, attr: Status, cancel: Option<Object>, timed: bool, available: bool)
    requires Inv(s) && !s.Phase(t).Waiting?
    ensures Inv(Begun(s, t, o, attr, cancel, timed, available))
  {
    assert Fine(s, t);
    if available {
      AvailableUndone(s.net, t, attr);
      UndoneInv(s, t, Begun(s, t, o, attr, cancel, timed, true).net, Ok);
    } else if cancel.Some? && s.Signaled(cancel.value) {
      CancelUndone(s.net, t, attr, o);
      UndoneInv(s, t, Begun(s, t, o, attr, cancel, timed, false).net, Reported(WaitCancelled, timed));
    } else {
      SleepInv(s, t, attr, o, cancel, timed);
    }
  }

  lemma EndedInv(s: State, t: Thread)
    requires Inv(s) && s.Phase(t).Waiting? && s.net.Suspends(t) == 0
    ensures Inv(Ended(s, t))
  {
    assert Fine(s, t);
    RolledBackIs(s.net, t);
    forall u ensures Fine(Ended(s, t), u) {
      assert Fine(s, u);
    }
  }

  lemma TimedBegunInv(s: State, t: Thread, o: Object, attr: Status, timeout: Timeout, available: bool)
    requires Inv(s) && s.Phase(t).Running?
    ensures Inv(TimedBegun(s, t, o, attr, timeout, available))
  {
    assert Fine(s, t);
    var s' := TimedBegun(s, t, o, attr, timeout, available);
    if timeout == INFINITE_TIMEOUT {
      BegunInv(s, t, o, attr, None, false, available);
    } else {
      SameLinks(s.net, s'.net);
      forall u ensures Fine(s', u) {
        assert Fine(s, u);
      }
      assert forall b: Block :: s'.net.LinkOf(b) == s.net.LinkOf(b);
    }
  }

  lemma SignalInv(s: State, s': State)
    requires Inv(s) && s'.net == s.net && s'.phases == s.phases
    ensures Inv(s')
  {
    forall u ensures Fine(s', u) {
      assert Fine(s, u);
    }
  }

  lemma NextInv(s: State, step: Step)
    requires Inv(s) && Enabled(s, step)
    ensures Inv(Next(s, step))
  {
    match step
    case Begin(t, o, attr, cancel, available) => BegunInv(s, t, o, attr, cancel, false, available);
    case BeginTimed(t, o, attr, timeout, available) => TimedBegunInv(s, t, o, attr, timeout, available);
    case BeginArmed(t, attr, available) =>
      BegunInv(s, t, s.Phase(t).target, attr, Some(TimerEvent(t)), true, available);
    case End(t) => EndedInv(s, t);
    case Notify(o, b, reason) => NotifyInv(s, o, b, reason);
    case NotifyEvery(o, reason) => NotifyEveryInv(s, o, reason);
    case SetEvent(e) =>
      SignalInv(s, s.(signaled := s.signaled[e := true]));
      NotifyEveryInv(s.(signaled := s.signaled[e := true]), e, Satisfied);
    case ResetEvent(e) => SignalInv(s, s.(signaled := s.signaled[e := false]));
  }

  // Runs

  ghost function Start(): State {
    State(Net(map[], map[], map[], map[], map[]), map[], map[])
  }

  ghost predicate IsRun(states: seq<State>, steps: seq<Step>) {
    && |states| == |steps| + 1 && states[0] == Start()
    && forall k {:trigger steps[k]} | 0 <= k < |steps| ::
         Enabled(states[k], steps[k]) && states[k + 1] == Next(states[k], steps[k])
  }

  lemma StartInv()
    ensures Inv(Start())
  {
    forall t ensures Fine(Start(), t) {}
  }

  lemma {:induction false} RunInv(states: seq<State>, steps: seq<Step>, k: nat)
    requires IsRun(states, steps) && k < |states|
    ensures Inv(states[k])
  {
    if k == 0 {
      StartInv();
    } else {
      RunInv(states, steps, k - 1);
      NextInv(states[k - 1], steps[k - 1]);
    }
  }

  /**
   In every state of every run: a thread that came back from a wait is in no queue, and it came back with OK just when
   the object was given to it, which happened at most once.
   */
  lemma ReturnedClean(states: seq<State>, steps: seq<Step>, k: nat, t: Thread)
    requires IsRun(states, steps) && k < |states| && states[k].Phase(t).Running? && states[k].Phase(t).last.Some?
    ensures var s := states[k];
            && (forall o, i :: Block(t, i) !in s.net.Queue(o))
            && s.net.Grants(t) == (if s.Phase(t).last == Some(Ok) then 1 else 0)
            && s.Phase(t).last != Some(WaitInterrupted) && s.net.Suspends(t) == 0
  {
    RunInv(states, steps, k);
    var s := states[k];
    assert Fine(s, t);
    forall o: Object, i: nat ensures Block(t, i) !in s.net.Queue(o) {
      assert Block(t, i) in s.net.Queue(o) <==> s.net.LinkOf(Block(t, i)).waitable == Some(o);
    }
  }

  /** A sleeping thread sleeps just while nothing has notified it: no wake-up is lost, and none is spurious. */
  lemma SleepsUntilNotified(states: seq<State>, steps: seq<Step>, k: nat, t: Thread)
    requires IsRun(states, steps) && k < |states| && states[k].Phase(t).Waiting?
    ensures var s := states[k];
            && s.net.Suspends(t) <= 1
            && (s.net.Suspends(t) == 1 <==>
                  && Block(t, 0) in s.net.Queue(s.Phase(t).target)
                  && (s.Phase(t).cancel.Some? ==> Block(t, 1) in s.net.Queue(s.Phase(t).cancel.value)))
  {
    RunInv(states, steps, k);
    var s := states[k];
    assert Fine(s, t);
    var o, c := s.Phase(t).target, s.Phase(t).cancel;
    assert Block(t, 0) in s.net.Queue(o) <==> s.net.LinkOf(Block(t, 0)).waitable == Some(o);
    if c.Some? {
      assert Block(t, 1) in s.net.Queue(c.value) <==> s.net.LinkOf(Block(t, 1)).waitable == c;
    }
  }

  /** The result of a wait that slept, from what notified it: the main block decides, however late it came. */
  lemma EndResult(states: seq<State>, steps: seq<Step>, k: nat, t: Thread)
    requires IsRun(states, steps) && k < |steps| && steps[k] == End(t)
    ensures var s := states[k];
            var main, cancel := s.net.LinkOf(Block(t, 0)), s.net.LinkOf(Block(t, 1));
            var timedOut := if s.Phase(t).timed then WaitTimeout else WaitCancelled;
            states[k + 1].Phase(t) == Running(Some(
              if s.net.Grants(t) == 1 then Ok
              else if cancel.waitable.None? && cancel.status == Satisfied then timedOut
              else WaitDeleted))
  {
    RunInv(states, steps, k);
    var s := states[k];
    assert Fine(s, t);
    RolledBackIs(s.net, t);
  }

  // Nobody waits for a cancel event that is already set

  /** A thread that is linked to a cancel event will be notified when it is set: it is not set yet. */
  ghost predicate Watches(s: State, t: Thread, e: Object) {
    s.net.LinkOf(Block(t, 1)).waitable == Some(e) ==> !s.Signaled(e)
  }

  ghost predicate WatchInv(s: State) {
    forall t: Thread, e: Object {:trigger Watches(s, t, e)} :: Watches(s, t, e)
  }

  /** Blocks are unlinked at most, and no event is set. */
  lemma FewerWatch(s: State, s': State)
    requires WatchInv(s)
    requires forall t :: s'.net.LinkOf(Block(t, 1)).waitable in {None, s.net.LinkOf(Block(t, 1)).waitable}
    requires forall e :: s'.Signaled(e) ==> s.Signaled(e)
    ensures WatchInv(s')
  {
    forall t: Thread, e: Object ensures Watches(s', t, e) {
      assert Watches(s, t, e);
    }
  }

  lemma BegunWatches(s: State, t: Thread, o: Object, attr: Status, cancel: Option<Object>, timed: bool, available: bool)
    requires Inv(s) && WatchInv(s) && !s.Phase(t).Waiting?
    ensures WatchInv(Begun(s, t, o, attr, cancel, timed, available))
  {
    assert Fine(s, t);
    var s' := Begun(s, t, o, attr, cancel, timed, available);
    if available {
      AvailableUndone(s.net, t, attr);
      FewerWatch(s, s');
    } else if cancel.Some? && s.Signaled(cancel.value) {
      CancelUndone(s.net, t, attr, o);
      FewerWatch(s, s');
    } else {
      forall u: Thread, e: Object ensures Watches(s', u, e) {
        assert Watches(s, u, e);
        AsleepLinkIs(s.net, t, attr, o, cancel, Block(u, 1));
      }
    }
  }

  lemma NotifiedAllWatches(s: State, e: Object, reason: Status, raised: bool)
    requires Linked(s.net) && WatchInv(s)
    ensures WatchInv(s.(signaled := if raised then s.signaled[e := true] else s.signaled,
                        net := NotifiedAll(s.net, e, reason)))
  {
    var s' := s.(signaled := if raised then s.signaled[e := true] else s.signaled,
                 net := NotifiedAll(s.net, e, reason));
    forall t: Thread, x: Object ensures Watches(s', t, x) {
      assert Watches(s, t, x);
      NotifiedAllIs(s.net, e, reason, Block(t, 1));
      assert Block(t, 1) in s.net.Queue(e) <==> s.net.LinkOf(Block(t, 1)).waitable == Some(e);
    }
  }

  lemma NextWatches(s: State, step: Step)
    requires Inv(s) && WatchInv(s) && Enabled(s, step)
    ensures WatchInv(Next(s, step))
  {
    match step
    case Begin(t, o, attr, cancel, available) => BegunWatches(s, t, o, attr, cancel, false, available);
    case BeginTimed(t, o, attr, timeout, available) =>
      if timeout == INFINITE_TIMEOUT {
        BegunWatches(s, t, o, attr, None, false, available);
      } else {
        FewerWatch(s, Next(s, step));
      }
    case BeginArmed(t, attr, available) =>
      BegunWatches(s, t, s.Phase(t).target, attr, Some(TimerEvent(t)), true, available);
    case End(t) =>
      assert Fine(s, t);
      RolledBackIs(s.net, t);
      FewerWatch(s, Next(s, step));
    case Notify(o, b, reason) => FewerWatch(s, Next(s, step));
    case NotifyEvery(o, reason) => NotifiedAllWatches(s, o, reason, false);
    case SetEvent(e) =>
      if s.Signaled(e) {
        FewerWatch(s, Next(s, step));
      } else {
        NotifiedAllWatches(s, e, Satisfied, true);
      }
    case ResetEvent(e) => FewerWatch(s, Next(s, step));
  }

  lemma {:induction false} RunWatches(states: seq<State>, steps: seq<Step>, k: nat)
    requires IsRun(states, steps) && k < |states|
    ensures WatchInv(states[k])
  {
    if k > 0 {
      RunInv(states, steps, k - 1);
      RunWatches(states, steps, k - 1);
      NextWatches(states[k - 1], steps[k - 1]);
    }
  }

  /** In no state of any run is a block in the queue of a cancel event that is set, and no such thread sleeps. */
  lemma NobodySleepsOnASetEvent(states: seq<State>, steps: seq<Step>, k: nat, t: Thread, e: Object)
    requires IsRun(states, steps) && k < |states| && states[k].Signaled(e)
    ensures Block(t, 1) !in states[k].net.Queue(e)
    ensures states[k].Phase(t).Waiting? && states[k].Phase(t).cancel == Some(e) ==> states[k].net.Suspends(t) == 0
  {
    RunInv(states, steps, k);
    RunWatches(states, steps, k);
    var s := states[k];
    assert Watches(s, t, e) && Fine(s, t);
    assert Block(t, 1) in s.net.Queue(e) <==> s.net.LinkOf(Block(t, 1)).waitable == Some(e);
  }

  /** Setting an event sets it, and leaves nobody in its queue who came before. */
  lemma SetWakesAll(states: seq<State>, steps: seq<Step>, k: nat, e: Object)
    requires IsRun(states, steps) && k < |steps| && steps[k] == SetEvent(e)
    ensures var s, s' := states[k], states[k + 1];
            && s'.Signaled(e) && (forall x | x != e :: s'.Signaled(x) == s.Signaled(x))
            && (!s.Signaled(e) ==> s'.net.Queue(e) == [])
            && forall t | s.Phase(t).Waiting? && s.Phase(t).cancel == Some(e) :: s'.net.Suspends(t) == 0
  {
    RunInv(states, steps, k);
    var s, s' := states[k], states[k + 1];
    if !s.Signaled(e) {
      NotifiedAllLinked(s.net, e, Satisfied);
    }
    forall t | s.Phase(t).Waiting? && s.Phase(t).cancel == Some(e) ensures s'.net.Suspends(t) == 0 {
      assert s'.phases == s.phases;
      NobodySleepsOnASetEvent(states, steps, k + 1, t, e);
    }
  }

  /** Resetting an event makes threads wait for it again, and touches nobody who waits. */
  lemma ResetIs(states: seq<State>, steps: seq<Step>, k: nat, e: Object)
    requires IsRun(states, steps) && k < |steps| && steps[k] == ResetEvent(e)
    ensures var s, s' := states[k], states[k + 1];
            && !s'.Signaled(e) && (forall x | x != e :: s'.Signaled(x) == s.Signaled(x))
            && s'.net == s.net && s'.phases == s.phases
  {
  }

  /** How a wait starts: with the object there, or the cancel event set, it has its result at once; else it sleeps. */
  lemma BeginResult(states: seq<State>, steps: seq<Step>, k: nat, t: Thread, available: bool)
    requires IsRun(states, steps) && k < |steps|
    requires steps[k].Begin? || steps[k].BeginArmed?
    requires steps[k].t == t && steps[k].available == available
    ensures var s, s' := states[k], states[k + 1];
            var cancel := if steps[k].Begin? then steps[k].cancel else Some(TimerEvent(t));
            var cancelled := if steps[k].Begin? then WaitCancelled else WaitTimeout;
            && (available ==> s'.Phase(t) == Running(Some(Ok)))
            && (!available && cancel.Some? && s.Signaled(cancel.value) ==> s'.Phase(t) == Running(Some(cancelled)))
            && (!available && !(cancel.Some? && s.Signaled(cancel.value)) ==>
                  s'.Phase(t).Waiting? && s'.Phase(t).cancel == cancel && s'.net.Suspends(t) == 1)
            && s'.signaled == s.signaled
  {
    RunInv(states, steps, k);
    assert Fine(states[k], t);
    RunInv(states, steps, k + 1);
    assert Fine(states[k + 1], t);
  }

  /** What a timeout says: for ever, not at all, too long, or a number of ticks, with the timer's event reset first. */
  lemma TimedBeginResult(states: seq<State>, steps: seq<Step>, k: nat, t: Thread, timeout: Timeout, available: bool)
    requires IsRun(states, steps) && k < |steps| && steps[k].BeginTimed?
    requires steps[k].t == t && steps[k].timeout == timeout && steps[k].available == available
    ensures var s' := states[k + 1];
            && (timeout == 0 ==> s'.Phase(t) == Running(Some(if available then Ok else WaitTimeout)))
            && (0 < timeout < MAX_RELATIVE_TIMEOUT ==>
                  s'.Phase(t) == Armed(steps[k].o) && !s'.Signaled(TimerEvent(t)) && s'.net == states[k].net)
            && (MAX_RELATIVE_TIMEOUT <= timeout < INFINITE_TIMEOUT ==> s'.Phase(t) == Running(Some(InvalidTimeout)))
            && (timeout == INFINITE_TIMEOUT ==>
                  if available then s'.Phase(t) == Running(Some(Ok))
                  else s'.Phase(t) == Waiting(steps[k].o, None, false) && s'.net.Suspends(t) == 1)
            && (s'.Phase(t).Running? ==> s'.net.Suspends(t) == 0)
  {
    RunInv(states, steps, k);
    assert Fine(states[k], t);
    RunInv(states, steps, k + 1);
    assert Fine(states[k + 1], t);
  }

  // The functions of a thread

  class Waits {
    const net: WaitNet
    var phases: map<Thread, Phase>
    var signaled: map<Object, bool>

    ghost function View(): State
      reads this, net
    {
      State(net.View(), phases, signaled)
    }

    constructor ()
      ensures View() == Start() && fresh(net)
    {
      net := new WaitNet();
      phases, signaled := map[], map[];
    }

    method Prepare(t: Thread, attr: Status)
      modifies net
      ensures net.View() == Prepared(old(net.View()), t, attr)
    {
      net.links := net.links[Block(t, 0) := Link(None, attr)][Block(t, 1) := Link(None, InProgress)];
      net.wbNum := net.wbNum[t := 2];
      net.grants := net.grants[t := 0];
    }

    method Suspend(t: Thread)
      modifies net`suspends
      ensures net.View() == Suspended(old(net.View()), t)
    {
      net.suspends := net.suspends[t := (if t in net.suspends then net.suspends[t] else 0) + 1];
    }

    /** The wait up to the point where the thread sleeps or has its result. */
    method WaitObject(t: Thread, o: Object, attr: Status, cancel: Option<Object>, timed: bool, available: bool)
      modifies this, net
      ensures View() == Begun(old(View()), t, o, attr, cancel, timed, available)
    {
      var skip: Option<Result> := None;
      Prepare(t, attr);
      if available {
        net.grants := net.grants[t := 1];
        skip := Some(Ok);
      } else {
        net.WaitStart(o, Block(t, 0));
        if cancel.Some? {
          if cancel.value in signaled && signaled[cancel.value] {
            skip := Some(WaitCancelled);
          } else {
            net.WaitStart(cancel.value, Block(t, 1));
          }
        }
      }
      if skip.None? {
        Suspend(t);
        phases := phases[t := Waiting(o, cancel, timed)];
      } else {
        var rolledBack := net.Rollback(t);
        phases := phases[t := Running(Some(Reported(skip.value, timed)))];
      }
    }

    /** The rest of the wait, once the thread runs again. */
    method WaitEnd(t: Thread) returns (result: Result)
      requires View().Phase(t).Waiting?
      modifies this, net
      ensures View() == Ended(old(View()), t) && View().Phase(t) == Running(Some(result))
    {
      var timed := phases[t].timed;
      var rolledBack := net.Rollback(t);
      var main := if Block(t, 0) in net.links then net.links[Block(t, 0)].status else InProgress;
      var cancel := if Block(t, 1) in net.links then net.links[Block(t, 1)].status else InProgress;
      result := Reported(if rolledBack != 0 then WaitStatus(main, cancel) else WaitInterrupted, timed);
      phases := phases[t := Running(Some(result))];
    }

    method TimedWaitObject(t: Thread, o: Object, attr: Status, timeout: Timeout, available: bool)
      modifies this, net
      ensures View() == TimedBegun(old(View()), t, o, attr, timeout, available)
    {
      if timeout == INFINITE_TIMEOUT {
        WaitObject(t, o, attr, None, false, available);
      } else if timeout == 0 {
        net.grants := net.grants[t := if available then 1 else 0];
        phases := phases[t := Running(Some(if available then Ok else WaitTimeout))];
      } else if timeout < MAX_RELATIVE_TIMEOUT {
        ResetInternal(TimerEvent(t));
        phases := phases[t := Armed(o)];
      } else {
        net.grants := net.grants[t := 0];
        phases := phases[t := Running(Some(InvalidTimeout))];
      }
    }

    method ResetInternal(e: Object)
      modifies `signaled
      ensures signaled == old(signaled)[e := false]
    {
      signaled := signaled[e := false];
    }

    method SetInternal(e: Object)
      requires Linked(net.View())
      modifies this, net
      ensures View() == EventSet(old(View()), e)
    {
      var oldState := e in signaled && signaled[e];
      signaled := signaled[e := true];
      if !oldState {
        net.NotifyAll(e, Satisfied);
      }
    }
  }
}
