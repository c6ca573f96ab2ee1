/**
 Event service routines: run-to-completion routines that preempt each other on one stack. The scheduler says which
 routine is due; the dispatcher stacks a fresh routine on the interrupted one, or goes back to the one below.
 */
module Esr {
  import opened Options
  import opened Seqs
  import opened SchedContainer
  import opened Scheduler

  /** An interrupt frame: what was running when it was made, and a number to tell frames apart. */
  datatype Frame = Frame(owner: Option<Item>, serial: nat)

  /**
   `stack` holds the routines that were started and have not ended, the idle routine first; `saved` the frame in which
   each of them was last interrupted.
   */
  datatype Cpu = Cpu(
    sched: State,
    current: Option<Item>,
    virtualFrame: Option<Frame>,
    epls: map<Item, nat>,
    active: set<Item>,
    intrContext: map<Item, Frame>,
    msgs: map<Item, nat>,
    attached: set<Item>,
    serial: nat,
    stack: seq<Item>,
    saved: map<Item, Frame>)
  {
    function Msg(e: Item): nat {
      if e in msgs then msgs[e] else 0
    }

    function IntrContext(e: Item): Frame {
      if e in intrContext then intrContext[e] else Frame(None, 0)
    }

    function Top(): Item
      requires stack != []
    {
      stack[|stack| - 1]
    }
  }

  /** What the processor goes on with after the dispatch interrupt. */
  datatype Outcome = Stays | Starts(e: Item, on: Frame) | Resumes(e: Item, frame: Frame)

  // The operations

  function Booted(idle: Item): Cpu {
    Cpu(Boot(idle), Some(idle), None, map[idle := PRIO_NUM - 1], {idle}, map[], map[], {}, 0, [idle], map[])
  }

  function EsrAdded(c: Cpu, e: Item, epl: nat): Cpu {
    c.(sched := Initialized(c.sched, e, epl), epls := c.epls[e := epl], active := c.active - {e})
  }

  predicate Known(c: Cpu, e: Item) {
    e in c.sched.counts && e in c.sched.prios && c.sched.active in c.sched.prios
  }

  /** A message that is still there blocks further messages; without a message the routine is always resumed. */
  function Activated(c: Cpu, e: Item, msg: nat): Cpu
    requires Known(c, e)
  {
    if msg == 0 then c.(sched := Resumed(c.sched, e))
    else if c.Msg(e) == 0 then c.(msgs := c.msgs[e := msg], sched := Resumed(c.sched, e))
    else c
  }

  /** The routine leaves the stack; the frame below it becomes the one to go on with. */
  function Left(c: Cpu, me: Item): Cpu
    requires Known(c, me) && c.stack != []
  {
    c.(virtualFrame := Some(c.IntrContext(me)), active := c.active - {me}, sched := Suspended(c.sched, me),
       current := None, stack := c.stack[..|c.stack| - 1])
  }

  function Exited(c: Cpu, me: Item): Cpu
    requires Known(c, me) && c.stack != []
  {
    Left(c, me).(msgs := c.msgs[me := 0])
  }

  /** Waiting for a message ends the routine; if there is one already, it is to start again. Polling goes on. */
  function WaitedMsg(c: Cpu, me: Item, found: Option<nat>, wait: bool): Cpu
    requires Known(c, me) && c.stack != []
  {
    var c' := Left(c, me);
    if !wait then (if found.Some? then c.(msgs := c.msgs[me := found.value]) else c)
    else if found.Some? then c'.(msgs := c.msgs[me := found.value], sched := Resumed(c'.sched, me))
    else c'.(attached := c.attached + {me})
  }

  function Notified(c: Cpu, e: Item, msg: nat): Cpu
    requires Known(c, e)
  {
    c.(msgs := c.msgs[e := msg], attached := c.attached - {e}, sched := Resumed(c.sched, e))
  }

  function RolledBack(c: Cpu, me: Item): Cpu {
    c.(attached := c.attached - {me})
  }

  function Dispatch(c: Cpu): (Cpu, Outcome)
    requires c.sched.order != [] && c.stack != []
  {
    var c' := c.(virtualFrame := None, sched := Dispatched(c.sched), serial := c.serial + 1);
    var next := Best(c.sched.order).item;
    if !c.sched.pending then (c', Stays)
    else if c.current.Some? && !Before(c, next, c.current.value) then (c', Stays)
    else
      var frame := if c.virtualFrame.Some? then c.virtualFrame.value else Frame(c.current, c.serial);
      if next in c.active then (c'.(current := Some(next)), Resumes(next, frame))
      else
        (c'.(current := Some(next), active := c.active + {next}, intrContext := c.intrContext[next := frame],
             stack := c.stack + [next], saved := c.saved[c.Top() := frame]),
         Starts(next, frame))
  }

  predicate Before(c: Cpu, a: Item, b: Item) {
    a in c.epls && b in c.epls && c.epls[a] < c.epls[b]
  }

  // The invariant

  /** Levels are the scheduling priorities. */
  ghost predicate LevelsOk(c: Cpu) {
    && (forall e | e in c.sched.counts :: e in c.sched.prios && e in c.epls && c.epls[e] == c.sched.prios[e])
    && (forall e | e in c.sched.counts :: c.sched.counts[e] <= 1)
  }

  /** Started routines are ready, in strictly rising priority; each knows the frame of the one below. */
  ghost predicate StackOk(c: Cpu) {
    && c.stack != [] && c.active == (set e | e in c.stack)
    && (forall i | 0 <= i < |c.stack| :: Ready(c.sched, c.stack[i]))
    && (forall i, j | 0 <= i < j < |c.stack| :: Before(c, c.stack[j], c.stack[i]))
  }

  /** No item of the same priority was added before this one. */
  ghost predicate First(order: seq<Entry>, e: Item) {
    forall i, j | 0 <= i < j < |order| && order[j].item == e :: order[i].prio != order[j].prio
  }

  /** Started routines are ahead of all others of their level, which wait until they have ended. */
  ghost predicate FirstsOk(c: Cpu) {
    forall e | e in c.stack :: First(c.sched.order, e)
  }

  /** The routine at position i came to run on the frame of the one below. */
  ghost predicate FrameOk(c: Cpu, i: int)
    requires 0 < i < |c.stack|
  {
    var me, below := c.stack[i], c.stack[i - 1];
    && me in c.intrContext && below in c.saved
    && c.intrContext[me] == c.saved[below] && c.saved[below].owner == Some(below)
  }

  ghost predicate FramesOk(c: Cpu) {
    forall i {:trigger FrameOk(c, i)} | 0 < i < |c.stack| :: FrameOk(c, i)
  }

  /** Either the top of the stack runs, or it is to be resumed from the frame in which it was interrupted. */
  ghost predicate RunningOk(c: Cpu)
    requires c.stack != []
  {
    match c.current
    case Some(e) => e == c.Top() && c.virtualFrame.None? && (!c.sched.pending ==> c.sched.active == e)
    case None =>
      && c.sched.pending && c.Top() in c.saved && c.virtualFrame == Some(c.saved[c.Top()])
      && c.saved[c.Top()].owner == Some(c.Top())
  }

  ghost predicate CpuInv(c: Cpu, idle: Item) {
    && Inv(c.sched) && LevelsOk(c) && StackOk(c) && FirstsOk(c) && FramesOk(c) && RunningOk(c)
    && c.stack[0] == idle
  }

  lemma BootedInv(idle: Item)
    ensures CpuInv(Booted(idle), idle)
  {
    BootInv(idle);
  }

  /** A change of the scheduler that keeps what is started ready. */
  ghost predicate Compatible(c: Cpu, c': Cpu) {
    && c'.stack == c.stack && c'.active == c.active && c'.intrContext == c.intrContext && c'.saved == c.saved
    && c'.current == c.current && c'.virtualFrame == c.virtualFrame && c'.epls == c.epls
    && c'.sched.prios == c.sched.prios && c'.sched.counts.Keys == c.sched.counts.Keys
    && c'.sched.active == c.sched.active && (c.sched.pending ==> c'.sched.pending)
    && (forall e | e in c.sched.counts :: c'.sched.counts[e] <= 1)
    && (forall e | e in c.stack && First(c.sched.order, e) :: First(c'.sched.order, e))
    && forall e | Ready(c.sched, e) :: Ready(c'.sched, e)
  }

  lemma CompatibleInv(c: Cpu, c': Cpu, idle: Item)
    requires CpuInv(c, idle) && Compatible(c, c') && Inv(c'.sched)
    ensures CpuInv(c', idle)
  {
    forall i | 0 < i < |c'.stack| ensures FrameOk(c', i) {
      assert FrameOk(c, i);
    }
  }

  lemma ResumedCompatible(c: Cpu, c': Cpu, e: Item)
    requires Inv(c.sched) && LevelsOk(c) && StackOk(c) && e in c.sched.counts
    requires c' == c.(sched := Resumed(c.sched, e), msgs := c'.msgs, attached := c'.attached)
    ensures Compatible(c, c') && Inv(c'.sched)
  {
    ResumeInv(c.sched, e);
  }

  lemma AddedInv(c: Cpu, e: Item, epl: nat, idle: Item)
    requires CpuInv(c, idle) && e !in c.sched.counts && epl < PRIO_NUM
    ensures CpuInv(EsrAdded(c, e, epl), idle)
  {
    var c' := EsrAdded(c, e, epl);
    InitInv(c.sched, e, epl);
    AddedStack(c, e, epl);
    forall i | 0 < i < |c'.stack| ensures FrameOk(c', i) {
      assert FrameOk(c, i);
    }
  }

  lemma AddedStack(c: Cpu, e: Item, epl: nat)
    requires StackOk(c) && LevelsOk(c) && e !in c.sched.counts
    ensures StackOk(EsrAdded(c, e, epl)) && LevelsOk(EsrAdded(c, e, epl))
  {
    var c' := EsrAdded(c, e, epl);
    assert forall i | 0 <= i < |c.stack| :: Ready(c.sched, c.stack[i]) && c.stack[i] != e;
    assert c'.active == c.active;
    forall i, j | 0 <= i < j < |c'.stack| ensures Before(c', c'.stack[j], c'.stack[i]) {
      assert Before(c, c.stack[j], c.stack[i]);
    }
  }

  /** Started routines have different levels, so they are different. */
  lemma StackDistinct(c: Cpu)
    requires StackOk(c)
    ensures NoDuplicates(c.stack)
  {
  }

  lemma LeftStack(c: Cpu, me: Item)
    requires StackOk(c) && LevelsOk(c) && Known(c, me) && me == c.Top() && |c.stack| > 1
    ensures StackOk(Left(c, me))
  {
    var c' := Left(c, me);
    StackDistinct(c);
    assert c.stack == c'.stack + [me];
    assert forall i | 0 <= i < |c'.stack| :: c'.stack[i] == c.stack[i];
    assert c'.active == (set e | e in c'.stack);
    forall i | 0 <= i < |c'.stack| ensures Ready(c'.sched, c'.stack[i]) {
      assert Ready(c.sched, c.stack[i]);
    }
  }

  /** Dropping another item leaves it first. */
  lemma {:induction false} DropFirst(order: seq<Entry>, item: Item, e: Item)
    requires UniqueItems(order) && First(order, e) && e != item
    ensures First(Drop(order, item), e)
  {
    if order != [] && order[|order| - 1].item != item {
      var front, last := order[..|order| - 1], order[|order| - 1];
      DropFirst(front, item, e);
      DropKeeps(front, item);
      var d := Drop(front, item);
      forall i | 0 <= i < |d| && last.item == e ensures d[i].prio != last.prio {
        assert d[i] in front;
      }
    }
  }

  lemma LeftFirsts(c: Cpu, me: Item)
    requires Tracked(c.sched) && FirstsOk(c) && StackOk(c) && Known(c, me) && me == c.Top() && Ready(c.sched, me)
    ensures FirstsOk(Left(c, me))
  {
    StackDistinct(c);
    assert c.stack == c.stack[..|c.stack| - 1] + [me];
    forall e | e in c.stack[..|c.stack| - 1] ensures First(Drop(c.sched.order, me), e) {
      DropFirst(c.sched.order, me, e);
    }
  }

  /** The routine that leaves hands on the very frame in which the one below was interrupted. */
  lemma LeftInv(c: Cpu, me: Item, idle: Item)
    requires CpuInv(c, idle) && c.current == Some(me) && me != idle
    ensures Known(c, me) && CpuInv(Left(c, me), idle)
  {
    assert Ready(c.sched, c.Top());
    assert FrameOk(c, |c.stack| - 1);
    SuspendInv(c.sched, me);
    LeftStack(c, me);
    LeftFirsts(c, me);
    var c' := Left(c, me);
    forall i | 0 < i < |c'.stack| ensures FrameOk(c', i) {
      assert FrameOk(c, i);
    }
  }

  /** The routine that is due is the top of the stack, or not started yet and of higher priority than the top. */
  lemma NextIs(c: Cpu, idle: Item)
    requires CpuInv(c, idle)
    ensures c.sched.order != []
    ensures var next := Best(c.sched.order).item;
            && Ready(c.sched, next)
            && (next in c.stack ==> next == c.Top())
            && (next !in c.stack ==> Before(c, next, c.Top()))
  {
    var top := c.Top();
    assert Ready(c.sched, top);
    assert Entry(top, c.sched.prios[top]) in c.sched.order;
    BestIn(c.sched.order);
    var next := Best(c.sched.order).item;
    assert Ready(c.sched, next);
    if c.sched.prios[next] == c.sched.prios[top] {
      BestOfLevel(c.sched.order, top);
    }
    forall i | 0 <= i < |c.stack| - 1 ensures c.stack[i] != next {
      assert Before(c, c.stack[|c.stack| - 1], c.stack[i]) && Ready(c.sched, c.stack[i]);
    }
  }

  /** What is first of the highest level is the best. */
  lemma BestOfLevel(order: seq<Entry>, e: Item)
    requires First(order, e) && order != [] && Entry(e, Best(order).prio) in order
    ensures Best(order).item == e
  {
    BestIn(order);
    var k :| 0 <= k < |order| && order[k] == Entry(e, Best(order).prio);
    assert forall j | 0 <= j < |order| :: order[j] in order;
    assert IsBest(order, k);
    BestIsBest(order, k);
  }

  /** The best is first of its level. */
  lemma {:induction false} BestFirst(order: seq<Entry>)
    requires UniqueItems(order) && order != []
    ensures First(order, Best(order).item)
  {
    var front, last := order[..|order| - 1], order[|order| - 1];
    if front != [] {
      BestIn(front);
      assert forall i | 0 <= i < |front| :: front[i] in front;
      BestFirst(front);
    }
  }

  /** Nothing changes but which routine runs. */
  lemma SameStack(c: Cpu, c': Cpu)
    requires LevelsOk(c) && StackOk(c) && FramesOk(c)
    requires c'.stack == c.stack && c'.active == c.active && c'.intrContext == c.intrContext && c'.saved == c.saved
    requires c'.epls == c.epls && c'.sched.prios == c.sched.prios && c'.sched.counts == c.sched.counts
    ensures LevelsOk(c') && StackOk(c') && FramesOk(c')
  {
    assert forall e :: Ready(c'.sched, e) <==> Ready(c.sched, e);
    forall i | 0 < i < |c'.stack| ensures FrameOk(c', i) {
      assert FrameOk(c, i);
    }
  }

  /** Going on with the top of the stack. */
  lemma DispatchTop(c: Cpu, idle: Item)
    requires CpuInv(c, idle) && c.sched.order != [] && (c.sched.pending ==> Best(c.sched.order).item == c.Top())
    ensures CpuInv(Dispatch(c).0, idle)
    ensures Dispatch(c).1 == if c.current.Some? then Stays else Resumes(c.Top(), c.saved[c.Top()])
  {
    var c' := Dispatch(c).0;
    assert c.Top() in c.stack;
    GetNextInv(c.sched);
    SameStack(c, c');
  }

  /** The frame on which a routine is stacked: what was just interrupted, or what the one that left was stacked on. */
  function Base(c: Cpu): Frame {
    if c.virtualFrame.Some? then c.virtualFrame.value else Frame(c.current, c.serial)
  }

  function Stacked(c: Cpu, next: Item): Cpu
    requires c.stack != [] && c.sched.order != []
  {
    c.(virtualFrame := None, sched := Dispatched(c.sched), serial := c.serial + 1, current := Some(next),
       active := c.active + {next}, intrContext := c.intrContext[next := Base(c)],
       stack := c.stack + [next], saved := c.saved[c.Top() := Base(c)])
  }

  lemma StackedStack(c: Cpu, next: Item)
    requires StackOk(c) && LevelsOk(c) && c.sched.order != []
    requires Ready(c.sched, next) && next !in c.stack && Before(c, next, c.Top())
    ensures StackOk(Stacked(c, next)) && LevelsOk(Stacked(c, next))
  {
    var c' := Stacked(c, next);
    assert forall e :: Ready(c'.sched, e) <==> Ready(c.sched, e);
    assert c'.active == (set e | e in c'.stack);
    forall i, j | 0 <= i < j < |c'.stack| ensures Before(c', c'.stack[j], c'.stack[i]) {
      assert i < |c.stack| - 1 ==> Before(c, c.Top(), c.stack[i]);
      assert j < |c.stack| ==> Before(c, c.stack[j], c.stack[i]);
    }
  }

  lemma StackedFrames(c: Cpu, next: Item)
    requires StackOk(c) && FramesOk(c) && c.sched.order != [] && next !in c.stack
    requires Base(c).owner == Some(c.Top())
    ensures FramesOk(Stacked(c, next))
  {
    var c' := Stacked(c, next);
    StackDistinct(c);
    forall i | 0 < i < |c'.stack| ensures FrameOk(c', i) {
      if i < |c.stack| {
        assert FrameOk(c, i) && c'.stack[i] == c.stack[i] && c'.stack[i - 1] == c.stack[i - 1];
        assert c.stack[i] in c.stack && c.stack[i - 1] != c.Top();
      }
    }
  }

  /** A routine that is due and not started is stacked on the top. */
  lemma DispatchFresh(c: Cpu, idle: Item)
    requires CpuInv(c, idle) && c.sched.order != [] && c.sched.pending
    requires var next := Best(c.sched.order).item; next !in c.stack && Ready(c.sched, next) && Before(c, next, c.Top())
    ensures var next := Best(c.sched.order).item;
            && Dispatch(c) == (Stacked(c, next), Starts(next, Base(c))) && Base(c).owner == Some(c.Top())
            && CpuInv(Dispatch(c).0, idle)
  {
    var next := Best(c.sched.order).item;
    assert Dispatch(c) == (Stacked(c, next), Starts(next, Base(c)));
    GetNextInv(c.sched);
    StackedStack(c, next);
    StackedFrames(c, next);
    BestFirst(c.sched.order);
  }

  /**
   What a dispatch does: with a routine running it stays, or stacks a fresh one of higher priority on the frame just
   interrupted; after a routine left, it resumes the one below from the frame in which that was interrupted, unless a
   fresh one of higher priority is first stacked on that very frame. Afterwards the running routine is the one of
   highest priority that is ready.
   */
  lemma DispatchGoes(c: Cpu, idle: Item)
    requires CpuInv(c, idle)
    ensures c.sched.order != []
    ensures var (c', out) := Dispatch(c);
            var next := Best(c.sched.order).item;
            var base := if c.current.Some? then Frame(c.current, c.serial) else c.virtualFrame.value;
            && CpuInv(c', idle) && OnTop(c'.sched) && c'.current == Some(c'.sched.active)
            && (c.current.None? ==> c.Top() in c.saved && base == c.saved[c.Top()])
            && (if c.sched.pending && next !in c.stack
                then out == Starts(next, base) && Before(c, next, c.Top()) && c'.stack == c.stack + [next]
                else c'.stack == c.stack && out == if c.current.Some? then Stays else Resumes(c.Top(), base))
  {
    NextIs(c, idle);
    GetNextInv(c.sched);
    if c.sched.pending && Best(c.sched.order).item !in c.stack {
      DispatchFresh(c, idle);
    } else {
      DispatchTop(c, idle);
    }
  }

  lemma RunningKnown(c: Cpu, idle: Item)
    requires CpuInv(c, idle)
    ensures forall e | e in c.sched.counts :: Known(c, e)
    ensures c.current.Some? ==> Known(c, c.current.value)
    ensures c.sched.order != []
  {
    NextIs(c, idle);
    assert Ready(c.sched, c.Top());
  }

  lemma SameInv(c: Cpu, c': Cpu, idle: Item)
    requires CpuInv(c, idle) && c' == c.(msgs := c'.msgs, attached := c'.attached)
    ensures CpuInv(c', idle)
  {
    SameStack(c, c');
  }

  // What the operations do to a routine and its message

  ghost predicate OtherMsgs(c: Cpu, c': Cpu, e: Item) {
    forall x {:trigger c'.Msg(x)} | x != e :: c'.Msg(x) == c.Msg(x)
  }

  /** A routine that is added has its level, and is neither started nor ready. */
  lemma AddedIs(c: Cpu, e: Item, epl: nat)
    requires StackOk(c) && e !in c.sched.counts
    ensures var c' := EsrAdded(c, e, epl);
            && e in c'.sched.counts && !Ready(c'.sched, e) && c'.epls == c.epls[e := epl]
            && e in c'.sched.prios && c'.sched.prios[e] == epl && e !in c'.active
            && c'.stack == c.stack && c'.current == c.current && c'.msgs == c.msgs
  {
  }

  /** A message is refused just when the last one is still there; otherwise it is kept, and the routine is ready. */
  lemma ActivatedIs(c: Cpu, e: Item, msg: nat, idle: Item)
    requires CpuInv(c, idle) && e in c.sched.counts
    ensures Known(c, e)
    ensures var c' := Activated(c, e, msg);
            && (msg != 0 && c.Msg(e) != 0 ==> c' == c)
            && (msg == 0 || c.Msg(e) == 0 ==>
                  && Ready(c'.sched, e) && c'.Msg(e) == (if msg == 0 then c.Msg(e) else msg))
            && OtherMsgs(c, c', e) && c'.stack == c.stack && c'.current == c.current && c'.attached == c.attached
  {
    RunningKnown(c, idle);
  }

  /** The routine that leaves is not ready or started any more, and the one below goes on where it was interrupted. */
  lemma LeftIs(c: Cpu, me: Item, idle: Item)
    requires CpuInv(c, idle) && c.current == Some(me) && me != idle
    ensures Known(c, me) && |c.stack| > 1
    ensures var c' := Left(c, me);
            && c'.current == None && c'.stack == c.stack[..|c.stack| - 1] && me == c.Top() && me !in c'.active
            && !Ready(c'.sched, me) && c'.sched.pending && me in c'.sched.counts
            && c'.Top() in c.saved && c'.virtualFrame == Some(c.saved[c'.Top()])
            && c'.msgs == c.msgs && c'.attached == c.attached
  {
    LeftInv(c, me, idle);
    assert FrameOk(c, |c.stack| - 1);
    assert Ready(c.sched, c.Top());
  }

  /** An exit also clears the message, so that the next one is taken. */
  lemma ExitedIs(c: Cpu, me: Item, msg: nat, idle: Item)
    requires CpuInv(c, idle) && c.current == Some(me) && me != idle
    ensures Known(c, me) && |c.stack| > 1
    ensures var c' := Exited(c, me);
            && c' == Left(c, me).(msgs := c'.msgs) && c'.Msg(me) == 0 && OtherMsgs(c, c', me)
            && CpuInv(c', idle) && Known(c', me)
            && Ready(Activated(c', me, msg).sched, me) && Activated(c', me, msg).Msg(me) == msg
  {
    LeftIs(c, me, idle);
    LeftInv(c, me, idle);
    SameInv(Left(c, me), Exited(c, me), idle);
    ActivatedIs(Exited(c, me), me, msg, idle);
  }

  /** A routine that waits starts again with the message if there is one, and is attached otherwise; a poll goes on. */
  lemma WaitedMsgIs(c: Cpu, me: Item, found: Option<nat>, wait: bool, idle: Item)
    requires CpuInv(c, idle) && c.current == Some(me) && me != idle
    ensures Known(c, me) && |c.stack| > 1
    ensures var c' := WaitedMsg(c, me, found, wait);
            && c'.Msg(me) == (if found.Some? then found.value else c.Msg(me)) && OtherMsgs(c, c', me)
            && (!wait ==> c' == c.(msgs := c'.msgs))
            && (wait ==>
                  && c'.current == None && c'.stack == c.stack[..|c.stack| - 1]
                  && (Ready(c'.sched, me) <==> found.Some?)
                  && c'.attached == (if found.Some? then c.attached else c.attached + {me}))
  {
    LeftIs(c, me, idle);
    LeftInv(c, me, idle);
  }

  /** A routine that starts is taken off its port first, and nothing else happens. */
  lemma RolledBackIs(c: Cpu, me: Item)
    ensures RolledBack(c, me) == c.(attached := RolledBack(c, me).attached)
    ensures forall x :: x in RolledBack(c, me).attached <==> x in c.attached && x != me
  {
  }

  /** A notification delivers the message, detaches the routine from the port and makes it ready. */
  lemma NotifiedIs(c: Cpu, e: Item, msg: nat, idle: Item)
    requires CpuInv(c, idle) && e in c.sched.counts
    ensures Known(c, e)
    ensures var c' := Notified(c, e, msg);
            && Ready(c'.sched, e) && c'.Msg(e) == msg && OtherMsgs(c, c', e)
            && c'.attached == c.attached - {e} && c'.stack == c.stack && c'.current == c.current
  {
    RunningKnown(c, idle);
  }

  // Runs

  datatype Op =
    | OpAdd(e: Item, epl: nat)
    | OpActivate(e: Item, msg: nat)
    | OpStub
    | OpExit
    | OpWaitMsg(found: Option<nat>, wait: bool)
    | OpNotify(e: Item, msg: nat)
    | OpDispatch

  /** Removed routines are not used, and the idle routine neither exits nor waits. */
  ghost predicate Enabled(c: Cpu, op: Op, idle: Item) {
    match op
    case OpAdd(e, epl) => e !in c.sched.counts && epl < PRIO_NUM
    case OpActivate(e, _) => e in c.sched.counts
    case OpStub => c.current.Some?
    case OpExit => c.current.Some? && c.current.value != idle
    case OpWaitMsg(_, wait) => c.current.Some? && (wait ==> c.current.value != idle)
    case OpNotify(e, _) => e in c.sched.counts && e in c.attached
    case OpDispatch => true
  }

  ghost function Next(c: Cpu, op: Op, idle: Item): Cpu
    requires CpuInv(c, idle) && Enabled(c, op, idle)
  {
    RunningKnown(c, idle);
    match op
    case OpAdd(e, epl) => EsrAdded(c, e, epl)
    case OpActivate(e, msg) => Activated(c, e, msg)
    case OpStub => RolledBack(c, c.current.value)
    case OpExit => Exited(c, c.current.value)
    case OpWaitMsg(found, wait) => WaitedMsg(c, c.current.value, found, wait)
    case OpNotify(e, msg) => Notified(c, e, msg)
    case OpDispatch => Dispatch(c).0
  }

  lemma WaitedMsgInv(c: Cpu, found: Option<nat>, wait: bool, idle: Item)
    requires CpuInv(c, idle) && c.current.Some? && (wait ==> c.current.value != idle)
    ensures Known(c, c.current.value) && CpuInv(WaitedMsg(c, c.current.value, found, wait), idle)
  {
    var me := c.current.value;
    RunningKnown(c, idle);
    var c' := WaitedMsg(c, me, found, wait);
    if wait {
      LeftInv(c, me, idle);
      LeftWaits(c, Left(c, me), me, found, idle);
    } else {
      SameInv(c, c', idle);
    }
  }

  lemma LeftWaits(c: Cpu, left: Cpu, me: Item, found: Option<nat>, idle: Item)
    requires Known(c, me) && c.stack != [] && left == Left(c, me) && me in left.sched.counts && CpuInv(left, idle)
    ensures CpuInv(WaitedMsg(c, me, found, true), idle)
  {
    var c' := WaitedMsg(c, me, found, true);
    if found.Some? {
      ResumedCompatible(left, c', me);
      CompatibleInv(left, c', idle);
    } else {
      SameInv(left, c', idle);
    }
  }

  lemma NextInv(c: Cpu, op: Op, idle: Item)
    requires CpuInv(c, idle) && Enabled(c, op, idle)
    ensures CpuInv(Next(c, op, idle), idle)
  {
    var c' := Next(c, op, idle);
    RunningKnown(c, idle);
    match op
    case OpAdd(e, epl) => AddedInv(c, e, epl, idle);
    case OpActivate(e, msg) =>
      if msg == 0 || c.Msg(e) == 0 {
        ResumedCompatible(c, c', e);
        CompatibleInv(c, c', idle);
      }
    case OpStub => SameInv(c, c', idle);
    case OpExit =>
      LeftInv(c, c.current.value, idle);
      SameInv(Left(c, c.current.value), c', idle);
    case OpWaitMsg(found, wait) => WaitedMsgInv(c, found, wait, idle);
    case OpNotify(e, msg) =>
      ResumedCompatible(c, c', e);
      CompatibleInv(c, c', idle);
    case OpDispatch => DispatchGoes(c, idle);
  }

  /** Operations are defined on states with the invariant, which every state of a run turns out to have. */
  ghost predicate IsRun(cpus: seq<Cpu>, ops: seq<Op>, idle: Item) {
    && |cpus| == |ops| + 1 && cpus[0] == Booted(idle)
    && forall k {:trigger ops[k]} | 0 <= k < |ops| ::
         CpuInv(cpus[k], idle) ==> Enabled(cpus[k], ops[k], idle) && cpus[k + 1] == Next(cpus[k], ops[k], idle)
  }

  /** In every state of every run the started routines form a stack of rising priority on the idle routine. */
  lemma {:induction false} RunsNest(cpus: seq<Cpu>, ops: seq<Op>, idle: Item, k: nat)
    requires IsRun(cpus, ops, idle) && k < |cpus|
    ensures CpuInv(cpus[k], idle)
  {
    if k == 0 {
      BootedInv(idle);
    } else {
      RunsNest(cpus, ops, idle, k - 1);
      NextInv(cpus[k - 1], ops[k - 1], idle);
      assert cpus[k] == Next(cpus[k - 1], ops[k - 1], idle);
    }
  }

  // The module

  class EsrContext {
    const sched: Sched
    var current: Option<Item>
    var virtualFrame: Option<Frame>
    var epls: map<Item, nat>
    var active: set<Item>
    var intrContext: map<Item, Frame>
    var msgs: map<Item, nat>
    var attached: set<Item>
    var serial: nat
    ghost var stack: seq<Item>
    ghost var saved: map<Item, Frame>

    ghost function View(): Cpu
      reads this, sched, sched.container
    {
      Cpu(sched.View(), current, virtualFrame, epls, active, intrContext, msgs, attached, serial, stack, saved)
    }

    constructor (idle: Item)
      ensures sched.Valid() && View() == Booted(idle)
      ensures fresh(sched) && fresh(sched.container) && fresh(sched.container.queues) && fresh(sched.container.map2)
    {
      sched := new Sched(idle);
      current, virtualFrame, epls, active := Some(idle), None, map[idle := PRIO_NUM - 1], {idle};
      intrContext, msgs, attached, serial := map[], map[], {}, 0;
      stack, saved := [idle], map[];
    }

    method Activate(e: Item, msg: nat)
      requires sched.Valid() && e in sched.counts
      modifies this, sched, sched.container, sched.container.queues, sched.container.map2
      ensures sched.Valid() && View() == Activated(old(View()), e, msg)
    {
      var swapped := false;
      if msg != 0 && (e !in msgs || msgs[e] == 0) {
        msgs := msgs[e := msg];
        swapped := true;
      }
      if msg == 0 || swapped {
        var previous := sched.Resume(e);
      }
    }

    /** What exit and wait have in common: the running routine leaves. */
    method Leave(me: Item)
      requires sched.Valid() && me in sched.counts && stack != []
      modifies this, sched, sched.container, sched.container.queues, sched.container.map2
      ensures sched.Valid() && View() == Left(old(View()), me)
    {
      var previous := sched.Suspend(me);
      virtualFrame := Some(if me in intrContext then intrContext[me] else Frame(None, 0));
      active := active - {me};
      current := None;
      stack := stack[..|stack| - 1];
    }

    method Exit()
      requires sched.Valid() && current.Some? && current.value in sched.counts && stack != []
      modifies this, sched, sched.container, sched.container.queues, sched.container.map2
      ensures sched.Valid() && View() == Exited(old(View()), old(current).value)
    {
      var me := current.value;
      Leave(me);
      msgs := msgs[me := 0];
    }

    /** `found` is the message the port had, if any. */
    method WaitMsg(found: Option<nat>, wait: bool) returns (hasMsg: bool)
      requires sched.Valid() && current.Some? && current.value in sched.counts && stack != []
      modifies this, sched, sched.container, sched.container.queues, sched.container.map2
      ensures sched.Valid() && View() == WaitedMsg(old(View()), old(current).value, found, wait)
      ensures hasMsg == found.Some?
    {
      var me := current.value;
      hasMsg := found.Some?;
      if hasMsg {
        msgs := msgs[me := found.value];
      } else if wait {
        attached := attached + {me};
      }
      if wait {
        Leave(me);
        if hasMsg {
          var previous := sched.Resume(me);
        }
      }
    }

    /** A fresh routine gets a new frame on top of `frame`; one that was started is resumed from it. */
    method SwitchTo(next: Item, frame: Frame) returns (out: Outcome)
      requires stack != []
      modifies this
      ensures var c := old(View());
              (View(), out) == if next in c.active then (c.(current := Some(next)), Resumes(next, frame))
                else (c.(current := Some(next), active := c.active + {next},
                         intrContext := c.intrContext[next := frame],
                         stack := c.stack + [next], saved := c.saved[c.Top() := frame]), Starts(next, frame))
    {
      current := Some(next);
      if next !in active {
        active := active + {next};
        intrContext := intrContext[next := frame];
        saved := saved[stack[|stack| - 1] := frame];
        stack := stack + [next];
        out := Starts(next, frame);
      } else {
        out := Resumes(next, frame);
      }
    }

    method DispatchHandler() returns (out: Outcome)
      requires sched.Valid() && sched.container.order != [] && stack != []
      modifies this, sched
      ensures sched.Valid() && (View(), out) == Dispatch(old(View()))
    {
      var cur, frame, number := current, virtualFrame, serial;
      virtualFrame := None;
      serial := serial + 1;
      out := Stays;
      var item := sched.GetNext();
      if item.Some? {
        var next := item.value;
        if cur.None? || (next in epls && cur.value in epls && epls[next] < epls[cur.value]) {
          out := SwitchTo(next, if frame.Some? then frame.value else Frame(cur, number));
        }
      }
    }
  }
}
