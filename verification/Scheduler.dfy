/**
 The uniprocessor scheduler: suspend counters over the container of ready items, the pending-reschedule flag, and the
 change counter that lets an item raise and lower its own priority without rescheduling. `State` and the functions on
 it say what each operation does; the class performs the operations on the container.
 */
module Scheduler {
  import opened Options
  import opened SchedContainer
  import opened Seqs

  /** `prios` and `counts` are the fields of the items. An item that was removed leaves `counts`. */
  datatype State = State(
    order: seq<Entry>,
    prios: map<Item, nat>,
    counts: map<Item, nat>,
    pending: bool,
    counter: nat,
    active: Item,
    timestamp: nat,
    saved: nat)

  ghost predicate Ready(s: State, item: Item) {
    item in s.counts && s.counts[item] == 0
  }

  /** The container holds exactly the items whose suspend counter is zero, each with its own priority. */
  ghost predicate Tracked(s: State) {
    && UniqueItems(s.order) && s.active in s.prios && s.counts.Keys <= s.prios.Keys
    && (forall e | e in s.order :: e.prio < PRIO_NUM && Ready(s, e.item) && e == Entry(e.item, s.prios[e.item]))
    && (forall i {:trigger Ready(s, i)} | Ready(s, i) :: Entry(i, s.prios[i]) in s.order)
    && (forall i | i in s.prios :: s.prios[i] < PRIO_NUM)
  }

  /** The active item is ready and nothing ready has a higher priority. */
  ghost predicate OnTop(s: State)
    requires Tracked(s)
  {
    Ready(s, s.active) && forall e | e in s.order :: s.prios[s.active] <= e.prio
  }

  /** What an unchanged counter says about the time of the last self-raise. */
  ghost predicate History(s: State)
    requires Tracked(s)
  {
    && s.timestamp <= s.counter
    && (s.timestamp == s.counter ==>
          && Ready(s, s.active) && s.prios[s.active] <= s.saved
          && forall e | e in s.order && e.item != s.active :: s.saved <= e.prio)
  }

  ghost predicate Inv(s: State) {
    Tracked(s) && History(s) && (s.pending || OnTop(s))
  }

  // The operations

  function Best(order: seq<Entry>): Entry
    requires order != []
  {
    var front, last := order[..|order| - 1], order[|order| - 1];
    if front == [] then last
    else if last.prio < Best(front).prio then last
    else Best(front)
  }

  lemma {:induction false} BestIsBest(order: seq<Entry>, i: int)
    requires IsBest(order, i)
    ensures Best(order) == order[i]
  {
    var front, last := order[..|order| - 1], order[|order| - 1];
    if front != [] {
      if i < |front| {
        BestIsBest(front, i);
      } else {
        BestIn(front);
      }
    }
  }

  lemma {:induction false} BestIn(order: seq<Entry>)
    requires order != []
    ensures Best(order) in order && forall e | e in order :: Best(order).prio <= e.prio
  {
    var front, last := order[..|order| - 1], order[|order| - 1];
    assert order == front + [last];
    if front != [] {
      BestIn(front);
    }
  }

  function Changed(s: State, resched: bool): State {
    s.(counter := s.counter + 1, pending := s.pending || resched)
  }

  /** Initialised items are always suspended. */
  function Initialized(s: State, item: Item, prio: nat): State {
    s.(prios := s.prios[item := prio], counts := s.counts[item := 1])
  }

  function Resumed(s: State, item: Item): State
    requires item in s.counts && item in s.prios && s.active in s.prios
  {
    if s.counts[item] == 0 then s
    else if s.counts[item] > 1 then s.(counts := s.counts[item := s.counts[item] - 1])
    else
      Changed(s.(order := s.order + [Entry(item, s.prios[item])], counts := s.counts[item := 0]),
                  s.prios[item] <= s.prios[s.active])
  }

  function Suspended(s: State, item: Item): State
    requires item in s.counts
  {
    var s' := s.(counts := s.counts[item := s.counts[item] + 1]);
    if s.counts[item] > 0 then s'
    else Changed(s'.(order := Drop(s.order, item)), true)
  }

  function Removed(s: State, item: Item): State
    requires item in s.counts
  {
    var s' := s.(counts := s.counts - {item});
    if s.counts[item] > 0 then s'
    else Changed(s'.(order := Drop(s.order, item)), s.active == item)
  }

  function Yielded(s: State, item: Item): State
    requires item in s.counts && item in s.prios
  {
    if s.counts[item] > 0 then s
    else Changed(s.(order := Drop(s.order, item) + [Entry(item, s.prios[item])]), true)
  }

  predicate Raising(s: State, item: Item, prio: nat)
    requires item in s.prios
  {
    item == s.active && prio < s.prios[item]
  }

  /** No change since the last self-raise, and the item goes back to the priority it had then. */
  predicate Skips(s: State, item: Item, prio: nat) {
    item == s.active && s.counter == s.timestamp && s.saved == prio
  }

  function ParamsSet(s: State, item: Item, prio: nat): State
    requires item in s.counts && item in s.prios
  {
    if s.counts[item] > 0 then s.(prios := s.prios[item := prio])
    else
      var s' := s.(order := Drop(s.order, item) + [Entry(item, prio)], prios := s.prios[item := prio]);
      if Raising(s, item, prio) then s'.(timestamp := s.counter, saved := s.prios[item])
      else if Skips(s, item, prio) then s'
      else Changed(s', true)
  }

  function Dispatched(s: State): State
    requires s.order != []
  {
    if s.pending then s.(pending := false, active := Best(s.order).item) else s
  }

  // Every operation keeps the invariant

  /** The system starts with the idle item, current before it is resumed for the first time. */
  function Boot(idle: Item): State {
    var s := State([], map[idle := PRIO_NUM - 1], map[idle := 1], false, 0, idle, 0, 0);
    Resumed(s, idle)
  }

  lemma BootInv(idle: Item)
    ensures Inv(Boot(idle)) && Ready(Boot(idle), idle)
  {
    assert Boot(idle).order == [Entry(idle, PRIO_NUM - 1)];
  }

  lemma ResumedTracked(s: State, item: Item)
    requires Tracked(s) && item in s.counts
    ensures Tracked(Resumed(s, item))
  {
    assert forall i | 0 <= i < |s.order| :: s.order[i] in s.order;
    var s' := Resumed(s, item);
    assert forall i | i != item :: Ready(s', i) <==> Ready(s, i);
  }

  lemma ResumeInv(s: State, item: Item)
    requires Inv(s) && item in s.counts
    ensures Inv(Resumed(s, item))
  {
    ResumedTracked(s, item);
    var s' := Resumed(s, item);
    assert forall i | i != item :: Ready(s', i) <==> Ready(s, i);
  }

  lemma DropTracked(s: State, s': State, item: Item)
    requires Tracked(s) && item in s.counts
    requires s'.order == Drop(s.order, item) && s'.prios == s.prios && s'.active == s.active
    requires s'.counts == s.counts - {item} || s'.counts == s.counts[item := 1]
    ensures Tracked(s')
  {
    DropKeeps(s.order, item);
    forall i ensures Ready(s', i) <==> i != item && Ready(s, i) {}
  }

  lemma ReaddTracked(s: State, item: Item, prio: nat, s': State)
    requires Tracked(s) && Ready(s, item) && prio < PRIO_NUM
    requires s'.order == Drop(s.order, item) + [Entry(item, prio)] && s'.prios == s.prios[item := prio]
    requires s'.active == s.active && s'.counts == s.counts
    ensures Tracked(s')
    ensures forall e | e in s'.order :: e == Entry(item, prio) || (e in s.order && e.item != item)
  {
    DropKeeps(s.order, item);
    var d := Drop(s.order, item);
    assert forall i | 0 <= i < |d| :: d[i] in d;
    assert forall i :: Ready(s', i) <==> Ready(s, i);
  }

  lemma SuspendedTracked(s: State, item: Item)
    requires Tracked(s) && item in s.counts
    ensures Tracked(Suspended(s, item))
  {
    var s' := Suspended(s, item);
    if s.counts[item] == 0 {
      assert s'.counts == s.counts[item := 1];
      DropTracked(s, s', item);
    } else {
      assert forall i :: Ready(s', i) <==> Ready(s, i);
    }
  }

  lemma SuspendInv(s: State, item: Item)
    requires Inv(s) && item in s.counts
    ensures Inv(Suspended(s, item))
  {
    SuspendedTracked(s, item);
    assert s.counts[item] > 0 ==> forall i :: Ready(Suspended(s, item), i) <==> Ready(s, i);
  }

  lemma RemovedTracked(s: State, item: Item)
    requires Tracked(s) && item in s.counts
    ensures Tracked(Removed(s, item))
  {
    var s' := Removed(s, item);
    if s.counts[item] == 0 {
      DropTracked(s, s', item);
    } else {
      assert forall i :: Ready(s', i) <==> Ready(s, i);
    }
  }

  lemma RemoveInv(s: State, item: Item)
    requires Inv(s) && item in s.counts
    ensures Inv(Removed(s, item))
  {
    var s' := Removed(s, item);
    RemovedTracked(s, item);
    DropKeeps(s.order, item);
    assert s.active != item || s.counts[item] > 0 ==> (Ready(s', s.active) <==> Ready(s, s.active));
  }

  lemma YieldedTracked(s: State, item: Item)
    requires Tracked(s) && item in s.counts
    ensures Tracked(Yielded(s, item))
  {
    if s.counts[item] == 0 {
      assert Ready(s, item);
      assert s.prios == s.prios[item := s.prios[item]];
      ReaddTracked(s, item, s.prios[item], Yielded(s, item));
    }
  }

  lemma YieldInv(s: State, item: Item)
    requires Inv(s) && item in s.counts
    ensures Inv(Yielded(s, item))
  {
    YieldedTracked(s, item);
  }

  lemma ParamsSetTracked(s: State, item: Item, prio: nat)
    requires Tracked(s) && item in s.counts && prio < PRIO_NUM
    ensures Tracked(ParamsSet(s, item, prio))
  {
    var s' := ParamsSet(s, item, prio);
    if s.counts[item] == 0 {
      assert Ready(s, item);
      ReaddTracked(s, item, prio, s');
    } else {
      assert forall i :: Ready(s', i) <==> Ready(s, i);
      assert forall e | e in s.order :: e.item != item;
    }
  }

  /** A self-raise is sound just when the active item is on top; lowering back is then sound without rescheduling. */
  lemma SetParamsInv(s: State, item: Item, prio: nat)
    requires Inv(s) && item in s.counts && prio < PRIO_NUM
    ensures Inv(ParamsSet(s, item, prio)) <==> (Raising(s, item, prio) && Ready(s, item) ==> OnTop(s))
  {
    var s' := ParamsSet(s, item, prio);
    if s.counts[item] == 0 {
      assert Ready(s, item);
      ReaddTracked(s, item, prio, s');
      assert forall i :: Ready(s', i) <==> Ready(s, i);
      if Raising(s, item, prio) && Inv(s') {
        RaisedOnTop(s, s', item, prio);
      }
    } else {
      assert forall i :: Ready(s', i) <==> Ready(s, i);
      assert forall e | e in s.order :: e.item != item;
    }
  }

  /** What is recorded at a self-raise is true only of an item on top. */
  lemma RaisedOnTop(s: State, s': State, item: Item, prio: nat)
    requires Tracked(s) && Tracked(s') && History(s') && Ready(s, item) && Raising(s, item, prio)
    requires s' == ParamsSet(s, item, prio)
    ensures OnTop(s)
  {
    DropKeeps(s.order, item);
    forall e | e in s.order ensures s.prios[item] <= e.prio {
      if e.item != item {
        assert e in s'.order;
      }
    }
  }

  lemma DispatchedTracked(s: State)
    requires Tracked(s) && s.order != []
    ensures Tracked(Dispatched(s))
  {
    BestIn(s.order);
    assert forall i :: Ready(Dispatched(s), i) <==> Ready(s, i);
  }

  lemma GetNextInv(s: State)
    requires Inv(s) && s.order != []
    ensures Inv(Dispatched(s)) && OnTop(Dispatched(s)) && !Dispatched(s).pending
  {
    BestIn(s.order);
    var s' := Dispatched(s);
    assert forall i :: Ready(s', i) <==> Ready(s, i);
  }

  /** With no reschedule pending, the guard on self-raises holds. */
  lemma NoPendingIsOnTop(s: State)
    requires Inv(s) && !s.pending
    ensures OnTop(s)
  {
  }

  /**
   When exactly the shortcut is sound: the active item raises itself, whatever is then of highest priority is
   dispatched and sets its own priority to the one before the raise. That is never rescheduled, and it is right just
   when the item was on top before the raise. If something else was dispatched, it is wrong.
   */
  lemma ShortcutExact(s: State, high: nat)
    requires Tracked(s) && Ready(s, s.active) && high < s.prios[s.active]
    ensures var raised := ParamsSet(s, s.active, high);
            && raised.order != [] && Dispatched(raised).active in s.counts && Dispatched(raised).active in s.prios
            && var next := Dispatched(raised);
               var low := ParamsSet(next, next.active, s.prios[s.active]);
               && !low.pending && low.active == next.active && low.counter == s.counter
               && Tracked(low) && (OnTop(low) <==> OnTop(s)) && (next.active != s.active ==> !OnTop(low))
  {
    RaisedIs(s, high);
    var next, prio := Dispatched(ParamsSet(s, s.active, high)), s.prios[s.active];
    var low := ParamsSet(next, next.active, prio);
    assert low.order == Drop(next.order, next.active) + [Entry(next.active, prio)];
    ReaddTracked(next, next.active, prio, low);
    assert forall i :: Ready(s, i) <==> Ready(low, i);
    if next.active == s.active {
      SetTwice(s.prios, s.active, high);
      SameOthers(s, next, low, s.active);
    } else {
      OtherDispatched(s, low, next.active, high);
    }
  }

  /** If another item was dispatched it was of higher priority, and then lowered itself below the one that raised. */
  lemma OtherDispatched(s: State, low: State, other: Item, high: nat)
    requires Tracked(s) && Tracked(low) && Ready(s, s.active) && Ready(s, other) && other == low.active != s.active
    requires forall i :: Ready(s, i) <==> Ready(low, i)
    requires s.prios[other] <= high < s.prios[s.active]
    requires low.prios == s.prios[s.active := high][other := s.prios[s.active]]
    ensures !OnTop(low) && !OnTop(s)
  {
    assert Entry(other, s.prios[other]) in s.order;
    assert Entry(s.active, high) in low.order;
  }

  lemma SetTwice(m: map<Item, nat>, k: Item, v: nat)
    requires k in m
    ensures m[k := v][k := m[k]] == m
  {
  }

  /** The active item raises itself, and one of at least its new priority is dispatched. */
  lemma RaisedIs(s: State, high: nat)
    requires Tracked(s) && Ready(s, s.active) && high < s.prios[s.active]
    ensures var raised := ParamsSet(s, s.active, high);
            && raised.order != []
            && var next := Dispatched(raised);
               && Tracked(next) && !next.pending && Ready(next, next.active) && next.prios[next.active] <= high
               && next.prios == s.prios[s.active := high] && next.counts == s.counts
               && next.counter == s.counter == next.timestamp && next.saved == s.prios[s.active]
  {
    var raised := ParamsSet(s, s.active, high);
    ReaddTracked(s, s.active, high, raised);
    assert raised.order[|raised.order| - 1] == Entry(s.active, high);
    BestIn(raised.order);
    DispatchedTracked(raised);
  }

  /** Taking an item out and adding it again leaves the other entries as they were. */
  lemma SameOthers(s: State, next: State, low: State, item: Item)
    requires Tracked(s) && Tracked(next) && Tracked(low) && Ready(s, item)
    requires low.prios == s.prios && s.active == item == low.active
    requires forall i :: Ready(s, i) <==> Ready(low, i)
    ensures OnTop(low) <==> OnTop(s)
  {
    assert forall e | e in s.order :: Ready(low, e.item);
    assert forall e | e in low.order :: Ready(s, e.item);
  }

  /** An item that raises itself above everything is the one dispatched. */
  lemma RaisedAbove(s: State, high: nat)
    requires Tracked(s) && Ready(s, s.active) && high < s.prios[s.active]
    requires forall e | e in s.order && e.item != s.active :: high < e.prio
    ensures var raised := ParamsSet(s, s.active, high);
            raised.order != [] && Dispatched(raised).active == s.active
  {
    var raised := ParamsSet(s, s.active, high);
    ReaddTracked(s, s.active, high, raised);
    assert raised.order[|raised.order| - 1] == Entry(s.active, high);
    BestIn(raised.order);
  }

  // What the operations do to the queues of ready items

  /** The ready items of one priority, in the order they are to run. */
  function Queue(s: State, p: nat): seq<Item> {
    Level(s.order, p)
  }

  /** Nothing but the queue of this priority changed. */
  ghost predicate OthersQueued(s: State, s': State, prio: nat) {
    forall p {:trigger Queue(s', p)} | p != prio :: Queue(s', p) == Queue(s, p)
  }

  lemma DropAbsent(s: State, item: Item, p: nat)
    requires Tracked(s) && item in s.counts && p != s.prios[item]
    ensures Level(Drop(s.order, item), p) == Level(s.order, p)
  {
    LevelDrop(s.order, item, p);
    LevelMembers(s.order, p, item);
    assert forall i | 0 <= i < |s.order| :: s.order[i] in s.order;
    WithoutAbsent(Level(s.order, p), item);
  }

  /** The last of as many resumes as there were suspends puts the item at the end of its queue. */
  lemma ResumedIs(s: State, item: Item)
    requires Tracked(s) && item in s.counts
    ensures var s' := Resumed(s, item);
            && s'.counts == s.counts[item := if s.counts[item] > 0 then s.counts[item] - 1 else 0]
            && s'.prios == s.prios && s'.active == s.active
            && OthersQueued(s, s', s.prios[item])
            && (s.counts[item] == 1 ==>
                  && Queue(s', s.prios[item]) == Queue(s, s.prios[item]) + [item]
                  && (s'.pending <==> s.pending || s.prios[item] <= s.prios[s.active]))
            && (s.counts[item] != 1 ==> s'.order == s.order && s'.pending == s.pending)
  {
    forall p: nat ensures Level(s.order + [Entry(item, s.prios[item])], p) ==
                          Level(s.order, p) + (if p == s.prios[item] then [item] else []) {
      LevelAdd(s.order, Entry(item, s.prios[item]), p);
    }
  }

  /** The first suspend takes the item out of its queue, and further ones count. */
  lemma SuspendedIs(s: State, item: Item)
    requires Tracked(s) && item in s.counts
    ensures var s' := Suspended(s, item);
            && s'.counts == s.counts[item := s.counts[item] + 1] && s'.prios == s.prios && s'.active == s.active
            && OthersQueued(s, s', s.prios[item])
            && (s.counts[item] == 0 ==>
                  Queue(s', s.prios[item]) == Without(Queue(s, s.prios[item]), item) && s'.pending)
            && (s.counts[item] > 0 ==> s'.order == s.order && s'.pending == s.pending)
  {
    forall p: nat | p != s.prios[item] ensures Level(Drop(s.order, item), p) == Level(s.order, p) {
      DropAbsent(s, item, p);
    }
    LevelDrop(s.order, item, s.prios[item]);
  }

  /** An item that is removed is in no queue, and is not known any more. */
  lemma RemovedIs(s: State, item: Item)
    requires Tracked(s) && item in s.counts
    ensures var s' := Removed(s, item);
            && s'.counts == s.counts - {item} && s'.prios == s.prios && s'.active == s.active
            && OthersQueued(s, s', s.prios[item]) && (forall e | e in s'.order :: e.item != item)
            && Queue(s', s.prios[item]) == Without(Queue(s, s.prios[item]), item)
            && (s'.pending <==> s.pending || (s.counts[item] == 0 && s.active == item))
  {
    forall p: nat | p != s.prios[item] ensures Level(Drop(s.order, item), p) == Level(s.order, p) {
      DropAbsent(s, item, p);
    }
    LevelDrop(s.order, item, s.prios[item]);
    DropKeeps(s.order, item);
    if s.counts[item] > 0 {
      LevelMembers(s.order, s.prios[item], item);
      assert forall i | 0 <= i < |s.order| :: s.order[i] in s.order;
      WithoutAbsent(Level(s.order, s.prios[item]), item);
    }
  }

  /** A ready item that yields goes behind all others of its priority. */
  lemma YieldedIs(s: State, item: Item)
    requires Tracked(s) && item in s.counts
    ensures var s' := Yielded(s, item);
            && s'.counts == s.counts && s'.prios == s.prios && s'.active == s.active
            && OthersQueued(s, s', s.prios[item])
            && (s.counts[item] == 0 ==>
                  Queue(s', s.prios[item]) == Without(Queue(s, s.prios[item]), item) + [item] && s'.pending)
            && (s.counts[item] > 0 ==> s' == s)
  {
    forall p: nat | s.counts[item] == 0 ensures Level(Yielded(s, item).order, p) ==
        Without(Level(s.order, p), item) + (if p == s.prios[item] then [item] else []) {
      LevelDrop(s.order, item, p);
      LevelAdd(Drop(s.order, item), Entry(item, s.prios[item]), p);
    }
    forall p: nat | p != s.prios[item] ensures Without(Level(s.order, p), item) == Level(s.order, p) {
      DropAbsent(s, item, p);
      LevelDrop(s.order, item, p);
    }
  }

  /** The priority is set, also of a suspended item; a ready one goes to the end of the queue of its new priority. */
  lemma ParamsSetIs(s: State, item: Item, prio: nat)
    requires Tracked(s) && item in s.counts
    ensures var s' := ParamsSet(s, item, prio);
            && s'.counts == s.counts && s'.prios == s.prios[item := prio] && s'.active == s.active
            && (s.counts[item] == 0 ==>
                  && Queue(s', prio) == Without(Queue(s, prio), item) + [item]
                  && forall p {:trigger Queue(s', p)} | p != prio :: Queue(s', p) == Without(Queue(s, p), item))
            && (s.counts[item] > 0 ==> s'.order == s.order)
            && s'.pending == (s.pending || (s.counts[item] == 0 && !Raising(s, item, prio) && !Skips(s, item, prio)))
  {
    forall p: nat ensures Level(Drop(s.order, item) + [Entry(item, prio)], p) ==
                          Without(Level(s.order, p), item) + (if p == prio then [item] else []) {
      LevelDrop(s.order, item, p);
      LevelAdd(Drop(s.order, item), Entry(item, prio), p);
    }
  }

  /** An item that was initialised is suspended, and one resume makes it ready at its priority. */
  lemma InitializedIs(s: State, item: Item, prio: nat)
    requires Tracked(s) && item !in s.counts && prio < PRIO_NUM
    ensures var s' := Initialized(s, item, prio);
            && s'.order == s.order && item in s'.counts && !Ready(s', item) && s'.prios == s.prios[item := prio]
            && s.active in s'.prios && Ready(Resumed(s', item), item)
            && Queue(Resumed(s', item), prio) == Queue(s, prio) + [item]
  {
    LevelAdd(s.order, Entry(item, prio), prio);
  }

  // Nested suspends

  function SuspendedTimes(s: State, item: Item, n: nat): (r: State)
    requires item in s.counts
    ensures item in r.counts
  {
    if n == 0 then s else Suspended(SuspendedTimes(s, item, n - 1), item)
  }

  function ResumedTimes(s: State, item: Item, n: nat): (r: State)
    requires item in s.counts && item in s.prios && s.active in s.prios
    ensures item in r.counts && r.prios == s.prios && r.active == s.active
  {
    if n == 0 then s else Resumed(ResumedTimes(s, item, n - 1), item)
  }

  lemma {:induction false} SuspendsCount(s: State, item: Item, n: nat)
    requires item in s.counts
    ensures var r := SuspendedTimes(s, item, n);
            r.counts == s.counts[item := s.counts[item] + n] && r.prios == s.prios && r.active == s.active
  {
    if n > 0 {
      SuspendsCount(s, item, n - 1);
    }
  }

  lemma {:induction false} ResumesCount(s: State, item: Item, n: nat)
    requires item in s.counts && item in s.prios && s.active in s.prios
    ensures ResumedTimes(s, item, n).counts[item] == if s.counts[item] > n then s.counts[item] - n else 0
  {
    if n > 0 {
      ResumesCount(s, item, n - 1);
    }
  }

  /** After n suspends an item is ready again with the n-th resume, and not before. */
  lemma NestedSuspends(s: State, item: Item, n: nat, m: nat)
    requires Tracked(s) && Ready(s, item)
    ensures var r := SuspendedTimes(s, item, n);
            && r.prios == s.prios && r.active == s.active
            && (Ready(ResumedTimes(r, item, m), item) <==> m >= n)
  {
    SuspendsCount(s, item, n);
    ResumesCount(SuspendedTimes(s, item, n), item, m);
  }

  // Taking turns

  /** With a reschedule pending, the first in the queue of the highest priority in use is dispatched. */
  lemma DispatchedIs(s: State, p: nat)
    requires Tracked(s) && s.pending && Queue(s, p) != [] && forall q | 0 <= q < p :: Queue(s, q) == []
    ensures s.order != [] && Dispatched(s).active == Queue(s, p)[0]
  {
    assert forall q | 0 <= q < p :: Level(s.order, q) == Queue(s, q);
    var i := LowestLevelIsBest(s.order, p);
    BestIsBest(s.order, i);
  }

  lemma NothingAbove(s: State, p: nat)
    requires forall e | e in s.order :: p <= e.prio
    ensures forall q | 0 <= q < p :: Queue(s, q) == []
  {
    assert forall i | 0 <= i < |s.order| :: s.order[i] in s.order;
    forall q: nat | q < p ensures Queue(s, q) == [] {
      if Queue(s, q) != [] {
        LevelMembers(s.order, q, Queue(s, q)[0]);
        assert false;
      }
    }
  }

  /** After a yield of the item on top the next one of its priority runs, if there is one. */
  lemma YieldRotates(s: State)
    requires Tracked(s) && OnTop(s)
    ensures var p := s.prios[s.active];
            var next := Without(Queue(s, p), s.active) + [s.active];
            var yielded := Yielded(s, s.active);
            && yielded.order != []
            && var s' := Dispatched(yielded);
               && Tracked(s') && OnTop(s') && !s'.pending && s'.prios == s.prios && s'.counts == s.counts
               && Queue(s', p) == next && s'.active == next[0] && s'.prios[s'.active] == p && OthersQueued(s, s', p)
  {
    var p, yielded := s.prios[s.active], Yielded(s, s.active);
    YieldedTracked(s, s.active);
    YieldedIs(s, s.active);
    NothingAbove(s, p);
    assert forall q | 0 <= q < p :: Queue(yielded, q) == Queue(s, q);
    DispatchedIs(yielded, p);
    RotatedOnTop(s, yielded, p);
    forall x: nat | x != p ensures Queue(Dispatched(yielded), x) == Queue(s, x) {
      assert Queue(yielded, x) == Queue(s, x);
    }
  }

  lemma RotatedOnTop(s: State, yielded: State, p: nat)
    requires Tracked(s) && Ready(s, s.active) && yielded == Yielded(s, s.active)
    requires Tracked(yielded) && yielded.order != []
    requires Queue(yielded, p) != [] && Dispatched(yielded).active == Queue(yielded, p)[0]
    requires forall e | e in s.order :: p <= e.prio
    ensures var s' := Dispatched(yielded); Tracked(s') && OnTop(s') && s'.prios[s'.active] == p
  {
    DispatchedTracked(yielded);
    DropKeeps(s.order, s.active);
    var a := Queue(yielded, p)[0];
    LevelMembers(yielded.order, p, a);
    var i :| 0 <= i < |yielded.order| && yielded.order[i] == Entry(a, p);
    assert yielded.order[i] in yielded.order;
    assert forall e | e in yielded.order :: p <= e.prio;
  }

  /** The i-th time the active item yields and the dispatcher runs. */
  ghost predicate IsTurn(turns: seq<State>, i: nat)
    requires i + 1 < |turns|
  {
    var s := turns[i];
    Tracked(s) && OnTop(s) ==>
      var yielded := Yielded(s, s.active);
      yielded.order != [] && turns[i + 1] == Dispatched(yielded)
  }

  /** `q` was the queue of priority `p`; since then its first `k` items went to its end, and no other queue changed. */
  ghost predicate Rotated(s: State, r: State, p: nat, q: seq<Item>, k: nat)
    requires k <= |q| && q != []
  {
    && r.prios == s.prios && Queue(r, p) == q[k..] + q[..k] && OthersQueued(s, r, p)
    && r.active == (if k < |q| then q[k] else q[0])
  }

  /** Round robin: the items of one priority that yield in turn each run once, in order, and then start over. */
  lemma {:induction false} RoundRobin(turns: seq<State>, p: nat, q: seq<Item>, k: nat)
    requires k < |turns| && forall i: nat {:trigger IsTurn(turns, i)} | i + 1 < |turns| :: IsTurn(turns, i)
    requires Tracked(turns[0]) && OnTop(turns[0]) && p == turns[0].prios[turns[0].active] && q == Queue(turns[0], p)
    requires k <= |q| && q != [] && q[0] == turns[0].active
    ensures Tracked(turns[k]) && OnTop(turns[k]) && Rotated(turns[0], turns[k], p, q, k)
  {
    if k == 0 {
      NoTurnYet(turns[0], p, q);
    } else {
      RoundRobin(turns, p, q, k - 1);
      assert IsTurn(turns, k - 1);
      RoundStep(turns[0], turns[k - 1], turns[k], p, q, k);
    }
  }

  lemma NoTurnYet(s: State, p: nat, q: seq<Item>)
    requires q == Queue(s, p) && q != [] && q[0] == s.active
    ensures Rotated(s, s, p, q, 0)
  {
    assert q[0..] + q[..0] == q;
  }

  lemma RoundStep(s: State, r: State, r': State, p: nat, q: seq<Item>, k: nat)
    requires Tracked(s) && Tracked(r) && OnTop(r) && q == Queue(s, p) && 0 < k <= |q| && Rotated(s, r, p, q, k - 1)
    requires Yielded(r, r.active).order != [] && r' == Dispatched(Yielded(r, r.active))
    ensures Tracked(r') && OnTop(r') && Rotated(s, r', p, q, k)
  {
    LevelUnique(s.order, p);
    assert q[k - 1..][0] == q[k - 1] && q[k - 1] in q[k - 1..];
    MemberOfQueue(r, p, q[k - 1]);
    NextTurn(s, r, r', p, q, k);
  }

  lemma NextTurn(s: State, r: State, r': State, p: nat, q: seq<Item>, k: nat)
    requires Tracked(s) && Tracked(r) && OnTop(r) && NoDuplicates(q) && 0 < k <= |q|
    requires Rotated(s, r, p, q, k - 1) && Ready(r, q[k - 1]) && r.prios[q[k - 1]] == p
    requires Yielded(r, r.active).order != [] && r' == Dispatched(Yielded(r, r.active))
    ensures Tracked(r') && OnTop(r') && Rotated(s, r', p, q, k)
  {
    YieldRotates(r);
    RotateOnce(q, k);
    forall x: nat | x != p ensures Queue(r', x) == Queue(s, x) {
      assert Queue(r', x) == Queue(r, x);
    }
  }

  lemma MemberOfQueue(s: State, p: nat, item: Item)
    requires Tracked(s) && item in Queue(s, p)
    ensures Ready(s, item) && s.prios[item] == p
  {
    LevelMembers(s.order, p, item);
    var i :| 0 <= i < |s.order| && s.order[i] == Entry(item, p);
    assert s.order[i] in s.order;
  }

  lemma RotateOnce(q: seq<Item>, k: nat)
    requires NoDuplicates(q) && 0 < k <= |q|
    ensures Without(q[k - 1..] + q[..k - 1], q[k - 1]) + [q[k - 1]] == q[k..] + q[..k]
  {
    var r := q[k - 1..] + q[..k - 1];
    forall i, j | 0 <= i < j < |r| ensures r[i] != r[j] {
      var n := |q| - k + 1;
      var a, b := if i < n then i + k - 1 else i - n, if j < n then j + k - 1 else j - n;
      assert r[i] == q[a] && r[j] == q[b] && a != b;
    }
    WithoutFirst(r);
    assert r[1..] + [q[k - 1]] == q[k..] + q[..k];
  }

  // Runs

  datatype Op =
    | OpInit(item: Item, prio: nat)
    | OpResume(item: Item)
    | OpSuspend(item: Item)
    | OpRemove(item: Item)
    | OpYield(item: Item)
    | OpSetParams(item: Item, prio: nat)
    | OpGetNext

  /**
   What callers keep to: removed items are never touched again, the idle item is neither suspended nor removed, and an
   item raises itself only while it is on top, for which it is enough that no reschedule is pending.
   */
  ghost predicate Allowed(s: State, op: Op, idle: Item)
    requires Tracked(s)
  {
    match op
    case OpInit(item, prio) => item !in s.counts && prio < PRIO_NUM
    case OpResume(item) => item in s.counts
    case OpSuspend(item) => item in s.counts && item != idle
    case OpRemove(item) => item in s.counts && item != idle
    case OpYield(item) => item in s.counts
    case OpSetParams(item, prio) =>
      item in s.counts && prio < PRIO_NUM && (Raising(s, item, prio) && Ready(s, item) ==> OnTop(s))
    case OpGetNext => true
  }

  ghost predicate RunInv(s: State, idle: Item) {
    Inv(s) && Ready(s, idle)
  }

  ghost function Step(s: State, op: Op, idle: Item): State
    requires RunInv(s, idle) && Allowed(s, op, idle)
  {
    match op
    case OpInit(item, prio) => Initialized(s, item, prio)
    case OpResume(item) => Resumed(s, item)
    case OpSuspend(item) => Suspended(s, item)
    case OpRemove(item) => Removed(s, item)
    case OpYield(item) => Yielded(s, item)
    case OpSetParams(item, prio) => ParamsSet(s, item, prio)
    case OpGetNext =>
      assert Entry(idle, s.prios[idle]) in s.order;
      Dispatched(s)
  }

  lemma InitInv(s: State, item: Item, prio: nat)
    requires Inv(s) && item !in s.counts && prio < PRIO_NUM
    ensures Inv(Initialized(s, item, prio))
  {
    var s' := Initialized(s, item, prio);
    assert forall i :: Ready(s', i) <==> Ready(s, i);
    assert forall e | e in s.order :: e.item != item;
  }

  lemma StepInv(s: State, op: Op, idle: Item)
    requires RunInv(s, idle) && Allowed(s, op, idle)
    ensures RunInv(Step(s, op, idle), idle)
  {
    match op
    case OpInit(item, prio) => InitInv(s, item, prio);
    case OpResume(item) => ResumeInv(s, item);
    case OpSuspend(item) => SuspendInv(s, item);
    case OpRemove(item) => RemoveInv(s, item);
    case OpYield(item) => YieldInv(s, item);
    case OpSetParams(item, prio) => SetParamsInv(s, item, prio);
    case OpGetNext =>
      assert Entry(idle, s.prios[idle]) in s.order;
      GetNextInv(s);
  }

  /** A sequence of states, each reached from the one before by an allowed operation. */
  ghost predicate IsRun(states: seq<State>, ops: seq<Op>, idle: Item) {
    && |states| == |ops| + 1 && states[0] == Boot(idle)
    && forall k {:trigger ops[k]} | 0 <= k < |ops| ::
         && RunInv(states[k], idle) ==> Allowed(states[k], ops[k], idle)
                                        && states[k + 1] == Step(states[k], ops[k], idle)
  }

  /** In every state of every run a reschedule is pending, or the active item is ready and of highest priority. */
  lemma {:induction false} RunsKeepTop(states: seq<State>, ops: seq<Op>, idle: Item, k: nat)
    requires IsRun(states, ops, idle) && k < |states|
    ensures RunInv(states[k], idle) && (!states[k].pending ==> OnTop(states[k]))
  {
    if k == 0 {
      BootInv(idle);
    } else {
      RunsKeepTop(states, ops, idle, k - 1);
      StepInv(states[k - 1], ops[k - 1], idle);
    }
  }

  lemma IdleRuns() returns (s: State)
    ensures Boot(0).order != [] && s == Dispatched(Boot(0))
    ensures s.order == [Entry(0, PRIO_NUM - 1)] && s.active == 0 && !s.pending
    ensures s.counts.Keys == {0} && s.prios == map[0 := PRIO_NUM - 1]
  {
    s := Dispatched(Boot(0));
  }

  lemma OneReady() returns (s: State)
    ensures Boot(0).order != [] && s == Resumed(Initialized(Dispatched(Boot(0)), 1, 5), 1)
    ensures s.pending && s.order == [Entry(0, PRIO_NUM - 1), Entry(1, 5)]
    ensures 2 !in s.counts && 1 in s.prios && s.prios[1] == 5
  {
    s := IdleRuns();
    s := Initialized(s, 1, 5);
    s := Resumed(s, 1);
  }

  lemma OneReadyInv()
    ensures Boot(0).order != [] && Inv(Resumed(Initialized(Dispatched(Boot(0)), 1, 5), 1))
  {
    BootInv(0);
    GetNextInv(Boot(0));
    var s := IdleRuns();
    InitInv(s, 1, 5);
    ResumeInv(Initialized(s, 1, 5), 1);
  }

  lemma OneRuns() returns (s: State)
    ensures s == Dispatched(Resumed(Initialized(Dispatched(Boot(0)), 1, 5), 1))
    ensures Inv(s) && !s.pending && s.active == 1 && s.order == [Entry(0, PRIO_NUM - 1), Entry(1, 5)]
    ensures 2 !in s.counts && 1 in s.prios && s.prios[1] == 5
  {
    s := OneReady();
    OneReadyInv();
    assert s.order == [Entry(0, PRIO_NUM - 1), Entry(1, 5)];
    assert s.order[..1] == [Entry(0, PRIO_NUM - 1)];
    assert Best(s.order) == Entry(1, 5);
    GetNextInv(s);
    s := Dispatched(s);
  }

  lemma TwoWaits() returns (s: State)
    ensures s == Resumed(Initialized(Dispatched(Resumed(Initialized(Dispatched(Boot(0)), 1, 5), 1)), 2, 4), 2)
    ensures Inv(s) && s.pending && s.active == 1 && s.prios[1] == 5
    ensures s.order == [Entry(0, PRIO_NUM - 1), Entry(1, 5), Entry(2, 4)]
  {
    s := OneRuns();
    InitInv(s, 2, 4);
    s := Initialized(s, 2, 4);
    ResumeInv(s, 2);
    s := Resumed(s, 2);
  }

  ghost predicate RunsBelow(s: State) {
    && Tracked(s) && s.active == 1 && Ready(s, 1) && s.prios[1] == 5 && s.pending
    && s.order == [Entry(0, PRIO_NUM - 1), Entry(1, 5), Entry(2, 4)]
  }

  /** Item 1 raises itself to `high`; what is dispatched sets itself to 5, runs, and is not on top. */
  ghost predicate GoesWrong(s: State, high: nat, next: Item)
    requires 1 in s.counts && 1 in s.prios
  {
    var raised := ParamsSet(s, 1, high);
    && raised.order != [] && next == Dispatched(raised).active && next in raised.counts && next in raised.prios
    && var low := ParamsSet(Dispatched(raised), next, 5);
       Tracked(low) && low.active == next && !low.pending && !OnTop(low)
  }

  lemma RaiseBreaks(s: State)
    requires RunsBelow(s)
    ensures GoesWrong(s, 3, 1)
  {
    assert Entry(1, 5) == s.order[1] && Entry(2, 4) == s.order[2];
    assert Entry(2, 4) in s.order;
    ShortcutExact(s, 3);
    RaisedAbove(s, 3);
  }

  lemma DropSecond(order: seq<Entry>)
    requires |order| == 3 && order[1].item == 1 && order[2].item != 1
    ensures Drop(order, 1) == [order[0], order[2]]
  {
    assert order[..2][..1] == [order[0]];
    assert Drop(order[..2], 1) == [order[0]];
  }

  lemma RaiseMisleads(s: State)
    requires RunsBelow(s)
    ensures GoesWrong(s, 4, 2)
  {
    var raised := ParamsSet(s, 1, 4);
    assert s.order[2] == Entry(2, 4) && s.order[1] == Entry(1, 5);
    DropSecond(s.order);
    assert raised.order == [Entry(0, PRIO_NUM - 1), Entry(2, 4), Entry(1, 4)];
    assert IsBest(raised.order, 1);
    BestIsBest(raised.order, 1);
    ShortcutExact(s, 4);
  }

  /**
   A raise with a reschedule pending breaks it: item 1 runs at 5 and item 2 at 4 becomes ready. If item 1 raises itself
   to 3, it is dispatched, lowers itself to 5, and runs while item 2 is ready. If it raises itself to 4, item 2 is
   dispatched, sets itself to 5, and runs while item 1 is ready.
   */
  lemma PendingRaiseBreaks() returns (s: State)
    ensures s == Resumed(Initialized(Dispatched(Resumed(Initialized(Dispatched(Boot(0)), 1, 5), 1)), 2, 4), 2)
    ensures 1 in s.counts && 1 in s.prios && GoesWrong(s, 3, 1) && GoesWrong(s, 4, 2)
  {
    s := TwoWaits();
    assert s.order[1] == Entry(1, 5);
    RaiseBreaks(s);
    RaiseMisleads(s);
  }

  class Sched {
    const container: Container
    var prios: map<Item, nat>
    var counts: map<Item, nat>
    var reschedPending: bool
    var changesCounter: nat
    var active: Item
    var timestamp: nat
    var savedPrio: nat

    ghost function View(): State
      reads this, container
    {
      State(container.order, prios, counts, reschedPending, changesCounter, active, timestamp, savedPrio)
    }

    ghost predicate Valid()
      reads this, container, container.queues, container.map2
    {
      container.Valid() && Tracked(View())
    }

    constructor (idle: Item)
      ensures Valid() && fresh(container) && fresh(container.queues) && fresh(container.map2)
      ensures View() == Boot(idle)
    {
      container := new Container();
      prios, counts := map[idle := PRIO_NUM - 1], map[idle := 1];
      reschedPending, changesCounter, timestamp, savedPrio := false, 0, 0, 0;
      active := idle;
      new;
      var previous := Resume(idle);
    }

    method MarkReschedNeeded()
      modifies `reschedPending
      ensures reschedPending
    {
      reschedPending := true;
    }

    method Init(item: Item, prio: nat)
      requires Valid() && item !in counts && prio < PRIO_NUM
      modifies this
      ensures Valid() && View() == Initialized(old(View()), item, prio)
    {
      ghost var s := View();
      prios := prios[item := prio];
      counts := counts[item := 1];
      assert forall i :: Ready(View(), i) <==> Ready(s, i);
    }

    method Resume(item: Item) returns (previous: nat)
      requires Valid() && item in counts
      modifies this, container, container.queues, container.map2
      ensures Valid() && previous == old(counts[item])
      ensures View() == Resumed(old(View()), item)
    {
      ghost var s := View();
      previous := counts[item];
      if previous > 0 {
        counts := counts[item := counts[item] - 1];
        if counts[item] == 0 {
          container.Add(Entry(item, prios[item]));
          changesCounter := changesCounter + 1;
          if prios[item] == prios[active] || prios[item] < prios[active] {
            MarkReschedNeeded();
          }
        }
      }
      ResumedTracked(s, item);
    }

    method Suspend(item: Item) returns (previous: nat)
      requires Valid() && item in counts
      modifies this, container, container.queues, container.map2
      ensures Valid() && previous == old(counts[item])
      ensures View() == Suspended(old(View()), item)
    {
      ghost var s := View();
      SuspendedTracked(s, item);
      previous := counts[item];
      counts := counts[item := counts[item] + 1];
      if counts[item] == 1 {
        assert Ready(s, item);
        container.Remove(Entry(item, prios[item]));
        changesCounter := changesCounter + 1;
        MarkReschedNeeded();
      }
      assert View() == Suspended(s, item);
    }

    /** The item leaves `counts`: the caller does not use it again. */
    method Remove(item: Item)
      requires Valid() && item in counts
      modifies this, container, container.queues, container.map2
      ensures Valid() && View() == Removed(old(View()), item)
    {
      ghost var s := View();
      RemovedTracked(s, item);
      if counts[item] == 0 {
        assert Ready(s, item);
        container.Remove(Entry(item, prios[item]));
        changesCounter := changesCounter + 1;
        if active == item {
          MarkReschedNeeded();
        }
      }
      counts := counts - {item};
    }

    method Requeue(item: Item, prio: nat)
      requires container.Valid() && item in prios && Entry(item, prios[item]) in container.order && prio < PRIO_NUM
      modifies `prios, container, container.queues, container.map2
      ensures container.Valid() && prios == old(prios)[item := prio]
      ensures container.order == Drop(old(container.order), item) + [Entry(item, prio)]
    {
      DropKeeps(container.order, item);
      container.Remove(Entry(item, prios[item]));
      prios := prios[item := prio];
      container.Add(Entry(item, prios[item]));
    }

    method Yield(item: Item) returns (result: bool)
      requires Valid() && item in counts
      modifies this, container, container.queues, container.map2
      ensures Valid() && View() == Yielded(old(View()), item)
      ensures result <==> old(counts[item]) == 0
    {
      ghost var s := View();
      result := false;
      if counts[item] == 0 {
        assert Ready(s, item);
        Requeue(item, prios[item]);
        assert prios == s.prios;
        result := true;
        changesCounter := changesCounter + 1;
        MarkReschedNeeded();
      }
      YieldedTracked(s, item);
      assert View() == Yielded(s, item);
    }

    method SetParams(item: Item, prio: nat)
      requires Valid() && item in counts && prio < PRIO_NUM
      modifies this, container, container.queues, container.map2
      ensures Valid() && View() == ParamsSet(old(View()), item, prio)
    {
      ghost var s := View();
      ParamsSetTracked(s, item, prio);
      if counts[item] == 0 {
        assert Ready(s, item);
        var raising := prio < prios[item];
        var self := item == active;
        if self && raising {
          timestamp := changesCounter;
          savedPrio := prios[item];
        } else if !self || changesCounter != timestamp || savedPrio != prio {
          changesCounter := changesCounter + 1;
          MarkReschedNeeded();
        }
        Requeue(item, prio);
      } else {
        prios := prios[item := prio];
      }
      assert View() == ParamsSet(s, item, prio);
    }

    /** `None` when the current item is not to change. */
    method GetNext() returns (next: Option<Item>)
      requires Valid() && container.order != []
      modifies this
      ensures Valid() && View() == Dispatched(old(View()))
      ensures next == if old(reschedPending) then Some(active) else None
    {
      ghost var s := View();
      next := None;
      if reschedPending {
        var item := container.Get();
        ghost var i :| IsBest(container.order, i) && item == container.order[i].item;
        BestIsBest(container.order, i);
        next := Some(item);
        reschedPending := false;
        active := item;
      }
      DispatchedTracked(s);
    }
  }
}
