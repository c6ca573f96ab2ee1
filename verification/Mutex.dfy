/**
 Mutexes with recursion, direct hand-off and priority ceiling. `Acquired` and `ReleasedBy` are what the two operations
 do to one mutex and to the threads' priorities; the rest is about any number of mutexes and threads.
 */
module Mutex {
  import opened Options
  import opened Seqs
  import opened Sync

  type Id = nat

  /** `ceiling` is `None` when it is disabled; `ownerParams` is the priority to restore. */
  datatype MutexState = MutexState(
    owner: Option<Thread>,
    recursive: nat,
    ceiling: Option<nat>,
    ownerParams: nat,
    waiters: seq<Thread>)

  datatype ReleaseResult = Ok | WrongOwner

  function PrioOf(prio: map<Thread, nat>, t: Thread): nat {
    if t in prio then prio[t] else 0
  }

  function PrioFn(prio: map<Thread, nat>): Thread -> nat {
    (t: Thread) => PrioOf(prio, t)
  }

  function Raised(prio: map<Thread, nat>, t: Thread, ceiling: nat): map<Thread, nat> {
    if ceiling < PrioOf(prio, t) then prio[t := ceiling] else prio
  }

  /** A thread becomes the owner: its priority is saved and the ceiling applied. */
  function Given(x: MutexState, prio: map<Thread, nat>, t: Thread): (MutexState, map<Thread, nat>) {
    if x.ceiling.Some? then
      (x.(owner := Some(t), ownerParams := PrioOf(prio, t)), Raised(prio, t, x.ceiling.value))
    else (x.(owner := Some(t)), prio)
  }

  function Acquired(x: MutexState, prio: map<Thread, nat>, t: Thread, wait: bool)
    : (MutexState, map<Thread, nat>, bool)
  {
    if x.owner.None? then
      var (x', prio') := Given(x, prio, t);
      (x', prio', true)
    else if x.owner == Some(t) then (x.(recursive := x.recursive + 1), prio, true)
    else (if wait then x.(waiters := x.waiters + [t]) else x, prio, false)
  }

  function NextOwner(x: MutexState, prio: map<Thread, nat>, policy: Policy): Thread
    requires x.waiters != []
  {
    x.waiters[Chosen(Prios(x.waiters, PrioFn(prio)), policy)]
  }

  function HandedOver(x: MutexState, prio: map<Thread, nat>, policy: Policy): (MutexState, map<Thread, nat>) {
    if x.waiters == [] then (x.(owner := None), prio)
    else
      var w := NextOwner(x, prio, policy);
      Given(x.(waiters := Without(x.waiters, w)), prio, w)
  }

  function Restored(prio: map<Thread, nat>, t: Thread, saved: nat): map<Thread, nat> {
    if saved == PrioOf(prio, t) then prio else prio[t := saved]
  }

  function ReleasedBy(x: MutexState, prio: map<Thread, nat>, t: Thread, policy: Policy)
    : (MutexState, map<Thread, nat>, ReleaseResult)
  {
    if x.owner != Some(t) then (x, prio, WrongOwner)
    else if x.recursive > 0 then (x.(recursive := x.recursive - 1), prio, Ok)
    else
      var (x', prio') := HandedOver(x, prio, policy);
      (x', if x.ceiling.Some? then Restored(prio', t, x.ownerParams) else prio', Ok)
  }

  // What the operations do to one mutex

  /** A thread gets a mutex that is free or its own, and waits behind the others, if it waits, for any other. */
  lemma AcquiredIs(x: MutexState, prio: map<Thread, nat>, t: Thread, wait: bool)
    ensures var (x', prio', ok) := Acquired(x, prio, t, wait);
            && (ok <==> x.owner.None? || x.owner == Some(t)) && (ok <==> x'.owner == Some(t))
            && x'.recursive == x.recursive + (if x.owner == Some(t) then 1 else 0)
            && x'.waiters == (if !ok && wait then x.waiters + [t] else x.waiters)
            && (x.owner.None? && x.ceiling.Some? ==>
                  x'.ownerParams == PrioOf(prio, t) && PrioOf(prio', t) <= x.ceiling.value)
            && (x.owner.Some? ==> prio' == prio && x'.owner == x.owner)
            && forall u | u != t :: PrioOf(prio', u) == PrioOf(prio, u)
  {
  }

  /** A full release makes the next waiter the owner, or nobody; a partial one counts, and a stranger's does nothing. */
  lemma ReleasedIs(x: MutexState, prio: map<Thread, nat>, t: Thread, policy: Policy)
    requires NoDuplicates(x.waiters)
    ensures var (x', prio', result) := ReleasedBy(x, prio, t, policy);
            && (result == WrongOwner <==> x.owner != Some(t))
            && (result == WrongOwner ==> x' == x && prio' == prio)
            && (result == Ok && x.recursive > 0 ==> x' == x.(recursive := x.recursive - 1) && prio' == prio)
            && (result == Ok && x.recursive == 0 && x.waiters == [] ==> x' == x.(owner := None))
            && (result == Ok && x.recursive == 0 && x.waiters != [] ==>
                  exists k :: IsNext(x.waiters, policy, PrioFn(prio), k)
                           && x'.owner == Some(x.waiters[k]) && x'.waiters == x.waiters[..k] + x.waiters[k + 1..])
  {
    if x.waiters != [] {
      var k := Chosen(Prios(x.waiters, PrioFn(prio)), policy);
      ChosenIsNext(x.waiters, policy, PrioFn(prio));
      WithoutAt(x.waiters, k);
    }
  }

  // The effective priority

  function CeilingOf(ceilings: map<Id, nat>, m: Id): Option<nat> {
    if m in ceilings then Some(ceilings[m]) else None
  }

  function Capped(prio: nat, ceiling: Option<nat>): nat {
    if ceiling.Some? && ceiling.value < prio then ceiling.value else prio
  }

  /** The priority of a thread with this base priority that took these mutexes, in this order. */
  function Effective(ceilings: map<Id, nat>, base: nat, held: seq<Id>): nat {
    if held == [] then base
    else Capped(Effective(ceilings, base, held[..|held| - 1]), CeilingOf(ceilings, held[|held| - 1]))
  }

  /** It is the highest of the base and the ceilings: the smallest number among them. */
  lemma {:induction false} EffectiveIsHighest(ceilings: map<Id, nat>, base: nat, held: seq<Id>)
    ensures var e := Effective(ceilings, base, held);
            && e <= base && (forall m | m in held && m in ceilings :: e <= ceilings[m])
            && (e == base || exists m :: m in held && m in ceilings && e == ceilings[m])
  {
    if held != [] {
      var front, last := held[..|held| - 1], held[|held| - 1];
      assert held == front + [last];
      EffectiveIsHighest(ceilings, base, front);
    }
  }

  lemma EffectiveSnoc(ceilings: map<Id, nat>, base: nat, held: seq<Id>, m: Id)
    ensures Effective(ceilings, base, held + [m]) == Capped(Effective(ceilings, base, held), CeilingOf(ceilings, m))
  {
    assert (held + [m])[..|held|] == held;
  }

  /** A mutex that made no difference when it was taken makes none to what was taken after it. */
  lemma {:induction false} EffectiveSkip(ceilings: map<Id, nat>, base: nat, front: seq<Id>, m: Id, back: seq<Id>)
    requires Effective(ceilings, base, front + [m]) == Effective(ceilings, base, front)
    ensures Effective(ceilings, base, front + [m] + back) == Effective(ceilings, base, front + back)
  {
    if back == [] {
      assert front + [m] + back == front + [m] && front + back == front;
    } else {
      var rest, last := back[..|back| - 1], back[|back| - 1];
      EffectiveSkip(ceilings, base, front, m, rest);
      assert front + [m] + back == (front + [m] + rest) + [last];
      assert front + back == (front + rest) + [last];
      EffectiveSnoc(ceilings, base, front + [m] + rest, last);
      EffectiveSnoc(ceilings, base, front + rest, last);
    }
  }

  /** Mutexes without a ceiling that were taken last do not matter. */
  lemma {:induction false} EffectiveTail(ceilings: map<Id, nat>, base: nat, held: seq<Id>, i: nat)
    requires i <= |held| && forall j | i <= j < |held| :: held[j] !in ceilings
    ensures Effective(ceilings, base, held) == Effective(ceilings, base, held[..i])
  {
    if i < |held| {
      var front := held[..|held| - 1];
      EffectiveTail(ceilings, base, front, i);
      assert front[..i] == held[..i];
    } else {
      assert held[..i] == held;
    }
  }

  lemma WithoutIth(held: seq<Id>, i: nat, n: nat)
    requires i < n <= |held|
    ensures (held[..i] + held[i + 1..])[..n - 1] == held[..i] + held[i + 1..n]
    ensures held[..i] + [held[i]] == held[..i + 1] && held[..i + 1] + held[i + 1..n] == held[..n]
  {
  }

  lemma EffectiveDropped(ceilings: map<Id, nat>, base: nat, held: seq<Id>, i: nat, n: nat)
    requires i < n <= |held|
    requires held[i] in ceilings ==> Effective(ceilings, base, held[..i]) <= ceilings[held[i]]
    ensures Effective(ceilings, base, (held[..i] + held[i + 1..])[..n - 1]) == Effective(ceilings, base, held[..n])
  {
    WithoutIth(held, i, n);
    EffectiveSnoc(ceilings, base, held[..i], held[i]);
    EffectiveSkip(ceilings, base, held[..i], held[i], held[i + 1..n]);
  }

  /** With no ceiling between the i-th and the j-th mutex. */
  lemma EffectiveNext(ceilings: map<Id, nat>, base: nat, held: seq<Id>, i: nat, j: nat)
    requires i < j <= |held| && forall k | i < k < j :: held[k] !in ceilings
    ensures Effective(ceilings, base, held[..j]) ==
            Capped(Effective(ceilings, base, held[..i]), CeilingOf(ceilings, held[i]))
    ensures Effective(ceilings, base, (held[..i] + held[i + 1..])[..j - 1]) == Effective(ceilings, base, held[..i])
  {
    WithoutIth(held, i, j);
    EffectiveSnoc(ceilings, base, held[..i], held[i]);
    EffectiveTail(ceilings, base, held[..j], i + 1);
    EffectiveTail(ceilings, base, held[..i] + held[i + 1..j], i);
    assert held[..j][..i + 1] == held[..i + 1] && (held[..i] + held[i + 1..j])[..i] == held[..i];
  }

  /** What is taken later matters only if one of its ceilings is higher. */
  lemma {:induction false} EffectiveAppend(ceilings: map<Id, nat>, base: nat, held: seq<Id>, more: seq<Id>)
    ensures Effective(ceilings, base, held + more) <= Effective(ceilings, base, held)
    ensures Effective(ceilings, base, held + more) == Effective(ceilings, base, held) <==>
            forall j | 0 <= j < |more| && more[j] in ceilings :: Effective(ceilings, base, held) <= ceilings[more[j]]
  {
    if more == [] {
      assert held + more == held;
    } else {
      var front, last := more[..|more| - 1], more[|more| - 1];
      EffectiveAppend(ceilings, base, held, front);
      assert held + more == (held + front) + [last];
      EffectiveSnoc(ceilings, base, held + front, last);
      assert forall j | 0 <= j < |front| :: more[j] == front[j];
    }
  }

  /** Without the i-th mutex: the same if it had no ceiling, and otherwise what it was before, or a later ceiling. */
  lemma EffectiveWithout(ceilings: map<Id, nat>, base: nat, held: seq<Id>, i: nat)
    requires i < |held|
    ensures held[i] !in ceilings ==>
              Effective(ceilings, base, held[..i] + held[i + 1..]) == Effective(ceilings, base, held)
    ensures Effective(ceilings, base, held[..i] + held[i + 1..]) == Effective(ceilings, base, held[..i]) <==>
            forall j | i < j < |held| && held[j] in ceilings ::
              Effective(ceilings, base, held[..i]) <= ceilings[held[j]]
  {
    if held[i] !in ceilings {
      EffectiveDropped(ceilings, base, held, i, |held|);
      assert held[..|held|] == held;
      assert (held[..i] + held[i + 1..])[..|held| - 1] == held[..i] + held[i + 1..];
    }
    EffectiveAppend(ceilings, base, held[..i], held[i + 1..]);
    forall j | i < j < |held| ensures held[j] == held[i + 1..][j - i - 1] {}
  }

  // The system

  /** `base` are the priorities threads were given, `held` the mutexes each thread owns, in the order it got them. */
  datatype State = State(
    mutexes: map<Id, MutexState>,
    prio: map<Thread, nat>,
    ceilings: map<Id, nat>,
    base: map<Thread, nat>,
    held: map<Thread, seq<Id>>)
  {
    function Mutex(m: Id): MutexState {
      if m in mutexes then mutexes[m] else MutexState(None, 0, CeilingOf(ceilings, m), 0, [])
    }

    function Held(t: Thread): seq<Id> {
      if t in held then held[t] else []
    }

    function Prio(t: Thread): nat {
      PrioOf(prio, t)
    }

    function Base(t: Thread): nat {
      PrioOf(base, t)
    }
  }

  /** `held` is what the owner fields say, and only owned mutexes have waiters. */
  ghost predicate OwnersOk(s: State) {
    && (forall t: Thread, m: Id {:trigger m in s.Held(t)} :: m in s.Held(t) <==> s.Mutex(m).owner == Some(t))
    && (forall t: Thread {:trigger s.Held(t)} :: NoDuplicates(s.Held(t)))
  }

  ghost predicate WaitersOk(s: State) {
    forall m: Id {:trigger s.Mutex(m)} ::
      && s.Mutex(m).ceiling == CeilingOf(s.ceilings, m)
      && NoDuplicates(s.Mutex(m).waiters)
      && (s.Mutex(m).owner.None? ==> s.Mutex(m).recursive == 0)
      && (s.Mutex(m).waiters != [] ==> s.Mutex(m).owner.Some? && s.Mutex(m).owner.value !in s.Mutex(m).waiters)
  }

  ghost predicate SavedOk(s: State, t: Thread, i: nat)
    requires i < |s.Held(t)|
  {
    s.Held(t)[i] in s.ceilings ==>
      s.Mutex(s.Held(t)[i]).ownerParams == Effective(s.ceilings, s.Base(t), s.Held(t)[..i])
  }

  /** Every thread runs at its effective priority, and every mutex saved the one its owner had without it. */
  ghost predicate ThreadOk(s: State, t: Thread) {
    && s.Prio(t) == Effective(s.ceilings, s.Base(t), s.Held(t))
    && forall i: nat {:trigger SavedOk(s, t, i)} | i < |s.Held(t)| :: SavedOk(s, t, i)
  }

  ghost predicate Inv(s: State) {
    OwnersOk(s) && WaitersOk(s) && forall t: Thread {:trigger ThreadOk(s, t)} :: ThreadOk(s, t)
  }

  ghost predicate Runs(s: State, t: Thread) {
    forall m: Id :: t !in s.Mutex(m).waiters
  }

  /** No ceiling was taken after the i-th mutex. */
  ghost predicate LastIn(s: State, t: Thread, i: nat)
    requires i < |s.Held(t)|
  {
    forall j | i < j < |s.Held(t)| :: s.Held(t)[j] !in s.ceilings
  }

  /** The ceiling of the i-th mutex raised nothing, and neither did any ceiling taken later. */
  ghost predicate Redundant(s: State, t: Thread, i: nat)
    requires i < |s.Held(t)|
  {
    var saved := Effective(s.ceilings, s.Base(t), s.Held(t)[..i]);
    forall j | i <= j < |s.Held(t)| && s.Held(t)[j] in s.ceilings :: saved <= s.ceilings[s.Held(t)[j]]
  }

  /** Mutexes without a ceiling may be released in any order, ceilings last-in first-out or when they raise nothing. */
  ghost predicate Droppable(s: State, t: Thread, i: nat)
    requires i < |s.Held(t)|
  {
    s.Held(t)[i] in s.ceilings ==> LastIn(s, t, i) || Redundant(s, t, i)
  }

  datatype Op =
    | Acquire(t: Thread, m: Id, wait: bool)
    | Release(t: Thread, m: Id, policy: Policy)
    | Cancel(t: Thread, m: Id)

  ghost predicate Enabled(s: State, op: Op) {
    match op
    case Acquire(t, m, _) => Runs(s, t)
    case Release(t, m, _) =>
      Runs(s, t) &&
      (s.Mutex(m).owner == Some(t) && s.Mutex(m).recursive == 0 ==>
         forall i: nat {:trigger Droppable(s, t, i)} | i < |s.Held(t)| && s.Held(t)[i] == m :: Droppable(s, t, i))
    case Cancel(t, m) => t in s.Mutex(m).waiters
  }

  function Push(s: State, t: Thread, m: Id): State {
    s.(held := s.held[t := s.Held(t) + [m]])
  }

  function Pop(s: State, t: Thread, m: Id): State {
    s.(held := s.held[t := Without(s.Held(t), m)])
  }

  function Next(s: State, op: Op): State {
    match op
    case Acquire(t, m, wait) =>
      var (x, prio, _) := Acquired(s.Mutex(m), s.prio, t, wait);
      var s' := s.(mutexes := s.mutexes[m := x], prio := prio);
      if s.Mutex(m).owner.None? then Push(s', t, m) else s'
    case Release(t, m, policy) =>
      var before := s.Mutex(m);
      var (x, prio, _) := ReleasedBy(before, s.prio, t, policy);
      var s' := s.(mutexes := s.mutexes[m := x], prio := prio);
      if before.owner != Some(t) || before.recursive > 0 then s'
      else if before.waiters == [] then Pop(s', t, m)
      else Push(Pop(s', t, m), NextOwner(before, s.prio, policy), m)
    case Cancel(t, m) =>
      s.(mutexes := s.mutexes[m := s.Mutex(m).(waiters := Without(s.Mutex(m).waiters, t))])
  }

  // Giving and taking

  /** A free mutex is given to a thread. */
  function GivenIn(s: State, t: Thread, m: Id): State {
    var (x, prio) := Given(s.Mutex(m), s.prio, t);
    Push(s.(mutexes := s.mutexes[m := x], prio := prio), t, m)
  }

  lemma GivenOwners(s: State, t: Thread, m: Id)
    requires OwnersOk(s) && s.Mutex(m).owner == None
    ensures OwnersOk(GivenIn(s, t, m))
  {
    var s' := GivenIn(s, t, m);
    assert m !in s.Held(t);
    forall u: Thread, k: Id ensures k in s'.Held(u) <==> s'.Mutex(k).owner == Some(u) {
      assert k in s.Held(u) <==> s.Mutex(k).owner == Some(u);
    }
    forall u: Thread ensures NoDuplicates(s'.Held(u)) {
      assert NoDuplicates(s.Held(u));
    }
  }

  lemma GivenWaiters(s: State, t: Thread, m: Id)
    requires WaitersOk(s) && t !in s.Mutex(m).waiters
    ensures WaitersOk(GivenIn(s, t, m))
  {
    var s' := GivenIn(s, t, m);
    assert forall k: Id :: s'.Mutex(k) == if k == m then Given(s.Mutex(m), s.prio, t).0 else s.Mutex(k);
  }

  lemma GivenThread(s: State, t: Thread, m: Id, u: Thread)
    requires OwnersOk(s) && s.Mutex(m).owner == None && ThreadOk(s, u)
    requires s.Mutex(m).ceiling == CeilingOf(s.ceilings, m)
    ensures ThreadOk(GivenIn(s, t, m), u)
  {
    var s' := GivenIn(s, t, m);
    if u == t {
      EffectiveSnoc(s.ceilings, s.Base(t), s.Held(t), m);
    }
    forall i: nat | i < |s'.Held(u)| ensures SavedOk(s', u, i) {
      if i < |s.Held(u)| {
        GivenSaved(s, t, m, u, i);
      } else {
        GivenLast(s, t, m);
      }
    }
  }

  lemma GivenLast(s: State, t: Thread, m: Id)
    requires s.Prio(t) == Effective(s.ceilings, s.Base(t), s.Held(t))
    requires s.Mutex(m).ceiling == CeilingOf(s.ceilings, m)
    ensures |GivenIn(s, t, m).Held(t)| == |s.Held(t)| + 1 && SavedOk(GivenIn(s, t, m), t, |s.Held(t)|)
  {
    assert GivenIn(s, t, m).Held(t)[..|s.Held(t)|] == s.Held(t);
  }

  lemma GivenSaved(s: State, t: Thread, m: Id, u: Thread, i: nat)
    requires OwnersOk(s) && s.Mutex(m).owner == None && i < |s.Held(u)| && SavedOk(s, u, i)
    ensures |s.Held(u)| <= |GivenIn(s, t, m).Held(u)| && SavedOk(GivenIn(s, t, m), u, i)
  {
    assert s.Held(u)[i] in s.Held(u);
    assert GivenIn(s, t, m).Held(u)[..i] == s.Held(u)[..i];
  }

  /** The owner gives a mutex up, and its priority is put back. */
  function TakenIn(s: State, t: Thread, m: Id): State {
    var x := s.Mutex(m);
    Pop(s.(mutexes := s.mutexes[m := x.(owner := None)],
           prio := if x.ceiling.Some? then Restored(s.prio, t, x.ownerParams) else s.prio), t, m)
  }

  lemma TakenOwners(s: State, t: Thread, m: Id)
    requires OwnersOk(s) && s.Mutex(m).owner == Some(t)
    ensures OwnersOk(TakenIn(s, t, m))
  {
    var s' := TakenIn(s, t, m);
    assert NoDuplicates(s.Held(t));
    WithoutIs(s.Held(t), m);
    forall u: Thread, k: Id ensures k in s'.Held(u) <==> s'.Mutex(k).owner == Some(u) {
      assert k in s.Held(u) <==> s.Mutex(k).owner == Some(u);
    }
    forall u: Thread ensures NoDuplicates(s'.Held(u)) {
      assert NoDuplicates(s.Held(u));
    }
  }

  /** Where a mutex was among those its owner holds, and what is left without it. */
  lemma TakenHeld(s: State, t: Thread, i: nat)
    requires OwnersOk(s) && i < |s.Held(t)|
    ensures TakenIn(s, t, s.Held(t)[i]).Held(t) == s.Held(t)[..i] + s.Held(t)[i + 1..]
  {
    assert NoDuplicates(s.Held(t));
    WithoutAt(s.Held(t), i);
  }

  lemma TakenPrio(s: State, t: Thread, i: nat)
    requires ThreadOk(s, t) && i < |s.Held(t)| && s.Held(t)[i] in s.ceilings
    requires s.Mutex(s.Held(t)[i]).ceiling.Some?
    ensures TakenIn(s, t, s.Held(t)[i]).Prio(t) == Effective(s.ceilings, s.Base(t), s.Held(t)[..i])
  {
    assert SavedOk(s, t, i);
  }

  /** Taking out the i-th mutex leaves the saved priorities right if it raised nothing or no ceiling came after it. */
  lemma TakenSaved(s: State, t: Thread, i: nat, j: nat)
    requires OwnersOk(s) && ThreadOk(s, t) && i < |s.Held(t)| && j < |s.Held(t)| - 1
    requires Droppable(s, t, i)
    ensures |TakenIn(s, t, s.Held(t)[i]).Held(t)| == |s.Held(t)| - 1 && SavedOk(TakenIn(s, t, s.Held(t)[i]), t, j)
  {
    TakenHeld(s, t, i);
    var held, m := s.Held(t), s.Held(t)[i];
    var held' := TakenIn(s, t, m).Held(t);
    if j < i {
      assert SavedOk(s, t, j) && held'[j] == held[j] && held'[..j] == held[..j];
      assert NoDuplicates(held);
    } else if held[j + 1] in s.ceilings {
      assert NoDuplicates(held);
      TakenLater(s, t, i, j);
    }
  }

  lemma TakenLater(s: State, t: Thread, i: nat, j: nat)
    requires ThreadOk(s, t) && i <= j < |s.Held(t)| - 1
    requires s.Held(t)[j + 1] in s.ceilings && s.Held(t)[j + 1] != s.Held(t)[i]
    requires Droppable(s, t, i) && TakenIn(s, t, s.Held(t)[i]).Held(t) == s.Held(t)[..i] + s.Held(t)[i + 1..]
    ensures SavedOk(TakenIn(s, t, s.Held(t)[i]), t, j)
  {
    var held := s.Held(t);
    var s' := TakenIn(s, t, held[i]);
    assert SavedOk(s, t, j + 1);
    assert s'.Held(t)[j] == held[j + 1] && s'.Mutex(held[j + 1]) == s.Mutex(held[j + 1]);
    EffectiveDropped(s.ceilings, s.Base(t), held, i, j + 1);
  }

  lemma TakenEffective(s: State, t: Thread, i: nat)
    requires OwnersOk(s) && ThreadOk(s, t) && i < |s.Held(t)| && Droppable(s, t, i)
    requires s.Mutex(s.Held(t)[i]).ceiling == CeilingOf(s.ceilings, s.Held(t)[i])
    ensures var s' := TakenIn(s, t, s.Held(t)[i]); s'.Prio(t) == Effective(s.ceilings, s.Base(t), s'.Held(t))
  {
    TakenHeld(s, t, i);
    EffectiveWithout(s.ceilings, s.Base(t), s.Held(t), i);
    if s.Held(t)[i] in s.ceilings {
      TakenPrio(s, t, i);
    }
  }

  /** The owner is back at its effective priority, with all other saved priorities still right. */
  lemma TakenSelf(s: State, t: Thread, i: nat)
    requires OwnersOk(s) && ThreadOk(s, t) && i < |s.Held(t)| && Droppable(s, t, i)
    requires s.Mutex(s.Held(t)[i]).ceiling == CeilingOf(s.ceilings, s.Held(t)[i])
    ensures ThreadOk(TakenIn(s, t, s.Held(t)[i]), t)
  {
    TakenEffective(s, t, i);
    TakenHeld(s, t, i);
    forall j: nat | j < |s.Held(t)| - 1 ensures SavedOk(TakenIn(s, t, s.Held(t)[i]), t, j) {
      TakenSaved(s, t, i, j);
    }
  }

  lemma TakenOther(s: State, t: Thread, m: Id, u: Thread)
    requires OwnersOk(s) && s.Mutex(m).owner == Some(t) && ThreadOk(s, u) && u != t
    ensures ThreadOk(TakenIn(s, t, m), u)
  {
    var s' := TakenIn(s, t, m);
    forall i: nat | i < |s'.Held(u)| ensures SavedOk(s', u, i) {
      assert SavedOk(s, u, i) && s.Held(u)[i] in s.Held(u);
    }
  }

  // Every operation keeps the invariant

  /** Changing waiters or the recursion counter of a mutex touches neither owners nor priorities. */
  lemma SameOwners(s: State, s': State, m: Id)
    requires OwnersOk(s)
    requires s' == s.(mutexes := s.mutexes[m := s'.Mutex(m)]) && s'.Mutex(m).owner == s.Mutex(m).owner
    ensures OwnersOk(s')
  {
    forall u: Thread, k: Id ensures k in s'.Held(u) <==> s'.Mutex(k).owner == Some(u) {
      assert k in s.Held(u) <==> s.Mutex(k).owner == Some(u);
    }
    assert forall u: Thread :: s'.Held(u) == s.Held(u) && NoDuplicates(s.Held(u));
  }

  lemma SameThread(s: State, s': State, m: Id, u: Thread)
    requires ThreadOk(s, u)
    requires s' == s.(mutexes := s.mutexes[m := s'.Mutex(m)])
    requires s'.Mutex(m).ownerParams == s.Mutex(m).ownerParams
    ensures ThreadOk(s', u)
  {
    forall i: nat | i < |s'.Held(u)| ensures SavedOk(s', u, i) {
      assert SavedOk(s, u, i);
    }
  }

  lemma SameInv(s: State, s': State, m: Id)
    requires Inv(s) && s' == s.(mutexes := s.mutexes[m := s'.Mutex(m)])
    requires s'.Mutex(m).owner == s.Mutex(m).owner && s'.Mutex(m).ownerParams == s.Mutex(m).ownerParams
    requires s'.Mutex(m).owner.None? ==> s'.Mutex(m).recursive == 0
    requires s'.Mutex(m).ceiling == s.Mutex(m).ceiling && NoDuplicates(s'.Mutex(m).waiters)
    requires s'.Mutex(m).waiters != [] ==> s'.Mutex(m).owner.Some? && s'.Mutex(m).owner.value !in s'.Mutex(m).waiters
    ensures Inv(s')
  {
    SameOwners(s, s', m);
    assert WaitersOk(s') by {
      assert forall k: Id :: s'.Mutex(k) == if k == m then s'.Mutex(m) else s.Mutex(k);
    }
    forall u: Thread ensures ThreadOk(s', u) {
      assert ThreadOk(s, u);
      SameThread(s, s', m, u);
    }
  }

  lemma AcquireInv(s: State, t: Thread, m: Id, wait: bool)
    requires Inv(s) && Runs(s, t)
    ensures Inv(Next(s, Acquire(t, m, wait)))
  {
    var s' := Next(s, Acquire(t, m, wait));
    assert t !in s.Mutex(m).waiters;
    if s.Mutex(m).owner.None? {
      assert s' == GivenIn(s, t, m);
      GivenOwners(s, t, m);
      GivenWaiters(s, t, m);
      forall u: Thread ensures ThreadOk(s', u) {
        assert ThreadOk(s, u);
        GivenThread(s, t, m, u);
      }
    } else {
      SameInv(s, s', m);
    }
  }

  lemma CancelInv(s: State, t: Thread, m: Id)
    requires Inv(s) && t in s.Mutex(m).waiters
    ensures Inv(Next(s, Cancel(t, m)))
  {
    WithoutIs(s.Mutex(m).waiters, t);
    SameInv(s, Next(s, Cancel(t, m)), m);
  }

  function Unqueued(s: State, m: Id, w: Thread): State {
    s.(mutexes := s.mutexes[m := s.Mutex(m).(waiters := Without(s.Mutex(m).waiters, w))])
  }

  /** A hand-off is: the owner gives the mutex up, the waiter leaves the queue, and it is given the mutex. */
  lemma HandOffInSteps(s: State, t: Thread, m: Id, policy: Policy)
    requires s.Mutex(m).owner == Some(t) && s.Mutex(m).recursive == 0 && s.Mutex(m).waiters != []
    requires t !in s.Mutex(m).waiters
    ensures var w := NextOwner(s.Mutex(m), s.prio, policy);
            w in s.Mutex(m).waiters &&
            Next(s, Release(t, m, policy)) == GivenIn(Unqueued(TakenIn(s, t, m), m, w), w, m)
  {
    var x := s.Mutex(m);
    var w := NextOwner(x, s.prio, policy);
    var s' := Next(s, Release(t, m, policy));
    var g := GivenIn(Unqueued(TakenIn(s, t, m), m, w), w, m);
    assert w != t;
    assert s'.prio == g.prio;
    assert s'.mutexes == g.mutexes;
    assert s'.held == g.held;
  }

  lemma TakenThreads(s: State, t: Thread, i: nat)
    requires Inv(s) && i < |s.Held(t)| && Droppable(s, t, i)
    ensures var taken := TakenIn(s, t, s.Held(t)[i]);
            OwnersOk(taken) && forall u: Thread {:trigger ThreadOk(taken, u)} :: ThreadOk(taken, u)
  {
    var m := s.Held(t)[i];
    assert m in s.Held(t);
    TakenOwners(s, t, m);
    assert s.Mutex(m).ceiling == CeilingOf(s.ceilings, m);
    forall u: Thread ensures ThreadOk(TakenIn(s, t, m), u) {
      assert ThreadOk(s, u);
      if u == t {
        TakenSelf(s, t, i);
      } else {
        TakenOther(s, t, m, u);
      }
    }
  }

  lemma ReleaseFullyInv(s: State, t: Thread, policy: Policy, i: nat)
    requires Inv(s) && Runs(s, t) && i < |s.Held(t)| && Droppable(s, t, i)
    requires s.Mutex(s.Held(t)[i]).recursive == 0
    ensures Inv(Next(s, Release(t, s.Held(t)[i], policy)))
  {
    var m := s.Held(t)[i];
    assert m in s.Held(t);
    assert t !in s.Mutex(m).waiters;
    var s' := Next(s, Release(t, m, policy));
    var taken := TakenIn(s, t, m);
    TakenThreads(s, t, i);
    if s.Mutex(m).waiters == [] {
      assert s' == taken;
      assert WaitersOk(s') by {
        assert forall k: Id :: k != m ==> s'.Mutex(k) == s.Mutex(k);
      }
    } else {
      var w := NextOwner(s.Mutex(m), s.prio, policy);
      HandOffInSteps(s, t, m, policy);
      HandOffInv(s, taken, m, w);
    }
  }

  lemma HandOffInv(s: State, taken: State, m: Id, w: Thread)
    requires WaitersOk(s) && OwnersOk(taken) && forall u: Thread {:trigger ThreadOk(taken, u)} :: ThreadOk(taken, u)
    requires taken.Mutex(m) == s.Mutex(m).(owner := None) && taken.ceilings == s.ceilings
    requires forall k: Id | k != m :: taken.Mutex(k) == s.Mutex(k)
    requires w in s.Mutex(m).waiters
    ensures Inv(GivenIn(Unqueued(taken, m, w), w, m))
  {
    var unq := Unqueued(taken, m, w);
    SameOwners(taken, unq, m);
    GivenOwners(unq, w, m);
    var s' := GivenIn(unq, w, m);
    assert WaitersOk(s') by {
      WithoutIs(s.Mutex(m).waiters, w);
      assert forall k: Id :: k != m ==> s'.Mutex(k) == s.Mutex(k);
    }
    forall u: Thread ensures ThreadOk(s', u) {
      assert ThreadOk(taken, u);
      SameThread(taken, unq, m, u);
      GivenThread(unq, w, m, u);
    }
  }

  lemma NextInv(s: State, op: Op)
    requires Inv(s) && Enabled(s, op)
    ensures Inv(Next(s, op))
  {
    match op
    case Acquire(t, m, wait) => AcquireInv(s, t, m, wait);
    case Release(t, m, policy) =>
      if s.Mutex(m).owner == Some(t) && s.Mutex(m).recursive == 0 {
        assert m in s.Held(t);
        var i: nat :| i < |s.Held(t)| && s.Held(t)[i] == m;
        assert Droppable(s, t, i);
        ReleaseFullyInv(s, t, policy, i);
      } else {
        SameInv(s, Next(s, op), m);
      }
    case Cancel(t, m) => CancelInv(s, t, m);
  }

  /** A thread that gives up waiting leaves the queue, and nothing else happens. */
  lemma CancelledIs(s: State, t: Thread, m: Id)
    requires Inv(s) && t in s.Mutex(m).waiters
    ensures var s' := Next(s, Cancel(t, m));
            && t !in s'.Mutex(m).waiters && s'.prio == s.prio && s'.held == s.held
            && s'.Mutex(m) == s.Mutex(m).(waiters := s'.Mutex(m).waiters)
            && (forall u | u != t :: u in s'.Mutex(m).waiters <==> u in s.Mutex(m).waiters)
            && forall k | k != m :: s'.Mutex(k) == s.Mutex(k)
  {
    assert s.Mutex(m) == s.Mutex(m);
    WithoutIs(s.Mutex(m).waiters, t);
  }

  // Runs

  ghost predicate IsRun(states: seq<State>, ops: seq<Op>) {
    && |states| == |ops| + 1
    && states[0].mutexes == map[] && states[0].held == map[] && states[0].prio == states[0].base
    && forall k {:trigger ops[k]} | 0 <= k < |ops| ::
         Enabled(states[k], ops[k]) && states[k + 1] == Next(states[k], ops[k])
  }

  lemma {:induction false} RunInv(states: seq<State>, ops: seq<Op>, k: nat)
    requires IsRun(states, ops) && k < |states|
    ensures Inv(states[k])
  {
    if k == 0 {
      forall t: Thread ensures ThreadOk(states[0], t) {}
    } else {
      RunInv(states, ops, k - 1);
      NextInv(states[k - 1], ops[k - 1]);
    }
  }

  /**
   In every state of every run a thread's priority is the highest of its base and the ceilings of what it owns, so it
   is back at its base once it owns nothing; and a mutex nobody owns has no waiters.
   */
  lemma PriorityIsEffective(states: seq<State>, ops: seq<Op>, k: nat, t: Thread, m: Id)
    requires IsRun(states, ops) && k < |states|
    ensures var s := states[k];
            && s.Prio(t) == Effective(s.ceilings, s.Base(t), s.Held(t))
            && (m in s.Held(t) <==> s.Mutex(m).owner == Some(t))
            && ((forall x :: s.Mutex(x).owner != Some(t)) ==> s.Prio(t) == s.Base(t))
            && (s.Mutex(m).owner.None? ==> s.Mutex(m).waiters == [])
  {
    RunInv(states, ops, k);
    var s := states[k];
    assert ThreadOk(s, t);
    if s.Held(t) != [] {
      assert s.Held(t)[0] in s.Held(t);
    }
  }

  lemma GivenElsewhere(s: State, m: Id, w: Thread, t: Thread)
    requires w != t
    ensures var s' := GivenIn(Unqueued(s, m, w), w, m);
            s'.Prio(t) == s.Prio(t) && s'.Held(t) == s.Held(t)
  {
  }

  /** To the thread that releases, it makes no difference whether the mutex is handed over. */
  lemma ReleaseSelf(s: State, t: Thread, m: Id, policy: Policy)
    requires Runs(s, t) && s.Mutex(m).owner == Some(t) && s.Mutex(m).recursive == 0
    ensures var s' := Next(s, Release(t, m, policy));
            s'.Prio(t) == TakenIn(s, t, m).Prio(t) && s'.Held(t) == TakenIn(s, t, m).Held(t)
  {
    assert t !in s.Mutex(m).waiters;
    if s.Mutex(m).waiters == [] {
      assert Next(s, Release(t, m, policy)) == TakenIn(s, t, m);
    } else {
      HandOffInSteps(s, t, m, policy);
      GivenElsewhere(TakenIn(s, t, m), m, NextOwner(s.Mutex(m), s.prio, policy), t);
    }
  }

  /** Dropping the i-th ceiling leaves the right priority at once just when no ceiling taken later is higher. */
  lemma RightAtOnce(s: State, t: Thread, policy: Policy, i: nat)
    requires Inv(s) && Runs(s, t) && i < |s.Held(t)| && s.Held(t)[i] in s.ceilings
    requires s.Mutex(s.Held(t)[i]).recursive == 0
    ensures var s' := Next(s, Release(t, s.Held(t)[i], policy));
            var saved := Effective(s.ceilings, s.Base(t), s.Held(t)[..i]);
            && s'.Held(t) == s.Held(t)[..i] + s.Held(t)[i + 1..]
            && (s'.Prio(t) == Effective(s.ceilings, s.Base(t), s'.Held(t)) <==>
                forall j | i < j < |s.Held(t)| && s.Held(t)[j] in s.ceilings :: saved <= s.ceilings[s.Held(t)[j]])
  {
    var held, m := s.Held(t), s.Held(t)[i];
    assert m in held && ThreadOk(s, t);
    ReleaseSelf(s, t, m, policy);
    TakenHeld(s, t, i);
    TakenPrio(s, t, i);
    EffectiveWithout(s.ceilings, s.Base(t), held, i);
  }

  /** If the next ceiling after the i-th keeps the right saved priority, the i-th raised nothing. */
  lemma StillSaved(s: State, t: Thread, policy: Policy, i: nat, j: nat)
    requires Inv(s) && i < j < |s.Held(t)| && s.Held(t)[i] in s.ceilings && s.Held(t)[j] in s.ceilings
    requires forall k | i < k < j :: s.Held(t)[k] !in s.ceilings
    requires var s' := Next(s, Release(t, s.Held(t)[i], policy));
             s'.Held(t) == s.Held(t)[..i] + s.Held(t)[i + 1..] && SavedOk(s', t, j - 1)
    ensures Effective(s.ceilings, s.Base(t), s.Held(t)[..i]) <= s.ceilings[s.Held(t)[i]]
  {
    var held, m := s.Held(t), s.Held(t)[i];
    var s' := Next(s, Release(t, m, policy));
    assert ThreadOk(s, t) && SavedOk(s, t, j) && NoDuplicates(held);
    assert s'.Held(t)[j - 1] == held[j] && s'.Mutex(held[j]) == s.Mutex(held[j]);
    EffectiveNext(s.ceilings, s.Base(t), held, i, j);
  }

  /** The nearest ceiling taken after the i-th mutex. */
  lemma FirstLater(s: State, t: Thread, i: nat) returns (j: nat)
    requires i < |s.Held(t)| && !LastIn(s, t, i)
    ensures i < j < |s.Held(t)| && s.Held(t)[j] in s.ceilings && forall k | i < k < j :: s.Held(t)[k] !in s.ceilings
  {
    j := i + 1;
    while s.Held(t)[j] !in s.ceilings
      invariant i < j < |s.Held(t)| && forall k | i < k < j :: s.Held(t)[k] !in s.ceilings
      decreases |s.Held(t)| - j
    {
      assert exists k :: j < k < |s.Held(t)| && s.Held(t)[k] in s.ceilings;
      j := j + 1;
    }
  }

  /** Which releases keep every thread at its effective priority, now and when it drops the ceilings it still has. */
  lemma OutOfOrderExact(s: State, t: Thread, policy: Policy, i: nat)
    requires Inv(s) && Runs(s, t) && i < |s.Held(t)| && s.Mutex(s.Held(t)[i]).recursive == 0
    ensures Inv(Next(s, Release(t, s.Held(t)[i], policy))) <==> Droppable(s, t, i)
  {
    var m := s.Held(t)[i];
    var s' := Next(s, Release(t, m, policy));
    if Droppable(s, t, i) {
      ReleaseFullyInv(s, t, policy, i);
    } else if Inv(s') {
      RightAtOnce(s, t, policy, i);
      assert ThreadOk(s', t);
      var j := FirstLater(s, t, i);
      assert SavedOk(s', t, j - 1);
      StillSaved(s, t, policy, i, j);
      assert false;
    }
  }

  /** A saved priority that is not right shows as soon as its mutex is the last that is released. */
  lemma StaleShows(s: State, t: Thread, m: Id, policy: Policy)
    requires OwnersOk(s) && WaitersOk(s) && Runs(s, t) && m in s.ceilings && s.Mutex(m).recursive == 0
    requires s.Held(t) != [] && s.Held(t)[|s.Held(t)| - 1] == m
    ensures var s' := Next(s, Release(t, m, policy));
            && s'.Prio(t) == s.Mutex(m).ownerParams && s'.Held(t) == s.Held(t)[..|s.Held(t)| - 1]
            && (s'.Prio(t) == Effective(s.ceilings, s.Base(t), s'.Held(t)) <==> SavedOk(s, t, |s.Held(t)| - 1))
  {
    assert m in s.Held(t);
    ReleaseSelf(s, t, m, policy);
    TakenHeld(s, t, |s.Held(t)| - 1);
  }

  /** Thread 1 of priority 10 takes mutexes with the ceilings 2, 1 and 5. */
  function ThreeTaken(): State {
    var s := State(map[], map[1 := 10], map[20 := 2, 21 := 1, 22 := 5], map[1 := 10], map[]);
    Next(Next(Next(s, Acquire(1, 20, true)), Acquire(1, 21, true)), Acquire(1, 22, true))
  }

  lemma ThreeTakenIs()
    ensures var s := ThreeTaken();
            && s.Held(1) == [20, 21, 22] && s.Prio(1) == 1 && s.Base(1) == 10
            && s.ceilings == map[20 := 2, 21 := 1, 22 := 5]
            && s.Mutex(20) == MutexState(Some(1), 0, Some(2), 10, [])
            && s.Mutex(21) == MutexState(Some(1), 0, Some(1), 2, [])
            && s.Mutex(22) == MutexState(Some(1), 0, Some(5), 1, [])
  {
  }

  lemma TakeFree(s: State, t: Thread, m: Id)
    requires Inv(s) && Runs(s, t) && s.Mutex(m).owner.None?
    ensures var s' := Next(s, Acquire(t, m, true));
            && Inv(s') && Runs(s', t) && s'.Mutex(m).owner == Some(t)
            && forall k | k != m :: s'.Mutex(k) == s.Mutex(k)
  {
    AcquireInv(s, t, m, true);
    var s' := Next(s, Acquire(t, m, true));
    assert forall k :: s'.Mutex(k).waiters == s.Mutex(k).waiters;
  }

  lemma ThreeTakenInv()
    ensures Inv(ThreeTaken()) && Runs(ThreeTaken(), 1)
  {
    var s := State(map[], map[1 := 10], map[20 := 2, 21 := 1, 22 := 5], map[1 := 10], map[]);
    forall t: Thread ensures ThreadOk(s, t) {}
    TakeFree(s, 1, 20);
    var s1 := Next(s, Acquire(1, 20, true));
    assert s1.Mutex(21) == s.Mutex(21) && s1.Mutex(22) == s.Mutex(22);
    TakeFree(s1, 1, 21);
    TakeFree(Next(s1, Acquire(1, 21, true)), 1, 22);
  }

  lemma MiddleDropped(s: State)
    requires s.Held(1) == [20, 21, 22] && s.Prio(1) == 1 && Runs(s, 1)
    requires s.Mutex(21) == MutexState(Some(1), 0, Some(1), 2, [])
    ensures var s' := Next(s, Release(1, 21, Fifo));
            && s'.Held(1) == [20, 22] && s'.Prio(1) == 2 && Runs(s', 1)
            && s'.base == s.base && s'.ceilings == s.ceilings && s'.Mutex(22) == s.Mutex(22)
  {
    var s' := Next(s, Release(1, 21, Fifo));
    assert s'.prio == s.prio[1 := 2];
    WithoutAt(s.Held(1), 1);
    assert [20, 21, 22][..1] + [20, 21, 22][2..] == [20, 22];
    assert forall k :: s'.Mutex(k).waiters == s.Mutex(k).waiters;
  }

  lemma EffectiveTwo(ceilings: map<Id, nat>, base: nat)
    requires ceilings == map[20 := 2, 21 := 1, 22 := 5] && base == 10
    ensures Effective(ceilings, base, [20]) == 2 == Effective(ceilings, base, [20, 22])
  {
    EffectiveSnoc(ceilings, base, [], 20);
    EffectiveSnoc(ceilings, base, [20], 22);
    assert [] + [20] == [20] && [20] + [22] == [20, 22];
  }

  /**
   Out of order it can fail later: thread 1 drops the middle ceiling, has the right priority, then drops the last one,
   and keeps the priority of the ceiling it dropped first.
   */
  lemma OutOfOrderBreaks()
    ensures Inv(ThreeTaken()) && Runs(ThreeTaken(), 1)
    ensures var s := Next(ThreeTaken(), Release(1, 21, Fifo));
            && s.Held(1) == [20, 22] && s.Prio(1) == 2 == Effective(s.ceilings, s.Base(1), s.Held(1))
            && Runs(s, 1) && LastIn(s, 1, 1)
            && var s' := Next(s, Release(1, 22, Fifo));
               s'.Held(1) == [20] && s'.Prio(1) == 1 && Effective(s'.ceilings, s'.Base(1), s'.Held(1)) == 2
  {
    ThreeTakenInv();
    ThreeTakenIs();
    MiddleDropped(ThreeTaken());
    EffectiveTwo(ThreeTaken().ceilings, 10);
    var s := Next(ThreeTaken(), Release(1, 21, Fifo));
    WithoutSnoc([20], 22, 22);
    assert [20] + [22] == [20, 22];
  }

  lemma GivenTaken(s: State, t: Thread, m: Id)
    requires s.Mutex(m).owner.None? && s.Mutex(m).recursive == 0 && s.Mutex(m).waiters == []
    ensures var s' := TakenIn(GivenIn(s, t, m), t, m);
            && s'.Prio(t) == s.Prio(t) && (forall u :: u != t ==> s'.Prio(u) == s.Prio(u))
            && s'.Mutex(m) == s.Mutex(m).(ownerParams := s'.Mutex(m).ownerParams)
            && (forall k | k != m :: s'.Mutex(k) == s.Mutex(k))
            && s'.Held(t) == s.Held(t)
  {
    WithoutSnoc(s.Held(t), m, m);
    var g := GivenIn(s, t, m);
    assert g.Mutex(m).owner == Some(t) && g.Held(t) == s.Held(t) + [m];
    assert g.Mutex(m).ceiling.Some? ==> g.Mutex(m).ownerParams == s.Prio(t);
  }

  /** Releasing what was just acquired undoes it, but for the saved priority that no longer matters. */
  lemma AcquireReleaseRoundTrip(s: State, t: Thread, m: Id, wait: bool, policy: Policy)
    requires Inv(s) && (s.Mutex(m).owner.None? || s.Mutex(m).owner == Some(t))
    ensures var s' := Next(Next(s, Acquire(t, m, wait)), Release(t, m, policy));
            && s'.Prio(t) == s.Prio(t) && (forall u :: u != t ==> s'.Prio(u) == s.Prio(u))
            && s'.Mutex(m) == s.Mutex(m).(ownerParams := s'.Mutex(m).ownerParams)
            && (forall k | k != m :: s'.Mutex(k) == s.Mutex(k))
            && s'.Held(t) == s.Held(t)
  {
    var s1 := Next(s, Acquire(t, m, wait));
    if s.Mutex(m).owner.None? {
      GivenTaken(s, t, m);
      assert s1 == GivenIn(s, t, m);
      assert Next(s1, Release(t, m, policy)) == TakenIn(s1, t, m);
    } else {
      assert s1.Mutex(m) == s.Mutex(m).(recursive := s.Mutex(m).recursive + 1) && s1.prio == s.prio;
    }
  }

  // The objects

  class Threads {
    var prio: map<Thread, nat>

    constructor (prio: map<Thread, nat>)
      ensures this.prio == prio
    {
      this.prio := prio;
    }
  }

  class MutexObj {
    var owner: Option<Thread>
    var recursiveLocks: nat
    const ceiling: Option<nat>
    var ownerParams: nat
    var waiters: seq<Thread>

    ghost function View(): MutexState
      reads this
    {
      MutexState(owner, recursiveLocks, ceiling, ownerParams, waiters)
    }

    constructor (ceiling: Option<nat>)
      ensures owner == None && recursiveLocks == 0 && waiters == [] && this.ceiling == ceiling
    {
      this.ceiling := ceiling;
      owner, recursiveLocks, waiters := None, 0, [];
    }

    method TestAndWait(me: Thread, wait: bool, threads: Threads) returns (acquired: bool)
      modifies this, threads
      ensures (View(), threads.prio, acquired) == Acquired(old(View()), old(threads.prio), me, wait)
    {
      acquired := true;
      var applyCeiling := false;
      if owner.None? {
        owner := Some(me);
        if ceiling.Some? {
          applyCeiling := true;
        }
      } else if owner == Some(me) {
        recursiveLocks := recursiveLocks + 1;
      } else {
        if wait {
          waiters := waiters + [me];
        }
        acquired := false;
      }
      if applyCeiling {
        ownerParams := PrioOf(threads.prio, me);
        if ceiling.value < PrioOf(threads.prio, me) {
          threads.prio := threads.prio[me := ceiling.value];
        }
      }
    }

    method Give(t: Thread, threads: Threads)
      modifies this`owner, this`ownerParams, threads
      ensures (View(), threads.prio) == Given(old(View()), old(threads.prio), t)
    {
      owner := Some(t);
      if ceiling.Some? {
        ownerParams := PrioOf(threads.prio, t);
        if ceiling.value < PrioOf(threads.prio, t) {
          threads.prio := threads.prio[t := ceiling.value];
        }
      }
    }

    /** The next waiter, if there is one, becomes the owner. */
    method HandOver(policy: Policy, threads: Threads)
      modifies this, threads
      ensures (View(), threads.prio) == HandedOver(old(View()), old(threads.prio), policy)
    {
      if waiters != [] {
        var k := WaitBlockGet(waiters, policy, PrioFn(threads.prio));
        var waiter := waiters[k];
        Give(waiter, threads);
        waiters := Without(waiters, waiter);
      } else {
        owner := None;
      }
    }

    method ReleaseWithPolicy(me: Thread, policy: Policy, threads: Threads) returns (result: ReleaseResult)
      modifies this, threads
      ensures (View(), threads.prio, result) == ReleasedBy(old(View()), old(threads.prio), me, policy)
    {
      if owner != Some(me) {
        return WrongOwner;
      }
      result := Ok;
      if recursiveLocks == 0 {
        var saved := ownerParams;
        HandOver(policy, threads);
        if ceiling.Some? {
          if saved != PrioOf(threads.prio, me) {
            threads.prio := threads.prio[me := saved];
          }
        }
      } else {
        recursiveLocks := recursiveLocks - 1;
      }
    }
  }
}
