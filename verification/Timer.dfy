/**
 Timers in a list sorted by deadline, with a 32-bit tick counter that wraps around. `State` has the unbounded time and
 deadlines; the class works on the wrapped words and compares them as the code does.
 */
module Timer {
  import opened Bits

  const WORD: nat := 0x1_0000_0000
  const HALF: int := 0x8000_0000
  const MAX_RELATIVE_TIMEOUT: nat := 0x7FFF_FFFF

  type Id = nat

  // Wrapping comparison

  function Wrapped(t: nat): Word {
    t % 0x1_0000_0000
  }

  /** A difference of two words read as a two's-complement number. */
  function Signed(d: int): int {
    var w := d % 0x1_0000_0000;
    if w < HALF then w else w - WORD
  }

  predicate After(a: Word, b: Word) {
    Signed(b - a) < 0
  }

  predicate AfterOrEq(a: Word, b: Word) {
    Signed(b - a) <= 0
  }

  lemma SignedIs(a: nat, b: nat)
    requires -HALF <= b - a < HALF
    ensures Signed(Wrapped(b) - Wrapped(a)) == b - a
  {
    var qa, qb := a / 0x1_0000_0000, b / 0x1_0000_0000;
    var d := b - a;
    assert Wrapped(b) - Wrapped(a) == d + WORD * (qa - qb);
    assert (d + WORD * (qa - qb)) % 0x1_0000_0000 == d % 0x1_0000_0000;
  }

  /** Within 2^31 ticks the comparison is right, except that it puts a time exactly 2^31 ahead in the past. */
  lemma CompareExact(a: nat, b: nat)
    requires -HALF <= b - a <= HALF
    ensures (After(Wrapped(a), Wrapped(b)) <==> a > b) <==> b - a != HALF
    ensures (AfterOrEq(Wrapped(a), Wrapped(b)) <==> a >= b) <==> b - a != HALF
  {
    if b - a != HALF {
      SignedIs(a, b);
    } else {
      assert Wrapped(b) == Wrapped(a) + HALF || Wrapped(b) == Wrapped(a) - HALF;
    }
  }

  /** All the way round: an earlier time is taken for a later one when it lies more than 2^31 ticks behind. */
  lemma CompareFar(a: nat, b: nat)
    requires 0 < a - b < WORD
    ensures After(Wrapped(a), Wrapped(b)) <==> a - b <= HALF
  {
    if a - b < HALF {
      CompareExact(a, b);
    } else {
      assert Wrapped(b) == Wrapped(a) - (a - b) || Wrapped(b) == Wrapped(a) - (a - b) + WORD;
    }
  }

  // The sorted list

  datatype Entry = Entry(id: Id, deadline: nat, period: nat)

  ghost predicate InOrder(list: seq<Entry>, i: int, j: int) {
    0 <= i < j < |list| ==> list[i].deadline <= list[j].deadline
  }

  ghost predicate Sorted(list: seq<Entry>) {
    forall i, j {:trigger InOrder(list, i, j)} :: InOrder(list, i, j)
  }

  ghost predicate Apart(list: seq<Entry>, i: int, j: int) {
    0 <= i < j < |list| ==> list[i].id != list[j].id
  }

  ghost predicate Distinct(list: seq<Entry>) {
    forall i, j {:trigger Apart(list, i, j)} :: Apart(list, i, j)
  }

  /** Behind everything that is not later. */
  function Position(list: seq<Entry>, deadline: nat): (i: nat)
    ensures i <= |list|
    ensures forall j | 0 <= j < i :: list[j].deadline <= deadline
    ensures i < |list| ==> list[i].deadline > deadline
  {
    if list == [] || list[0].deadline > deadline then 0 else 1 + Position(list[1..], deadline)
  }

  function Insert(list: seq<Entry>, e: Entry): seq<Entry> {
    var i := Position(list, e.deadline);
    list[..i] + [e] + list[i..]
  }

  function Without(list: seq<Entry>, id: Id): seq<Entry> {
    if list == [] then []
    else if list[0].id == id then list[1..]
    else [list[0]] + Without(list[1..], id)
  }

  lemma InsertMembers(list: seq<Entry>, e: Entry)
    ensures forall x :: x in Insert(list, e) <==> x == e || x in list
  {
    var i := Position(list, e.deadline);
    assert list == list[..i] + list[i..];
  }

  lemma InsertSorted(list: seq<Entry>, e: Entry)
    requires Sorted(list)
    ensures Sorted(Insert(list, e))
  {
    var p := Position(list, e.deadline);
    var r := Insert(list, e);
    forall i, j ensures InOrder(r, i, j) {
      assert InOrder(list, if i < p then i else i - 1, if j < p then j else j - 1);
      assert i >= p ==> InOrder(list, p, i - 1);
      assert j >= p ==> InOrder(list, p, j - 1);
    }
  }

  lemma InsertDistinct(list: seq<Entry>, e: Entry)
    requires Distinct(list) && forall k | 0 <= k < |list| :: list[k].id != e.id
    ensures Distinct(Insert(list, e))
  {
    var p := Position(list, e.deadline);
    var r := Insert(list, e);
    forall i, j ensures Apart(r, i, j) {
      assert Apart(list, if i < p then i else i - 1, if j < p then j else j - 1);
    }
  }

  lemma InsertIs(list: seq<Entry>, e: Entry)
    requires Sorted(list) && Distinct(list) && forall k | 0 <= k < |list| :: list[k].id != e.id
    ensures Sorted(Insert(list, e)) && Distinct(Insert(list, e))
    ensures forall x :: x in Insert(list, e) <==> x == e || x in list
  {
    InsertMembers(list, e);
    InsertSorted(list, e);
    InsertDistinct(list, e);
  }

  /** Dropping an element keeps order and distinctness. */
  lemma TailOk(list: seq<Entry>)
    requires Sorted(list) && Distinct(list) && list != []
    ensures Sorted(list[1..]) && Distinct(list[1..])
    ensures forall x :: x in list[1..] <==> x in list && x.id != list[0].id
  {
    var rest := list[1..];
    forall i, j ensures InOrder(rest, i, j) {
      assert InOrder(list, i + 1, j + 1);
    }
    forall i, j ensures Apart(rest, i, j) {
      assert Apart(list, i + 1, j + 1);
    }
    forall x ensures x in rest <==> x in list && x.id != list[0].id {
      if x in list {
        var k :| 0 <= k < |list| && list[k] == x;
        assert Apart(list, 0, k);
        assert k > 0 ==> rest[k - 1] == x;
      }
      if x in rest {
        var k :| 0 <= k < |rest| && rest[k] == x;
        assert Apart(list, 0, k + 1) && list[k + 1] == x;
      }
    }
  }

  lemma ConsOk(e: Entry, list: seq<Entry>)
    requires Sorted(list) && Distinct(list)
    requires forall x | x in list :: e.deadline <= x.deadline && x.id != e.id
    ensures Sorted([e] + list) && Distinct([e] + list)
  {
    var r := [e] + list;
    assert forall k | 0 <= k < |list| :: list[k] in list;
    forall i, j ensures InOrder(r, i, j) {
      assert InOrder(list, i - 1, j - 1);
    }
    forall i, j ensures Apart(r, i, j) {
      assert Apart(list, i - 1, j - 1);
    }
  }

  lemma HeadFirst(list: seq<Entry>, x: Entry)
    requires Sorted(list) && x in list
    ensures list[0].deadline <= x.deadline
  {
    var k :| 0 <= k < |list| && list[k] == x;
    assert InOrder(list, 0, k);
  }

  lemma {:induction false} WithoutIs(list: seq<Entry>, id: Id)
    requires Sorted(list) && Distinct(list)
    ensures Sorted(Without(list, id)) && Distinct(Without(list, id))
    ensures forall x :: x in Without(list, id) <==> x in list && x.id != id
  {
    if list != [] {
      TailOk(list);
      if list[0].id != id {
        WithoutIs(list[1..], id);
        forall x | x in Without(list[1..], id) ensures list[0].deadline <= x.deadline && x.id != list[0].id {
          HeadFirst(list, x);
        }
        ConsOk(list[0], Without(list[1..], id));
      }
    }
  }

  // Time

  datatype Firing = Firing(id: Id, time: nat)

  datatype State = State(now: nat, list: seq<Entry>, log: seq<Firing>)

  /** Ticks by which entries are overdue, and one more for each that is due. */
  function Lag(list: seq<Entry>, now: nat): nat {
    if list == [] then 0
    else (if list[0].deadline <= now then now + 1 - list[0].deadline else 0) + Lag(list[1..], now)
  }

  lemma {:induction false} LagAppend(a: seq<Entry>, b: seq<Entry>, now: nat)
    ensures Lag(a + b, now) == Lag(a, now) + Lag(b, now)
  {
    if a == [] {
      assert a + b == b;
    } else {
      assert (a + b)[1..] == a[1..] + b;
      LagAppend(a[1..], b, now);
    }
  }

  lemma LagInsert(list: seq<Entry>, e: Entry, now: nat)
    ensures Lag(Insert(list, e), now) == Lag(list, now) + Lag([e], now)
  {
    var i := Position(list, e.deadline);
    LagAppend(list[..i] + [e], list[i..], now);
    LagAppend(list[..i], [e], now);
    LagAppend(list[..i], list[i..], now);
    assert list[..i] + list[i..] == list;
  }

  function Requeued(list: seq<Entry>): seq<Entry>
    requires list != []
  {
    var e := list[0];
    if e.period > 0 then Insert(list[1..], e.(deadline := e.deadline + e.period)) else list[1..]
  }

  lemma LagRequeued(list: seq<Entry>, now: nat)
    requires list != [] && list[0].deadline <= now
    ensures Lag(Requeued(list), now) < Lag(list, now)
  {
    var e := list[0];
    if e.period > 0 {
      LagInsert(list[1..], e.(deadline := e.deadline + e.period), now);
    }
  }

  /** The loop of a tick: what is left in the list, and what fired. Overdue periodic timers catch up. */
  function Drained(list: seq<Entry>, now: nat): (seq<Entry>, seq<Firing>)
    decreases Lag(list, now)
  {
    if list == [] || list[0].deadline > now then (list, [])
    else
      LagRequeued(list, now);
      var (left, fired) := Drained(Requeued(list), now);
      (left, [Firing(list[0].id, now)] + fired)
  }

  function Ticked(s: State): State {
    var (left, fired) := Drained(s.list, s.now + 1);
    State(s.now + 1, left, s.log + fired)
  }

  function Armed(s: State, id: Id, deadline: nat, period: nat): State {
    s.(list := Insert(Without(s.list, id), Entry(id, deadline, period)))
  }

  function Cancelled(s: State, id: Id): State {
    s.(list := Without(s.list, id))
  }

  ghost predicate InWindow(e: Entry, low: int, high: int) {
    low <= e.deadline < high && e.period < MAX_RELATIVE_TIMEOUT
  }

  /** Close enough for the wrapped comparison. */
  ghost predicate Near(e: Entry, deadline: nat) {
    -HALF < e.deadline - deadline < HALF
  }

  ghost predicate Narrow(list: seq<Entry>) {
    forall x, y {:trigger Near(x, y.deadline)} | x in list && y in list :: Near(x, y.deadline)
  }

  ghost predicate ListOk(list: seq<Entry>, low: int, high: int) {
    Sorted(list) && Distinct(list) && Narrow(list) && forall e | e in list :: InWindow(e, low, high)
  }

  /** Between ticks deadlines are at most 0x7FFFFFFE ahead, and overdue by less than 2^31, until the next tick. */
  ghost predicate Inv(s: State) {
    ListOk(s.list, s.now + 1 - HALF, s.now + MAX_RELATIVE_TIMEOUT)
  }

  lemma RequeuedMembers(list: seq<Entry>)
    requires list != []
    ensures forall x :: x in Requeued(list) <==>
              x in list[1..] || (list[0].period > 0 && x == list[0].(deadline := list[0].deadline + list[0].period))
  {
    if list[0].period > 0 {
      InsertMembers(list[1..], list[0].(deadline := list[0].deadline + list[0].period));
    }
  }

  lemma RequeuedSorted(list: seq<Entry>)
    requires Sorted(list) && Distinct(list) && list != []
    ensures Sorted(Requeued(list)) && Distinct(Requeued(list))
  {
    TailOk(list);
    if list[0].period > 0 {
      assert forall k | 0 <= k < |list[1..]| :: list[1..][k] in list[1..];
      InsertSorted(list[1..], list[0].(deadline := list[0].deadline + list[0].period));
      InsertDistinct(list[1..], list[0].(deadline := list[0].deadline + list[0].period));
    }
  }

  lemma RequeuedNarrow(list: seq<Entry>)
    requires Sorted(list) && Narrow(list) && list != [] && list[0].period < MAX_RELATIVE_TIMEOUT
    ensures Narrow(Requeued(list))
  {
    RequeuedMembers(list);
    assert list[0] in list && forall x | x in list[1..] :: x in list;
    forall x, y | x in Requeued(list) && y in Requeued(list) ensures Near(x, y.deadline) {
      FromHead(list, x);
      FromHead(list, y);
    }
  }

  lemma FromHead(list: seq<Entry>, x: Entry)
    requires Sorted(list) && Narrow(list) && list != [] && list[0].period < MAX_RELATIVE_TIMEOUT
    requires x in Requeued(list)
    ensures 0 <= x.deadline - list[0].deadline < HALF
  {
    RequeuedMembers(list);
    assert list[0] in list;
    if x in list[1..] {
      HeadFirst(list, x);
      assert Near(x, list[0].deadline);
    }
  }

  lemma RequeuedOk(list: seq<Entry>, now: nat)
    requires ListOk(list, now - HALF, now + MAX_RELATIVE_TIMEOUT) && list != [] && list[0].deadline <= now
    ensures ListOk(Requeued(list), now - HALF, now + MAX_RELATIVE_TIMEOUT)
    ensures forall x :: x in Requeued(list) ==>
              x in list[1..] || (list[0].period > 0 && x == list[0].(deadline := list[0].deadline + list[0].period))
    ensures forall x :: x in list[1..] ==> x in Requeued(list)
  {
    assert list[0] in list && forall x | x in list[1..] :: x in list;
    RequeuedSorted(list);
    RequeuedNarrow(list);
    RequeuedMembers(list);
  }

  /** A tick ends with nothing due, and the list as it should be. */
  lemma {:induction false} DrainedOk(list: seq<Entry>, now: nat)
    requires ListOk(list, now - HALF, now + MAX_RELATIVE_TIMEOUT) && 0 < now
    ensures ListOk(Drained(list, now).0, now + 1, now + MAX_RELATIVE_TIMEOUT)
    ensures forall f | f in Drained(list, now).1 :: f.time == now
    decreases Lag(list, now)
  {
    if list != [] && list[0].deadline <= now {
      RequeuedOk(list, now);
      LagRequeued(list, now);
      DrainedOk(Requeued(list), now);
    } else {
      forall e | e in list ensures e.deadline > now {
        HeadFirst(list, e);
      }
    }
  }

  // Every operation keeps the list

  /** The deadline is in range and near to all others. */
  ghost predicate Armable(s: State, id: Id, deadline: nat, period: nat) {
    && InWindow(Entry(id, deadline, period), s.now + 1 - HALF, s.now + MAX_RELATIVE_TIMEOUT)
    && forall e | e in s.list && e.id != id :: Near(e, deadline)
  }

  /** A deadline that is at most one tick overdue is near to all others that are. */
  lemma ArmableInTime(s: State, id: Id, deadline: nat, period: nat)
    requires Inv(s) && (forall e | e in s.list :: s.now - 1 <= e.deadline) && s.now - 1 <= deadline
    requires deadline < s.now + MAX_RELATIVE_TIMEOUT && period < MAX_RELATIVE_TIMEOUT
    ensures Armable(s, id, deadline, period)
  {
    forall e | e in s.list && e.id != id ensures Near(e, deadline) {
      assert InWindow(e, s.now + 1 - HALF, s.now + MAX_RELATIVE_TIMEOUT);
    }
  }

  lemma ArmedInv(s: State, id: Id, deadline: nat, period: nat)
    requires Inv(s) && Armable(s, id, deadline, period)
    ensures Inv(Armed(s, id, deadline, period))
  {
    WithoutIs(s.list, id);
    var w, e := Without(s.list, id), Entry(id, deadline, period);
    assert forall k | 0 <= k < |w| :: w[k] in w;
    InsertIs(w, e);
    forall x, y | x in Insert(w, e) && y in Insert(w, e) ensures Near(x, y.deadline) {
      assert x in s.list && x.id != id ==> Near(x, deadline);
      assert y in s.list && y.id != id ==> Near(y, deadline);
    }
  }

  lemma CancelledInv(s: State, id: Id)
    requires Inv(s)
    ensures Inv(Cancelled(s, id))
  {
    WithoutIs(s.list, id);
  }

  /** What a tick finds in its list. */
  lemma TickList(s: State)
    requires Inv(s)
    ensures ListOk(s.list, s.now + 1 - HALF, s.now + 1 + MAX_RELATIVE_TIMEOUT)
  {
  }

  lemma TickedInv(s: State)
    requires Inv(s)
    ensures Inv(Ticked(s)) && forall e | e in Ticked(s).list :: e.deadline > s.now + 1
  {
    TickList(s);
    DrainedOk(s.list, s.now + 1);
  }

  // What fires

  function Count(log: seq<Firing>, id: Id): nat {
    if log == [] then 0 else (if log[0].id == id then 1 else 0) + Count(log[1..], id)
  }

  lemma {:induction false} CountAppend(a: seq<Firing>, b: seq<Firing>, id: Id)
    ensures Count(a + b, id) == Count(a, id) + Count(b, id)
  {
    if a == [] {
      assert a + b == b;
    } else {
      assert (a + b)[1..] == a[1..] + b;
      CountAppend(a[1..], b, id);
    }
  }

  lemma DrainedStep(list: seq<Entry>, now: nat, id: Id)
    requires list != [] && list[0].deadline <= now
    ensures Drained(list, now).0 == Drained(Requeued(list), now).0
    ensures Count(Drained(list, now).1, id) ==
            (if list[0].id == id then 1 else 0) + Count(Drained(Requeued(list), now).1, id)
  {
    var rest := Drained(Requeued(list), now).1;
    assert ([Firing(list[0].id, now)] + rest)[1..] == rest;
  }

  ghost predicate Absent(list: seq<Entry>, id: Id) {
    forall e | e in list :: e.id != id
  }

  lemma {:induction false} DrainedAbsent(list: seq<Entry>, now: nat, id: Id)
    requires ListOk(list, now - HALF, now + MAX_RELATIVE_TIMEOUT) && 0 < now && Absent(list, id)
    ensures Absent(Drained(list, now).0, id) && Count(Drained(list, now).1, id) == 0
    decreases Lag(list, now)
  {
    if list != [] && list[0].deadline <= now {
      RequeuedOk(list, now);
      LagRequeued(list, now);
      assert list[0] in list && forall x | x in list[1..] :: x in list;
      DrainedAbsent(Requeued(list), now, id);
    }
  }

  /** A one-shot timer that is due fires once, now, and leaves the list. */
  lemma {:induction false} DrainedOneShot(list: seq<Entry>, now: nat, e: Entry)
    requires ListOk(list, now - HALF, now + MAX_RELATIVE_TIMEOUT) && 0 < now && e in list
    requires e.period == 0 && e.deadline <= now
    ensures var (left, fired) := Drained(list, now);
            Absent(left, e.id) && Count(fired, e.id) == 1 && Firing(e.id, now) in fired
    decreases Lag(list, now)
  {
    TailOk(list);
    HeadFirst(list, e);
    RequeuedOk(list, now);
    LagRequeued(list, now);
    DrainedStep(list, now, e.id);
    if list[0] == e {
      DrainedAbsent(Requeued(list), now, e.id);
    } else {
      SameId(list, list[0], e);
      DrainedOneShot(Requeued(list), now, e);
    }
  }

  lemma SameId(list: seq<Entry>, x: Entry, y: Entry)
    requires Distinct(list) && x in list && y in list && x != y
    ensures x.id != y.id
  {
    var i :| 0 <= i < |list| && list[i] == x;
    var j :| 0 <= j < |list| && list[j] == y;
    assert Apart(list, i, j) && Apart(list, j, i);
  }

  /** A timer that is not due yet stays in the list and does not fire. */
  lemma {:induction false} DrainedLater(list: seq<Entry>, now: nat, e: Entry)
    requires ListOk(list, now - HALF, now + MAX_RELATIVE_TIMEOUT) && 0 < now && e in list && e.deadline > now
    ensures e in Drained(list, now).0 && Count(Drained(list, now).1, e.id) == 0
    decreases Lag(list, now)
  {
    if list[0].deadline <= now {
      TailOk(list);
      RequeuedOk(list, now);
      LagRequeued(list, now);
      SameId(list, list[0], e);
      DrainedStep(list, now, e.id);
      DrainedLater(Requeued(list), now, e);
    }
  }

  /** A timer `n` periods later. */
  function Nth(e: Entry, n: nat): Entry
    decreases n
  {
    if n == 0 then e else Nth(e.(deadline := e.deadline + e.period), n - 1)
  }

  lemma {:induction false} NthIs(e: Entry, n: nat)
    ensures Nth(e, n) == e.(deadline := e.deadline + n * e.period)
    decreases n
  {
    if n > 0 {
      NthIs(e.(deadline := e.deadline + e.period), n - 1);
    }
  }

  lemma {:induction false} NthAdd(e: Entry, n: nat, m: nat)
    ensures Nth(Nth(e, n), m) == Nth(e, n + m) && Nth(e, n).id == e.id && Nth(e, n).period == e.period
    decreases n
  {
    if n > 0 {
      NthAdd(e.(deadline := e.deadline + e.period), n - 1, m);
    }
  }

  /** The n-th deadline is the first that lies ahead. */
  ghost predicate CaughtUp(e: Entry, now: nat, n: nat) {
    n > 0 && Nth(e, n - 1).deadline <= now < Nth(e, n).deadline
  }

  /** A periodic timer that is due fires once for each deadline that has passed, and the next one lies ahead. */
  lemma {:induction false} DrainedPeriodic(list: seq<Entry>, now: nat, e: Entry) returns (n: nat)
    requires ListOk(list, now - HALF, now + MAX_RELATIVE_TIMEOUT) && 0 < now && e in list
    requires e.period > 0 && e.deadline <= now
    ensures CaughtUp(e, now, n)
    ensures Nth(e, n) in Drained(list, now).0 && Count(Drained(list, now).1, e.id) == n
    decreases Lag(list, now), 1
  {
    HeadFirst(list, e);
    RequeuedOk(list, now);
    LagRequeued(list, now);
    DrainedStep(list, now, e.id);
    if list[0] != e {
      SameId(list, list[0], e);
      n := DrainedPeriodic(Requeued(list), now, e);
    } else {
      n := HeadPeriodic(list, now, e);
    }
  }

  lemma {:induction false} HeadPeriodic(list: seq<Entry>, now: nat, e: Entry) returns (n: nat)
    requires ListOk(list, now - HALF, now + MAX_RELATIVE_TIMEOUT) && 0 < now && list != [] && e == list[0]
    requires ListOk(Requeued(list), now - HALF, now + MAX_RELATIVE_TIMEOUT) && Lag(Requeued(list), now) < Lag(list, now)
    requires e.period > 0 && e.deadline <= now
    ensures CaughtUp(e, now, n)
    ensures Nth(e, n) in Drained(Requeued(list), now).0 && Count(Drained(Requeued(list), now).1, e.id) == n - 1
    decreases Lag(list, now), 0
  {
    RequeuedMembers(list);
    var e' := e.(deadline := e.deadline + e.period);
    if e'.deadline > now {
      n := 1;
      DrainedLater(Requeued(list), now, e');
    } else {
      n := DrainedPeriodic(Requeued(list), now, e');
      n := n + 1;
    }
  }

  // Order of firing

  /** `a` is ahead of `b` in the list. */
  ghost predicate Ahead(list: seq<Entry>, a: Id, b: Id) {
    exists i, j :: 0 <= i < j < |list| && list[i].id == a && list[j].id == b
  }

  lemma InsertAhead(list: seq<Entry>, e: Entry, a: Id, b: Id)
    requires Ahead(list, a, b)
    ensures Ahead(Insert(list, e), a, b)
  {
    var i, j :| 0 <= i < j < |list| && list[i].id == a && list[j].id == b;
    var p := Position(list, e.deadline);
    var r := Insert(list, e);
    assert r[if i < p then i else i + 1] == list[i] && r[if j < p then j else j + 1] == list[j];
  }

  lemma {:induction false} WithoutAhead(list: seq<Entry>, id: Id, a: Id, b: Id)
    requires Ahead(list, a, b) && id != a && id != b
    ensures Ahead(Without(list, id), a, b)
  {
    var i, j :| 0 <= i < j < |list| && list[i].id == a && list[j].id == b;
    var w := Without(list, id);
    if list[0].id == id {
      assert w[i - 1] == list[i] && w[j - 1] == list[j];
    } else if i > 0 {
      assert list[1..][i - 1] == list[i] && list[1..][j - 1] == list[j];
      WithoutAhead(list[1..], id, a, b);
      var x, y :| 0 <= x < y < |Without(list[1..], id)|
        && Without(list[1..], id)[x].id == a && Without(list[1..], id)[y].id == b;
      assert w[x + 1].id == a && w[y + 1].id == b;
    } else {
      WithoutKeeps(list[1..], id, j - 1);
      var y :| 0 <= y < |Without(list[1..], id)| && Without(list[1..], id)[y].id == b;
      assert w[0].id == a && w[y + 1].id == b;
    }
  }

  lemma {:induction false} WithoutKeeps(list: seq<Entry>, id: Id, j: nat)
    requires j < |list| && list[j].id != id
    ensures exists y :: 0 <= y < |Without(list, id)| && Without(list, id)[y].id == list[j].id
  {
    var w := Without(list, id);
    if list[0].id == id {
      assert w[j - 1] == list[j];
    } else if j > 0 {
      WithoutKeeps(list[1..], id, j - 1);
      var y :| 0 <= y < |Without(list[1..], id)| && Without(list[1..], id)[y].id == list[j].id;
      assert w[y + 1].id == list[j].id;
    } else {
      assert w[0] == list[0];
    }
  }

  /** Arming puts a timer behind all that are not due later. */
  lemma ArmedBehind(s: State, id: Id, deadline: nat, period: nat, e: Entry)
    requires Inv(s) && e in s.list && e.id != id && e.deadline <= deadline
    ensures Ahead(Armed(s, id, deadline, period).list, e.id, id)
  {
    WithoutIs(s.list, id);
    var w := Without(s.list, id);
    var k :| 0 <= k < |w| && w[k] == e;
    var p := Position(w, deadline);
    var r := Armed(s, id, deadline, period).list;
    assert p < |w| ==> InOrder(w, p, k);
    assert k < p && r[k] == e && r[p].id == id;
  }

  lemma TailAhead(list: seq<Entry>, a: Id, b: Id)
    requires Ahead(list, a, b) && list[0].id != a && Distinct(list)
    ensures Ahead(list[1..], a, b)
  {
    var i, j :| 0 <= i < j < |list| && list[i].id == a && list[j].id == b;
    assert list[1..][i - 1] == list[i] && list[1..][j - 1] == list[j];
  }

  lemma RequeuedAhead(list: seq<Entry>, a: Id, b: Id)
    requires Ahead(list, a, b) && list[0].id != a && Distinct(list)
    ensures Ahead(Requeued(list), a, b)
  {
    TailAhead(list, a, b);
    if list[0].period > 0 {
      InsertAhead(list[1..], list[0].(deadline := list[0].deadline + list[0].period), a, b);
    }
  }

  /** What is ahead in a list and distinct: the head is not the one behind, and both are there. */
  lemma AheadFacts(list: seq<Entry>, a: Id, b: Id)
    requires Ahead(list, a, b) && Distinct(list)
    ensures a != b && list[0].id != b
    ensures exists e :: e in list && e.id == a
  {
    var i, j :| 0 <= i < j < |list| && list[i].id == a && list[j].id == b;
    assert list[i] in list && Apart(list, i, j) && Apart(list, 0, j);
  }

  /** What the list has for this timer, if anything. */
  ghost predicate DueAs(list: seq<Entry>, x: Entry) {
    forall e | e in list && e.id == x.id :: e == x
  }

  lemma RequeuedDueAs(list: seq<Entry>, now: nat, x: Entry)
    requires ListOk(list, now - HALF, now + MAX_RELATIVE_TIMEOUT) && list != [] && list[0].deadline <= now
    requires DueAs(list, x) && list[0].id != x.id
    ensures DueAs(Requeued(list), x)
  {
    RequeuedOk(list, now);
    assert list[0] in list && forall x | x in list[1..] :: x in list;
  }

  /** `a` fires, and `b` does not fire before it. */
  predicate FiresFirst(fired: seq<Firing>, a: Id, b: Id) {
    fired != [] && (fired[0].id == a || (fired[0].id != b && FiresFirst(fired[1..], a, b)))
  }

  lemma {:induction false} FirstPosition(fired: seq<Firing>, a: Id, b: Id) returns (p: nat)
    requires FiresFirst(fired, a, b) && a != b
    ensures p < |fired| && fired[p].id == a && forall q | 0 <= q < p :: fired[q].id != b
  {
    if fired[0].id == a {
      p := 0;
    } else {
      var q := FirstPosition(fired[1..], a, b);
      p := q + 1;
      assert forall x | 0 < x <= p :: fired[x] == fired[1..][x - 1];
    }
  }

  /** Of two timers with the same deadline, the one that is ahead fires first. */
  lemma {:induction false} DrainedInOrder(list: seq<Entry>, now: nat, x: Entry, b: Id)
    requires ListOk(list, now - HALF, now + MAX_RELATIVE_TIMEOUT) && 0 < now && x.deadline <= now
    requires Ahead(list, x.id, b) && DueAs(list, x)
    ensures FiresFirst(Drained(list, now).1, x.id, b)
    decreases Lag(list, now)
  {
    AheadFacts(list, x.id, b);
    HeadIsDue(list, now, x);
    LagRequeued(list, now);
    var rest := Drained(Requeued(list), now).1;
    assert ([Firing(list[0].id, now)] + rest)[1..] == rest;
    if list[0].id != x.id {
      RequeuedOk(list, now);
      RequeuedAhead(list, x.id, b);
      RequeuedDueAs(list, now, x);
      DrainedInOrder(Requeued(list), now, x, b);
    }
  }

  lemma HeadIsDue(list: seq<Entry>, now: nat, x: Entry)
    requires Sorted(list) && DueAs(list, x) && x.deadline <= now && exists e :: e in list && e.id == x.id
    ensures list != [] && list[0].deadline <= now
  {
    var e :| e in list && e.id == x.id;
    HeadFirst(list, e);
  }

  /** As long as the first is not due, both keep their places. */
  lemma {:induction false} DrainedAhead(list: seq<Entry>, now: nat, x: Entry, b: Id)
    requires ListOk(list, now - HALF, now + MAX_RELATIVE_TIMEOUT) && 0 < now && x.deadline > now
    requires Ahead(list, x.id, b) && DueAs(list, x)
    ensures Ahead(Drained(list, now).0, x.id, b) && DueAs(Drained(list, now).0, x)
    decreases Lag(list, now)
  {
    if list[0].deadline <= now {
      assert list[0] in list;
      RequeuedOk(list, now);
      LagRequeued(list, now);
      RequeuedAhead(list, x.id, b);
      RequeuedDueAs(list, now, x);
      DrainedAhead(Requeued(list), now, x, b);
    }
  }

  // Runs

  datatype Op =
    | Read
    | Arm(id: Id, deadline: nat, period: nat)
    | Cancel(id: Id)
    | Tick

  /** Periods are below 0x7FFFFFFF, as are deadlines seen from now. */
  ghost predicate Enabled(s: State, op: Op) {
    op.Arm? ==> Armable(s, op.id, op.deadline, op.period)
  }

  function Next(s: State, op: Op): State {
    match op
    case Read => s
    case Arm(id, deadline, period) => Armed(s, id, deadline, period)
    case Cancel(id) => Cancelled(s, id)
    case Tick => Ticked(s)
  }

  ghost predicate IsRun(states: seq<State>, ops: seq<Op>) {
    && |states| == |ops| + 1 && states[0] == State(0, [], [])
    && forall k {:trigger ops[k]} | 0 <= k < |ops| ::
         Enabled(states[k], ops[k]) && states[k + 1] == Next(states[k], ops[k])
  }

  lemma {:induction false} RunInv(states: seq<State>, ops: seq<Op>, k: nat)
    requires IsRun(states, ops) && k < |states|
    ensures Inv(states[k])
  {
    if k > 0 {
      RunInv(states, ops, k - 1);
      var s := states[k - 1];
      match ops[k - 1]
      case Read =>
      case Arm(id, deadline, period) => ArmedInv(s, id, deadline, period);
      case Cancel(id) => CancelledInv(s, id);
      case Tick => TickedInv(s);
    }
  }

  lemma RunStep(states: seq<State>, ops: seq<Op>, k: nat)
    requires IsRun(states, ops) && k < |ops|
    ensures Inv(states[k]) && Enabled(states[k], ops[k]) && states[k + 1] == Next(states[k], ops[k])
  {
    RunInv(states, ops, k);
  }

  predicate Touches(op: Op, id: Id) {
    (op.Arm? && op.id == id) || (op.Cancel? && op.id == id)
  }

  lemma ArmedMembers(s: State, id: Id, deadline: nat, period: nat, e: Entry)
    requires Inv(s)
    ensures e in Armed(s, id, deadline, period).list <==>
            e == Entry(id, deadline, period) || (e in s.list && e.id != id)
  {
    WithoutIs(s.list, id);
    InsertMembers(Without(s.list, id), Entry(id, deadline, period));
  }

  lemma UntouchedList(s: State, op: Op, e: Entry)
    requires Inv(s) && !op.Tick? && !Touches(op, e.id)
    ensures e in Next(s, op).list <==> e in s.list
    ensures Next(s, op).log == s.log && Next(s, op).now == s.now
  {
    if op.Arm? {
      ArmedMembers(s, op.id, op.deadline, op.period, e);
    } else if op.Cancel? {
      WithoutIs(s.list, op.id);
    }
  }

  lemma UntouchedAbsent(s: State, op: Op, id: Id)
    requires Inv(s) && !op.Tick? && !Touches(op, id) && Absent(s.list, id)
    ensures Absent(Next(s, op).list, id)
  {
    forall e | e in Next(s, op).list ensures e.id != id {
      if e.id == id {
        UntouchedList(s, op, e);
      }
    }
  }

  lemma TickedCount(s: State, id: Id)
    ensures Count(Ticked(s).log, id) == Count(s.log, id) + Count(Drained(s.list, s.now + 1).1, id)
  {
    CountAppend(s.log, Drained(s.list, s.now + 1).1, id);
  }

  /** Still in the list, and not fired since. */
  ghost predicate Waiting(s: State, e: Entry, before: nat) {
    e in s.list && Count(s.log, e.id) == before
  }

  /** Out of the list, and as often fired as before. */
  ghost predicate Silent(s: State, id: Id, before: nat) {
    Absent(s.list, id) && Count(s.log, id) == before
  }

  /** Out of the list, after having fired once more. */
  ghost predicate Fired(s: State, id: Id, before: nat) {
    Silent(s, id, before + 1)
  }

  lemma NextWaiting(s: State, op: Op, e: Entry, before: nat)
    requires Inv(s) && Waiting(s, e, before) && !Touches(op, e.id) && (op.Tick? ==> s.now + 1 < e.deadline)
    ensures Waiting(Next(s, op), e, before)
  {
    if op.Tick? {
      TickedWaiting(s, e, before);
    } else {
      UntouchedList(s, op, e);
    }
  }

  lemma TickedWaiting(s: State, e: Entry, before: nat)
    requires Inv(s) && Waiting(s, e, before) && s.now + 1 < e.deadline
    ensures Waiting(Ticked(s), e, before)
  {
    TickList(s);
    TickedCount(s, e.id);
    DrainedLater(s.list, s.now + 1, e);
  }

  lemma TickedFires(s: State, e: Entry, before: nat)
    requires Inv(s) && Waiting(s, e, before) && e.period == 0 && e.deadline <= s.now + 1
    ensures Fired(Ticked(s), e.id, before)
  {
    TickList(s);
    TickedCount(s, e.id);
    DrainedOneShot(s.list, s.now + 1, e);
  }

  lemma NextSilent(s: State, op: Op, id: Id, before: nat)
    requires Inv(s) && Silent(s, id, before) && !Touches(op, id)
    ensures Silent(Next(s, op), id, before)
  {
    if op.Tick? {
      TickList(s);
      TickedCount(s, id);
      DrainedAbsent(s.list, s.now + 1, id);
    } else {
      UntouchedList(s, op, Entry(id, 0, 0));
      UntouchedAbsent(s, op, id);
    }
  }

  /** When a timer armed at `now` fires: at its deadline, or in the next tick if that has passed. */
  function Due(now: nat, deadline: nat): nat {
    if now < deadline then deadline else now + 1
  }

  /** Up to then a timer waits. */
  lemma {:induction false} WaitsUntilDue(states: seq<State>, ops: seq<Op>, k: nat, j: nat, e: Entry)
    requires IsRun(states, ops) && k < j < |states| && states[j].now < Due(states[k].now, e.deadline)
    requires ops[k] == Arm(e.id, e.deadline, e.period)
    requires forall i {:trigger ops[i]} | k < i < j :: !Touches(ops[i], e.id)
    ensures Waiting(states[j], e, Count(states[k].log, e.id))
  {
    RunStep(states, ops, j - 1);
    if j == k + 1 {
      ArmedMembers(states[k], e.id, e.deadline, e.period, e);
    } else {
      NowGrows(states, ops, j - 1, j);
      NowGrows(states, ops, k, j - 1);
      WaitsUntilDue(states, ops, k, j - 1, e);
      NextWaiting(states[j - 1], ops[j - 1], e, Count(states[k].log, e.id));
    }
  }

  /** A one-shot timer that is not touched again fires once and for all, in exactly the tick that makes it due. */
  lemma {:induction false} FiresWhenDue(states: seq<State>, ops: seq<Op>, k: nat, j: nat, e: Entry)
    requires IsRun(states, ops) && k < j < |states| && ops[k] == Arm(e.id, e.deadline, 0) && e.period == 0
    requires forall i {:trigger ops[i]} | k < i < j :: !Touches(ops[i], e.id)
    ensures states[j].now < Due(states[k].now, e.deadline) ==> Waiting(states[j], e, Count(states[k].log, e.id))
    ensures states[j].now >= Due(states[k].now, e.deadline) ==> Fired(states[j], e.id, Count(states[k].log, e.id))
  {
    var before, due := Count(states[k].log, e.id), Due(states[k].now, e.deadline);
    if states[j].now < due {
      WaitsUntilDue(states, ops, k, j, e);
    } else {
      RunStep(states, ops, j - 1);
      var s, op := states[j - 1], ops[j - 1];
      if j > k + 1 {
        FiresWhenDue(states, ops, k, j - 1, e);
        if s.now < due {
          assert op.Tick?;
          TickedFires(s, e, before);
        } else {
          NextSilent(s, op, e.id, before + 1);
        }
      }
    }
  }

  /** A timer that is cancelled, one-shot or periodic, due or not, does not fire until it is armed again. */
  lemma {:induction false} CancelledIsSilent(states: seq<State>, ops: seq<Op>, k: nat, j: nat, id: Id)
    requires IsRun(states, ops) && k < j < |states| && ops[k] == Cancel(id)
    requires forall i {:trigger ops[i]} | k < i < j :: !Touches(ops[i], id)
    ensures Silent(states[j], id, Count(states[k].log, id))
  {
    RunStep(states, ops, j - 1);
    if j == k + 1 {
      WithoutIs(states[k].list, id);
    } else {
      CancelledIsSilent(states, ops, k, j - 1, id);
      NextSilent(states[j - 1], ops[j - 1], id, Count(states[k].log, id));
    }
  }

  /** A timer that is armed again forgets its old deadline: it is in the list once, and waits for the new one. */
  lemma RearmedForgets(states: seq<State>, ops: seq<Op>, i: nat, k: nat, j: nat, former: Entry, e: Entry)
    requires IsRun(states, ops) && i < k < j < |states| && former.id == e.id
    requires ops[i] == Arm(e.id, former.deadline, former.period) && ops[k] == Arm(e.id, e.deadline, e.period)
    requires forall m {:trigger ops[m]} | k < m < j :: !Touches(ops[m], e.id)
    requires states[j].now < Due(states[k].now, e.deadline)
    ensures Waiting(states[j], e, Count(states[k].log, e.id))
    ensures forall x | x in states[j].list && x.id == e.id :: x == e
  {
    WaitsUntilDue(states, ops, k, j, e);
    RunInv(states, ops, j);
    forall x | x in states[j].list && x.id == e.id ensures x == e {
      if x != e {
        SameId(states[j].list, x, e);
      }
    }
  }

  /** A timer is armed for `d` ticks in two steps: the counter is read as the r-th operation, and `k` arms it. */
  ghost predicate ArmsRelative(states: seq<State>, ops: seq<Op>, r: nat, k: nat, id: Id, d: nat, period: nat) {
    && r < k < |ops| < |states|
    && ops[r] == Read && ops[k] == Arm(id, states[r].now + d, period)
  }

  /**
   A one-shot timer armed for `d` ticks, and not touched again, fires once and for all. With fewer than `d` ticks
   between reading the counter and arming, that is in exactly the d-th tick after the reading; otherwise it is too late
   for that one, and it fires in the first tick after arming. `j` is any point after the arming.
   */
  lemma OneShotOnTime(states: seq<State>, ops: seq<Op>, r: nat, k: nat, j: nat, id: Id, d: nat)
    requires IsRun(states, ops) && ArmsRelative(states, ops, r, k, id, d, 0) && k < j < |states|
    requires forall i {:trigger ops[i]} | k < i < j :: !Touches(ops[i], id)
    ensures var due := if states[k].now - states[r].now < d then states[r].now + d else states[k].now + 1;
            && (states[j].now < due ==> Waiting(states[j], Entry(id, states[r].now + d, 0), Count(states[k].log, id)))
            && (states[j].now >= due ==> Fired(states[j], id, Count(states[k].log, id)))
  {
    FiresWhenDue(states, ops, k, j, Entry(id, states[r].now + d, 0));
  }

  lemma TickedPeriodic(s: State, e: Entry, before: nat) returns (n: nat)
    requires Inv(s) && Waiting(s, e, before) && e.period > 0 && e.deadline <= s.now + 1
    ensures Waiting(Ticked(s), Nth(e, n), before + n) && CaughtUp(e, s.now + 1, n)
  {
    TickList(s);
    n := DrainedPeriodic(s.list, s.now + 1, e);
    NthAdd(e, n, 0);
    TickedCount(s, e.id);
  }

  /**
   Where a periodic timer armed at the time `since` stands that has fired `n` times: it waits for the next multiple of
   its period after its first deadline. Before the first tick that one may be overdue.
   */
  ghost predicate OnSchedule(s: State, first: Entry, before: nat, since: nat, n: nat) {
    && Waiting(s, Nth(first, n), before + n)
    && (s.now > since ==> s.now < Nth(first, n).deadline)
    && (n > 0 ==> since < s.now && Nth(first, n - 1).deadline <= s.now)
  }

  lemma NextOnSchedule(s: State, op: Op, first: Entry, before: nat, since: nat, n: nat) returns (n': nat)
    requires Inv(s) && OnSchedule(s, first, before, since, n) && since <= s.now
    requires first.period > 0 && !Touches(op, first.id)
    ensures OnSchedule(Next(s, op), first, before, since, n')
  {
    var e := Nth(first, n);
    NthAdd(first, n, 0);
    if op.Tick? && e.deadline <= s.now + 1 {
      var m := TickedPeriodic(s, e, before + n);
      n' := n + m;
      NthAdd(first, n, m);
      NthAdd(first, n, m - 1);
    } else {
      n' := n;
      NextWaiting(s, op, e, before + n);
    }
  }

  /** A periodic timer keeps its schedule without drift until it is touched again, and catches up if it is late. */
  lemma {:induction false} PeriodicOnTime(states: seq<State>, ops: seq<Op>, k: nat, j: nat, first: Entry)
    returns (n: nat)
    requires IsRun(states, ops) && k < j < |states| && first.period > 0
    requires ops[k] == Arm(first.id, first.deadline, first.period)
    requires forall i {:trigger ops[i]} | k < i < j :: !Touches(ops[i], first.id)
    ensures OnSchedule(states[j], first, Count(states[k].log, first.id), states[k].now, n)
  {
    RunStep(states, ops, j - 1);
    if j == k + 1 {
      n := 0;
      ArmedMembers(states[k], first.id, first.deadline, first.period, first);
    } else {
      n := PeriodicOnTime(states, ops, k, j - 1, first);
      NowGrows(states, ops, k, j - 1);
      n := NextOnSchedule(states[j - 1], ops[j - 1], first, Count(states[k].log, first.id), states[k].now, n);
    }
  }

  lemma TickedAhead(s: State, x: Entry, b: Id)
    requires Inv(s) && Ahead(s.list, x.id, b) && DueAs(s.list, x) && s.now + 1 < x.deadline
    ensures Ahead(Ticked(s).list, x.id, b) && DueAs(Ticked(s).list, x)
  {
    TickList(s);
    DrainedAhead(s.list, s.now + 1, x, b);
  }

  lemma UntouchedDueAs(s: State, op: Op, x: Entry)
    requires Inv(s) && !op.Tick? && !Touches(op, x.id) && DueAs(s.list, x)
    ensures DueAs(Next(s, op).list, x)
  {
    forall e | e in Next(s, op).list && e.id == x.id ensures e == x {
      UntouchedList(s, op, e);
    }
  }

  /** While neither is touched and the first does not fire, the timer that is ahead stays ahead. */
  lemma {:induction false} StaysAhead(states: seq<State>, ops: seq<Op>, k: nat, j: nat, x: Entry, b: Id)
    requires IsRun(states, ops) && k <= j < |states| && states[j].now < Due(states[k].now, x.deadline)
    requires Ahead(states[k].list, x.id, b) && DueAs(states[k].list, x)
    requires forall i {:trigger ops[i]} | k <= i < j :: !Touches(ops[i], x.id) && !Touches(ops[i], b)
    ensures Ahead(states[j].list, x.id, b) && DueAs(states[j].list, x)
  {
    if j > k {
      RunStep(states, ops, j - 1);
      NowGrows(states, ops, j - 1, j);
      NowGrows(states, ops, k, j - 1);
      StaysAhead(states, ops, k, j - 1, x, b);
      NextAhead(states[j - 1], ops[j - 1], x, b);
    }
  }

  lemma NextAhead(s: State, op: Op, x: Entry, b: Id)
    requires Inv(s) && Ahead(s.list, x.id, b) && DueAs(s.list, x) && (op.Tick? ==> s.now + 1 < x.deadline)
    requires !Touches(op, x.id) && !Touches(op, b)
    ensures Ahead(Next(s, op).list, x.id, b) && DueAs(Next(s, op).list, x)
  {
    if op.Tick? {
      TickedAhead(s, x, b);
    } else {
      UntouchedAhead(s, op, x.id, b);
      UntouchedDueAs(s, op, x);
    }
  }

  lemma UntouchedAhead(s: State, op: Op, a: Id, b: Id)
    requires !op.Tick? && !Touches(op, a) && !Touches(op, b) && Ahead(s.list, a, b)
    ensures Ahead(Next(s, op).list, a, b)
  {
    if !op.Read? {
      WithoutAhead(s.list, op.id, a, b);
    }
    if op.Arm? {
      InsertAhead(Without(s.list, op.id), Entry(op.id, op.deadline, op.period), a, b);
    }
  }

  lemma ArmedTie(s: State, x: Entry, y: Entry)
    requires Inv(s) && Inv(Armed(s, y.id, y.deadline, y.period)) && x in s.list
    requires x.id != y.id && x.deadline == y.deadline
    ensures Ahead(Armed(s, y.id, y.deadline, y.period).list, x.id, y.id)
    ensures DueAs(Armed(s, y.id, y.deadline, y.period).list, x)
  {
    ArmedBehind(s, y.id, y.deadline, y.period, x);
    ArmedMembers(s, y.id, y.deadline, y.period, x);
    var list := Armed(s, y.id, y.deadline, y.period).list;
    forall e | e in list && e.id == x.id ensures e == x {
      if e != x {
        SameId(list, e, x);
      }
    }
  }

  lemma TieStaysAhead(states: seq<State>, ops: seq<Op>, k: nat, m: nat, j: nat, x: Entry, y: Entry)
    requires IsRun(states, ops) && k < m < j < |states| && x.id != y.id && x.deadline == y.deadline
    requires ops[k] == Arm(x.id, x.deadline, x.period) && ops[m] == Arm(y.id, y.deadline, y.period)
    requires forall i {:trigger ops[i]} | k < i < j :: !Touches(ops[i], x.id) && (i > m ==> !Touches(ops[i], y.id))
    requires states[j].now < Due(states[k].now, x.deadline)
    ensures Ahead(states[j].list, x.id, y.id) && DueAs(states[j].list, x)
  {
    NowGrows(states, ops, k, m);
    NowGrows(states, ops, m, j);
    WaitsUntilDue(states, ops, k, m, x);
    RunStep(states, ops, m);
    RunInv(states, ops, m + 1);
    ArmedTie(states[m], x, y);
    StaysAhead(states, ops, m + 1, j, x, y.id);
  }

  /**
   Ties fire in arming order: timer `x` is armed as the k-th operation, `y` later for the same deadline, neither is
   touched again, and the j-th operation is the tick that makes them due. Then it fires `x`, and not `y` before that.
   */
  lemma TiesFireInOrder(states: seq<State>, ops: seq<Op>, k: nat, m: nat, j: nat, x: Entry, y: Entry)
    returns (fired: seq<Firing>, p: nat)
    requires IsRun(states, ops) && k < m < j < |ops| && x.id != y.id && x.deadline == y.deadline
    requires ops[k] == Arm(x.id, x.deadline, x.period) && ops[m] == Arm(y.id, y.deadline, y.period)
    requires forall i {:trigger ops[i]} | k < i < j :: !Touches(ops[i], x.id) && (i > m ==> !Touches(ops[i], y.id))
    requires ops[j].Tick? && states[j].now + 1 == Due(states[k].now, x.deadline)
    ensures states[j + 1].log == states[j].log + fired
    ensures p < |fired| && fired[p].id == x.id && forall q | 0 <= q < p :: fired[q].id != y.id
  {
    TieStaysAhead(states, ops, k, m, j, x, y);
    RunStep(states, ops, j);
    fired, p := TickedInOrder(states[j], x, y.id);
  }

  lemma TickedInOrder(s: State, x: Entry, b: Id) returns (fired: seq<Firing>, p: nat)
    requires Inv(s) && Ahead(s.list, x.id, b) && DueAs(s.list, x) && x.deadline <= s.now + 1
    ensures Ticked(s).log == s.log + fired
    ensures p < |fired| && fired[p].id == x.id && forall q | 0 <= q < p :: fired[q].id != b
  {
    TickList(s);
    AheadFacts(s.list, x.id, b);
    DrainedInOrder(s.list, s.now + 1, x, b);
    fired := Drained(s.list, s.now + 1).1;
    p := FirstPosition(fired, x.id, b);
  }

  lemma {:induction false} NowGrows(states: seq<State>, ops: seq<Op>, k: nat, j: nat)
    requires IsRun(states, ops) && k <= j < |states|
    ensures states[k].now <= states[j].now
  {
    if k < j {
      NowGrows(states, ops, k, j - 1);
      RunStep(states, ops, j - 1);
    }
  }

  // The module, on words

  datatype Node = Node(id: Id, timeout: Word, period: nat)

  function Wire(e: Entry): Node {
    Node(e.id, Wrapped(e.deadline), e.period)
  }

  ghost predicate Wired(nodes: seq<Node>, list: seq<Entry>) {
    |nodes| == |list| && forall i | 0 <= i < |list| :: nodes[i] == Wire(list[i])
  }

  lemma {:induction false} PositionIs(list: seq<Entry>, deadline: nat, i: nat)
    requires i <= |list| && (forall j | 0 <= j < i :: list[j].deadline <= deadline)
    requires i < |list| ==> list[i].deadline > deadline
    ensures i == Position(list, deadline)
  {
    if i > 0 {
      PositionIs(list[1..], deadline, i - 1);
    }
  }

  lemma WrappedSum(a: nat, b: nat)
    ensures Wrapped(Wrapped(a) + b) == Wrapped(a + b)
  {
  }

  lemma {:induction false} WiredWithout(nodes: seq<Node>, list: seq<Entry>, i: nat)
    requires Wired(nodes, list) && Distinct(list) && i < |list|
    ensures Without(list, list[i].id) == list[..i] + list[i + 1..]
    ensures Wired(nodes[..i] + nodes[i + 1..], Without(list, list[i].id))
  {
    if i > 0 {
      var rest := list[1..];
      assert Apart(list, 0, i);
      forall a, b ensures Apart(rest, a, b) {
        assert Apart(list, a + 1, b + 1);
      }
      WiredWithout(nodes[1..], rest, i - 1);
      assert rest[i - 1] == list[i];
      assert [list[0]] + (rest[..i - 1] + rest[i..]) == list[..i] + list[i + 1..];
    } else {
      assert list[..0] + list[1..] == list[1..];
    }
  }

  lemma {:induction false} WithoutAbsent(list: seq<Entry>, id: Id)
    requires forall i | 0 <= i < |list| :: list[i].id != id
    ensures Without(list, id) == list
  {
    if list != [] {
      WithoutAbsent(list[1..], id);
    }
  }

  /** The list that one round of the loop leaves. */
  lemma RequeuedWired(list: seq<Entry>, now: nat)
    requires ListOk(list, now - HALF, now + MAX_RELATIVE_TIMEOUT) && list != [] && now > 0 && list[0].deadline <= now
    ensures ListOk(Requeued(list), now - HALF, now + MAX_RELATIVE_TIMEOUT) && Lag(Requeued(list), now) < Lag(list, now)
    ensures Drained(list, now) == (Drained(Requeued(list), now).0,
                                   [Firing(list[0].id, now)] + Drained(Requeued(list), now).1)
  {
    RequeuedOk(list, now);
    LagRequeued(list, now);
  }

  lemma OneMore(log: seq<Firing>, first: Firing, rest: seq<Firing>)
    ensures log + ([first] + rest) == log + [first] + rest
  {
  }

  lemma AllNear(s: State, id: Id, deadline: nat, period: nat)
    requires Inv(s) && Armable(s, id, deadline, period)
    ensures var w := Without(s.list, id); Distinct(w) && forall i | 0 <= i < |w| :: Near(w[i], deadline)
  {
    WithoutIs(s.list, id);
    var w := Without(s.list, id);
    assert forall i | 0 <= i < |w| :: w[i] in w;
  }

  lemma TailNear(list: seq<Entry>, now: nat)
    requires ListOk(list, now - HALF, now + MAX_RELATIVE_TIMEOUT) && list != [] && list[0].deadline <= now
    ensures forall i | 0 <= i < |list[1..]| :: Near(list[1..][i], list[0].deadline + list[0].period)
  {
    var rest := list[1..];
    assert list[0] in list && InWindow(list[0], now - HALF, now + MAX_RELATIVE_TIMEOUT);
    forall i | 0 <= i < |rest| ensures Near(rest[i], list[0].deadline + list[0].period) {
      assert rest[i] in list && InOrder(list, 0, i + 1);
      assert Near(rest[i], list[0].deadline);
    }
  }

  /** The state after some ticks. */
  function TickedTimes(s: State, n: nat): State {
    if n == 0 then s else Ticked(TickedTimes(s, n - 1))
  }

  class Timers {
    var ticks: Word
    var nodes: seq<Node>
    ghost var now: nat
    ghost var list: seq<Entry>
    ghost var log: seq<Firing>

    ghost predicate Matches()
      reads this
    {
      ticks == Wrapped(now) && Wired(nodes, list)
    }

    ghost function View(): State
      reads this
    {
      State(now, list, log)
    }

    constructor ()
      ensures Matches() && View() == State(0, [], [])
    {
      ticks, nodes := 0, [];
      now, list, log := 0, [], [];
    }

    method InsertTimer(node: Node, ghost e: Entry)
      requires Matches() && node == Wire(e) && forall i | 0 <= i < |list| :: Near(list[i], e.deadline)
      modifies `nodes, `list
      ensures Matches() && list == Insert(old(list), e)
    {
      var n := 0;
      while n < |nodes|
        invariant 0 <= n <= |nodes| && nodes == old(nodes) && list == old(list)
        invariant forall j | 0 <= j < n :: list[j].deadline <= e.deadline
      {
        CompareExact(list[n].deadline, e.deadline);
        if After(nodes[n].timeout, node.timeout) {
          break;
        }
        n := n + 1;
      }
      PositionIs(list, e.deadline, n);
      nodes := nodes[..n] + [node] + nodes[n..];
      list := Insert(list, e);
    }

    method Remove(id: Id) returns (linked: bool)
      requires Matches() && Distinct(list)
      modifies `nodes, `list
      ensures Matches() && list == Without(old(list), id)
      ensures linked <==> !Absent(old(list), id)
    {
      var i := 0;
      while i < |nodes| && nodes[i].id != id
        invariant 0 <= i <= |nodes| && nodes == old(nodes) && list == old(list)
        invariant forall j | 0 <= j < i :: list[j].id != id
      {
        i := i + 1;
      }
      linked := i < |nodes|;
      if linked {
        WiredWithout(nodes, list, i);
        assert list[i] in list;
        nodes := nodes[..i] + nodes[i + 1..];
      } else {
        WithoutAbsent(list, id);
      }
      list := Without(list, id);
    }

    method InternalCancel(id: Id) returns (ok: bool)
      requires Matches() && Inv(View())
      modifies `nodes, `list
      ensures Matches() && View() == Cancelled(old(View()), id)
      ensures ok <==> !Absent(old(list), id)
    {
      ok := Remove(id);
    }

    /** `deadline` is the unbounded time that `delay` stands for. */
    method InternalSetAbs(id: Id, delay: Word, period: nat, ghost deadline: nat)
      requires Matches() && Inv(View()) && delay == Wrapped(deadline)
      requires Enabled(View(), Arm(id, deadline, period))
      modifies `nodes, `list
      ensures Matches() && View() == Armed(old(View()), id, deadline, period)
    {
      AllNear(View(), id, deadline, period);
      WithoutIs(list, id);
      var linked := Remove(id);
      InsertTimer(Node(id, delay, period), Entry(id, deadline, period));
    }

    method ReadTicks() returns (t: Word)
      requires Matches()
      ensures t == Wrapped(now)
    {
      t := ticks;
    }

    /** The counter is read in one locked section and the timer armed in another, with `between` ticks in between. */
    method InternalSetRel(id: Id, delay: nat, period: nat, between: nat)
      requires Matches() && Inv(View()) && delay < MAX_RELATIVE_TIMEOUT
      requires Enabled(TickedTimes(View(), between), Arm(id, now + delay, period))
      modifies this
      ensures Matches() && View() == Armed(TickedTimes(old(View()), between), id, old(now) + delay, period)
    {
      var t := ReadTicks();
      for n := 0 to between
        invariant Matches() && Inv(View()) && View() == TickedTimes(old(View()), n)
      {
        TickedInv(View());
        TickHandler();
      }
      WrappedSum(old(now), delay);
      InternalSetAbs(id, (t + delay) % 0x1_0000_0000, period, old(now) + delay);
    }

    lemma CompareFirst()
      requires Matches() && nodes != [] && now > 0 && ListOk(list, now - HALF, now + MAX_RELATIVE_TIMEOUT)
      ensures AfterOrEq(ticks, nodes[0].timeout) <==> list[0].deadline <= now
    {
      assert list[0] in list;
      CompareExact(now, list[0].deadline);
    }

    method DropFirst() returns (item: Node)
      requires Matches() && nodes != []
      modifies `nodes, `list
      ensures Matches() && list == old(list)[1..] && item == Wire(old(list)[0])
    {
      item := nodes[0];
      nodes, list := nodes[1..], list[1..];
    }

    /** The first timer in the list fires. */
    method FireFirst()
      requires Matches() && nodes != [] && now > 0 && list[0].deadline <= now
      requires ListOk(list, now - HALF, now + MAX_RELATIVE_TIMEOUT)
      modifies `nodes, `list, `log
      ensures Matches() && list == Requeued(old(list)) && log == old(log) + [Firing(old(list)[0].id, now)]
    {
      ghost var e := list[0];
      TailNear(list, now);
      var item := DropFirst();
      if item.period != 0 {
        WrappedSum(e.deadline, e.period);
        InsertTimer(item.(timeout := (item.timeout + item.period) % 0x1_0000_0000),
                    e.(deadline := e.deadline + e.period));
      }
      log := log + [Firing(e.id, now)];
    }

    method TickHandler()
      requires Matches() && Inv(View())
      modifies this
      ensures Matches() && View() == Ticked(old(View()))
    {
      WrappedSum(now, 1);
      ticks := (ticks + 1) % 0x1_0000_0000;
      now := now + 1;
      ghost var (left, fired) := Drained(list, now);
      while nodes != []
        invariant Matches() && now == old(now) + 1 && ListOk(list, now - HALF, now + MAX_RELATIVE_TIMEOUT)
        invariant Drained(list, now).0 == left && log + Drained(list, now).1 == old(log) + fired
        decreases Lag(list, now)
      {
        CompareFirst();
        if !AfterOrEq(ticks, nodes[0].timeout) {
          break;
        }
        RequeuedWired(list, now);
        OneMore(log, Firing(list[0].id, now), Drained(Requeued(list), now).1);
        FireFirst();
      }
      assert log + [] == log;
    }
  }
}
