/**
 The pool of fixed-size blocks: a tail that is not carved yet, a list of freed blocks, blocks handed out, and threads
 waiting for one. The first word of a block is the link of a free block and the parent pool of one handed out.
 */
module BlockPool {
  import opened Options
  import opened Seqs
  import opened Sync

  type Addr = nat

  const PTR_SZ: nat := 4
  const LIST_SZ: nat := 8
  const WORD: nat := 0x1_0000_0000

  datatype Header = Linked | Parent

  /** `carved`, `origin`, `total` and `handed` record where blocks came from and went, `given` what waiters got. */
  datatype State = State(
    base: Addr,
    remaining: nat,
    sz: nat,
    free: seq<Addr>,
    freeNum: int,
    waiters: seq<Thread>,
    headers: map<Addr, Header>,
    given: seq<(Thread, Addr)>,
    origin: Addr,
    total: nat,
    carved: nat,
    handed: set<Addr>)

  // Initialisation

  datatype InitResult = Ready(s: State) | Refused | DividesByZero

  /** In 32-bit arithmetic. */
  function FullSize(blkSz: nat): nat {
    (PTR_SZ + (blkSz + PTR_SZ - 1) % WORD / PTR_SZ * PTR_SZ) % WORD
  }

  function Init(base: Addr, sz: nat, blkSz: nat): InitResult {
    var full := FullSize(blkSz);
    if full == 0 then DividesByZero
    else if base == 0 || blkSz == 0 || base % PTR_SZ != 0 || sz < full || LIST_SZ > full then Refused
    else Ready(State(base, sz, full, [], sz / full, [], map[], [], base, sz, 0, {}))
  }

  lemma RoundedUp(blkSz: nat)
    ensures var r := (blkSz + PTR_SZ - 1) / PTR_SZ * PTR_SZ;
            r % PTR_SZ == 0 && blkSz <= r < blkSz + PTR_SZ
  {
  }

  lemma FullSizeIs(blkSz: nat)
    requires blkSz < WORD
    ensures FullSize(blkSz) ==
            if blkSz > 0xFFFF_FFFC then PTR_SZ
            else if blkSz > 0xFFFF_FFF8 then 0
            else PTR_SZ + (blkSz + PTR_SZ - 1) / PTR_SZ * PTR_SZ
  {
    RoundedUp(blkSz);
  }

  /** A pool that is ready has blocks with room for what was asked for, wrap-around or not. */
  lemma InitExact(base: Addr, sz: nat, blkSz: nat)
    requires sz < WORD && blkSz < WORD
    ensures Init(base, sz, blkSz) == DividesByZero <==> 0xFFFF_FFF9 <= blkSz <= 0xFFFF_FFFC
    ensures Init(base, sz, blkSz).Ready? ==>
              var s := Init(base, sz, blkSz).s;
              && s.sz % PTR_SZ == 0 && PTR_SZ + blkSz <= s.sz < PTR_SZ + blkSz + PTR_SZ && s.sz <= sz
              && s.base == base && s.remaining == sz && s.freeNum == sz / s.sz && s.waiters == [] && s.handed == {}
    ensures Init(base, sz, blkSz).Ready? <==>
              && base != 0 && base % PTR_SZ == 0 && 0 < blkSz <= 0xFFFF_FFF8
              && PTR_SZ + (blkSz + PTR_SZ - 1) / PTR_SZ * PTR_SZ <= sz
  {
    FullSizeIs(blkSz);
    RoundedUp(blkSz);
  }

  // Blocks

  ghost function BlockAt(s: State, k: nat): Addr {
    s.origin + k * s.sz
  }

  ghost predicate IsCarved(s: State, a: Addr) {
    exists k: nat {:trigger BlockAt(s, k)} :: k < s.carved && a == BlockAt(s, k)
  }

  /** The tail starts behind the carved blocks, and every carved block is free or handed out, never both. */
  ghost predicate Carving(s: State) {
    && s.sz > 0 && s.base == BlockAt(s, s.carved) && s.remaining + s.carved * s.sz == s.total
    && NoDuplicates(s.free)
    && forall a: Addr {:trigger IsCarved(s, a)} :: IsCarved(s, a) <==> (a in s.free) != (a in s.handed)
  }

  ghost predicate OneSide(s: State) {
    forall a | a in s.free :: a !in s.handed
  }

  /** The counter counts what is free, carved or not, and together with what is handed out it is the whole pool. */
  ghost predicate Counted(s: State) {
    s.sz > 0 && s.freeNum == |s.free| + s.remaining / s.sz && s.freeNum + |s.handed| == s.total / s.sz
  }

  ghost predicate WaitersServed(s: State) {
    s.waiters != [] ==> s.free == [] && s.remaining < s.sz
  }

  ghost predicate Headed(s: State) {
    forall a | a in s.handed :: a in s.headers && s.headers[a] == Parent
  }

  ghost predicate Inv(s: State) {
    Carving(s) && OneSide(s) && Counted(s) && WaitersServed(s) && Headed(s)
  }

  function HandedOut(s: State, t: Thread, a: Addr): State {
    s.(headers := s.headers[a := Parent], given := s.given + [(t, a + PTR_SZ)], freeNum := s.freeNum - 1,
       handed := s.handed + {a})
  }

  function Tested(s: State, t: Thread, wait: bool): (State, bool) {
    if s.free != [] then (HandedOut(s.(free := s.free[1..]), t, s.free[0]), true)
    else if s.remaining >= s.sz then
      (HandedOut(s.(base := s.base + s.sz, remaining := s.remaining - s.sz, carved := s.carved + 1), t, s.base), true)
    else (if wait then s.(waiters := s.waiters + [t]) else s, false)
  }

  /** `ptr` is behind the header; the caller was given it. */
  function Returned(s: State, ptr: Addr, policy: Policy, prio: Thread -> nat): State
    requires ptr >= PTR_SZ
  {
    var a := ptr - PTR_SZ;
    if s.waiters != [] then
      var k := Chosen(Prios(s.waiters, prio), policy);
      s.(waiters := RemoveAt(s.waiters, k), given := s.given + [(s.waiters[k], ptr)])
    else
      s.(free := [a] + s.free, headers := s.headers[a := Linked], freeNum := s.freeNum + 1, handed := s.handed - {a})
  }

  function GivenUp(s: State, t: Thread): State {
    s.(waiters := Without(s.waiters, t))
  }

  // What the operations do

  /** A block is handed out just when there is one, free or not carved yet, and the caller is told where it is. */
  lemma TestedIs(s: State, t: Thread, wait: bool)
    requires s.sz > 0
    ensures var (s', ok) := Tested(s, t, wait);
            && (ok <==> s.free != [] || s.remaining >= s.sz)
            && (ok ==> exists a ::
                  && a == (if s.free != [] then s.free[0] else s.base)
                  && s'.handed == s.handed + {a} && s'.given == s.given + [(t, a + PTR_SZ)]
                  && s'.freeNum == s.freeNum - 1 && s'.waiters == s.waiters)
            && (!ok ==> s' == s.(waiters := s.waiters + if wait then [t] else []))
  {
    if s.free != [] || s.remaining >= s.sz {
      var a := if s.free != [] then s.free[0] else s.base;
      assert Tested(s, t, wait).0.handed == s.handed + {a};
    }
  }

  /** A block that is returned goes to the next waiter, who is told the very pointer; without one it is free again. */
  lemma ReturnedIs(s: State, ptr: Addr, policy: Policy, prio: Thread -> nat)
    requires ptr >= PTR_SZ
    ensures var s' := Returned(s, ptr, policy, prio);
            && (s.waiters != [] ==>
                  exists k :: IsNext(s.waiters, policy, prio, k)
                           && s'.given == s.given + [(s.waiters[k], ptr)] && s'.waiters == RemoveAt(s.waiters, k)
                           && s'.handed == s.handed && s'.free == s.free && s'.freeNum == s.freeNum)
            && (s.waiters == [] ==>
                  && s'.free == [ptr - PTR_SZ] + s.free && s'.freeNum == s.freeNum + 1
                  && s'.handed == s.handed - {ptr - PTR_SZ} && s'.given == s.given)
  {
    if s.waiters != [] {
      ChosenIsNext(s.waiters, policy, prio);
    }
  }

  lemma GivenUpIs(s: State, t: Thread)
    requires NoDuplicates(s.waiters)
    ensures var s' := GivenUp(s, t);
            s' == s.(waiters := s'.waiters) && forall u :: u in s'.waiters <==> u in s.waiters && u != t
  {
    WithoutIs(s.waiters, t);
  }

  // Arithmetic of block addresses

  lemma BlocksApart(s: State, j: nat, k: nat)
    requires j < k
    ensures BlockAt(s, j) + s.sz <= BlockAt(s, k)
  {
    assert k * s.sz == j * s.sz + (k - j) * s.sz;
    assert (k - j) * s.sz >= s.sz by {
      MulAtLeast(k - j, s.sz);
    }
  }

  lemma MulAtLeast(n: nat, x: nat)
    requires n > 0
    ensures n * x >= x
  {
    assert n * x == (n - 1) * x + x;
  }

  lemma OneLess(r: nat, sz: nat)
    requires 0 < sz <= r
    ensures (r - sz) / sz == r / sz - 1
  {
    var q, m := r / sz, r % sz;
    assert r == q * sz + m;
    assert r - sz == (q - 1) * sz + m;
    QuotientIs(r - sz, sz, q - 1, m);
  }

  lemma QuotientIs(r: int, sz: nat, q: int, m: nat)
    requires sz > 0 && r == q * sz + m && m < sz
    ensures r / sz == q
  {
    var q', m' := r / sz, r % sz;
    assert (q' - q) * sz == m - m';
    if q' > q {
      MulAtLeast(q' - q, sz);
    } else if q > q' {
      assert (q - q') * sz == m' - m;
      MulAtLeast(q - q', sz);
    }
  }

  /** Different blocks do not overlap, and every block lies in the pool's memory. */
  lemma HandedApart(s: State, a: Addr, b: Addr)
    requires Inv(s) && a in s.handed
    ensures s.origin <= a && a + s.sz <= s.base <= s.origin + s.total
    ensures b in s.handed && a < b ==> a + s.sz <= b
  {
    assert IsCarved(s, a) by {
      assert a !in s.free;
    }
    var j: nat :| j < s.carved && a == BlockAt(s, j);
    BlocksApart(s, j, s.carved);
    if b in s.handed && a < b {
      assert IsCarved(s, b) by {
        assert b !in s.free;
      }
      var k: nat :| k < s.carved && b == BlockAt(s, k);
      if k < j {
        BlocksApart(s, k, j);
      } else {
        BlocksApart(s, j, k);
      }
    }
  }

  // Every operation keeps the invariant

  lemma InitInv(base: Addr, sz: nat, blkSz: nat)
    requires Init(base, sz, blkSz).Ready?
    ensures Inv(Init(base, sz, blkSz).s)
  {
  }

  lemma TakenInv(s: State, t: Thread)
    requires Inv(s) && s.free != []
    ensures Inv(HandedOut(s.(free := s.free[1..]), t, s.free[0]))
  {
    var a := s.free[0];
    var s' := HandedOut(s.(free := s.free[1..]), t, a);
    WithoutFirst(s.free);
    WithoutIs(s.free, a);
    assert a in s.free && a !in s.handed;
    forall b: Addr ensures IsCarved(s', b) <==> (b in s'.free) != (b in s'.handed) {
      assert IsCarved(s, b) <==> IsCarved(s', b) by {
        SameCarving(s, s', b);
      }
    }
  }

  lemma SameCarving(s: State, s': State, a: Addr)
    requires s'.origin == s.origin && s'.sz == s.sz && s'.carved == s.carved
    ensures IsCarved(s, a) <==> IsCarved(s', a)
  {
    forall k: nat ensures BlockAt(s, k) == BlockAt(s', k) {}
  }

  /** The next block of the tail is not carved yet. */
  lemma NextIsNew(s: State)
    requires Carving(s) && OneSide(s)
    ensures s.base !in s.free && s.base !in s.handed
  {
    if IsCarved(s, s.base) {
      var k: nat :| k < s.carved && s.base == BlockAt(s, k);
      BlocksApart(s, k, s.carved);
    }
  }

  function CarvedOff(s: State): State
    requires s.remaining >= s.sz
  {
    s.(base := s.base + s.sz, remaining := s.remaining - s.sz, carved := s.carved + 1)
  }

  lemma OneMoreCarved(s: State, a: Addr)
    requires s.remaining >= s.sz
    ensures IsCarved(CarvedOff(s), a) <==> IsCarved(s, a) || a == BlockAt(s, s.carved)
  {
    var s' := CarvedOff(s);
    forall k: nat ensures BlockAt(s, k) == BlockAt(s', k) {}
    if k: nat :| k < s'.carved && a == BlockAt(s', k) {
      assert k < s.carved ==> IsCarved(s, a);
    }
    if IsCarved(s, a) {
      var k: nat :| k < s.carved && a == BlockAt(s, k);
      assert a == BlockAt(s', k);
    }
    assert BlockAt(s', s.carved) == BlockAt(s, s.carved);
  }

  lemma CarvedCarving(s: State, t: Thread)
    requires Carving(s) && OneSide(s) && s.free == [] && s.remaining >= s.sz
    ensures Carving(HandedOut(CarvedOff(s), t, s.base))
  {
    var s' := HandedOut(CarvedOff(s), t, s.base);
    NextIsNew(s);
    assert (s.carved + 1) * s.sz == s.carved * s.sz + s.sz;
    forall b: Addr ensures IsCarved(s', b) <==> (b in s'.free) != (b in s'.handed) {
      OneMoreCarved(s, b);
      SameCarving(CarvedOff(s), s', b);
      assert IsCarved(s, b) <==> (b in s.free) != (b in s.handed);
    }
  }

  lemma CarvedInv(s: State, t: Thread)
    requires Inv(s) && s.free == [] && s.remaining >= s.sz
    ensures Inv(HandedOut(CarvedOff(s), t, s.base))
  {
    CarvedCarving(s, t);
    NextIsNew(s);
    OneLess(s.remaining, s.sz);
  }

  lemma TestedInv(s: State, t: Thread, wait: bool)
    requires Inv(s)
    ensures Inv(Tested(s, t, wait).0)
  {
    if s.free != [] {
      TakenInv(s, t);
    } else if s.remaining >= s.sz {
      CarvedInv(s, t);
    } else {
      SameBlocks(s, Tested(s, t, wait).0);
    }
  }

  /** A change of the waiters only, when nothing is available. */
  lemma SameBlocks(s: State, s': State)
    requires Inv(s) && s' == s.(waiters := s'.waiters, given := s'.given) && WaitersServed(s')
    ensures Inv(s')
  {
    forall a: Addr ensures IsCarved(s', a) <==> (a in s'.free) != (a in s'.handed) {
      SameCarving(s, s', a);
    }
  }

  /** A block goes straight from the one who returns it to a waiter, or into the list. */
  lemma ReturnedInv(s: State, ptr: Addr, policy: Policy, prio: Thread -> nat)
    requires Inv(s) && ptr >= PTR_SZ && ptr - PTR_SZ in s.handed
    ensures Inv(Returned(s, ptr, policy, prio))
  {
    var s' := Returned(s, ptr, policy, prio);
    if s.waiters != [] {
      SameBlocks(s, s');
    } else {
      var a := ptr - PTR_SZ;
      assert a !in s.free;
      assert s'.free == [a] + s.free;
      forall b: Addr ensures IsCarved(s', b) <==> (b in s'.free) != (b in s'.handed) {
        SameCarving(s, s', b);
        assert IsCarved(s, b) <==> (b in s.free) != (b in s.handed);
      }
    }
  }

  datatype Op =
    | Alloc(t: Thread, wait: bool)
    | Release(ptr: Addr, policy: Policy)
    | GiveUp(t: Thread)

  /** Callers release what they were given, once. */
  ghost predicate Enabled(s: State, op: Op) {
    op.Release? ==> op.ptr >= PTR_SZ && op.ptr - PTR_SZ in s.handed
  }

  function Next(s: State, op: Op, prio: Thread -> nat): State
    requires Enabled(s, op)
  {
    match op
    case Alloc(t, wait) => Tested(s, t, wait).0
    case Release(ptr, policy) => Returned(s, ptr, policy, prio)
    case GiveUp(t) => GivenUp(s, t)
  }

  lemma NextInv(s: State, op: Op, prio: Thread -> nat)
    requires Inv(s) && Enabled(s, op)
    ensures Inv(Next(s, op, prio))
  {
    match op
    case Alloc(t, wait) => TestedInv(s, t, wait);
    case Release(ptr, policy) => ReturnedInv(s, ptr, policy, prio);
    case GiveUp(t) => SameBlocks(s, GivenUp(s, t));
  }

  /** Priorities may change between operations. */
  ghost predicate IsRun(states: seq<State>, ops: seq<Op>, prios: seq<Thread -> nat>) {
    && |states| == |ops| + 1 == |prios| + 1
    && (exists base, sz, blkSz: nat :: Init(base, sz, blkSz) == Ready(states[0]))
    && forall k {:trigger ops[k]} | 0 <= k < |ops| ::
         Enabled(states[k], ops[k]) && states[k + 1] == Next(states[k], ops[k], prios[k])
  }

  /**
   In every state of every run: blocks handed out do not overlap, nothing is lost (what is handed out and what the
   counter says is free is the whole pool), and a thread waits only when no block is available.
   */
  lemma {:induction false} RunsConserve(states: seq<State>, ops: seq<Op>, prios: seq<Thread -> nat>, k: nat)
    requires IsRun(states, ops, prios) && k < |states|
    ensures var s := states[k];
            && Inv(s) && s.freeNum + |s.handed| == s.total / s.sz
            && (forall a, b | a in s.handed && b in s.handed && a < b :: a + s.sz <= b)
            && (s.waiters != [] ==> s.freeNum == 0)
  {
    if k == 0 {
      var base, sz, blkSz: nat :| Init(base, sz, blkSz) == Ready(states[0]);
      InitInv(base, sz, blkSz);
    } else {
      RunsConserve(states, ops, prios, k - 1);
      NextInv(states[k - 1], ops[k - 1], prios[k - 1]);
    }
    var s := states[k];
    forall a, b | a in s.handed && b in s.handed && a < b ensures a + s.sz <= b {
      HandedApart(s, a, b);
    }
    if s.waiters != [] {
      QuotientIs(s.remaining, s.sz, 0, s.remaining);
    }
  }

  lemma HandedOutReturned(s: State, t: Thread, a: Addr, policy: Policy, prio: Thread -> nat)
    requires s.waiters == [] && a !in s.handed
    ensures var s' := HandedOut(s, t, a);
            && s'.given[|s.given|] == (t, a + PTR_SZ) && a in s'.handed
            && var s'' := Returned(s', a + PTR_SZ, policy, prio);
               s''.handed == s.handed && s''.freeNum == s.freeNum && s''.free == [a] + s.free
  {
    assert s.handed + {a} - {a} == s.handed;
  }

  /** Returning a block just allocated, with nobody waiting, leaves it first in the list and the count as before. */
  lemma AllocReleaseRoundTrip(s: State, t: Thread, wait: bool, policy: Policy, prio: Thread -> nat)
    requires Inv(s) && s.waiters == [] && Tested(s, t, wait).1
    ensures var s' := Tested(s, t, wait).0;
            && |s'.given| == |s.given| + 1
            && var ptr := s'.given[|s.given|].1;
               && ptr >= PTR_SZ && ptr - PTR_SZ in s'.handed
               && var s'' := Returned(s', ptr, policy, prio);
                  && s''.handed == s.handed && s''.freeNum == s.freeNum
                  && s''.free == if s.free != [] then s.free else [s.base]
  {
    if s.free != [] {
      assert s.free[0] !in s.handed;
      HandedOutReturned(s.(free := s.free[1..]), t, s.free[0], policy, prio);
      assert [s.free[0]] + s.free[1..] == s.free;
    } else {
      NextIsNew(s);
      HandedOutReturned(CarvedOff(s), t, s.base, policy, prio);
    }
  }

  class Pool {
    var base: Addr
    var remaining: nat
    const sz: nat
    var free: seq<Addr>
    var freeNum: int
    var waiters: seq<Thread>
    var headers: map<Addr, Header>
    ghost var given: seq<(Thread, Addr)>
    ghost const origin: Addr
    ghost const total: nat
    ghost var carved: nat
    ghost var handed: set<Addr>

    ghost function View(): State
      reads this
    {
      State(base, remaining, sz, free, freeNum, waiters, headers, given, origin, total, carved, handed)
    }

    constructor (base: Addr, size: nat, blkSz: nat)
      requires size < WORD && blkSz < WORD && Init(base, size, blkSz).Ready?
      ensures View() == Init(base, size, blkSz).s && Inv(View())
    {
      InitInv(base, size, blkSz);
      var roundBlkSz := (blkSz + PTR_SZ - 1) % WORD / PTR_SZ * PTR_SZ;
      var blockFullSz := (PTR_SZ + roundBlkSz) % WORD;
      free, waiters, headers, given, carved, handed := [], [], map[], [], 0, {};
      freeNum := size / blockFullSz;
      sz := blockFullSz;
      this.base := base;
      remaining := size;
      origin, total := base, size;
    }

    method Test(me: Thread, wait: bool) returns (satisfied: bool)
      modifies this
      ensures (View(), satisfied) == Tested(old(View()), me, wait)
    {
      var block: Option<Addr> := None;
      satisfied := false;
      if free != [] {
        block := Some(free[0]);
        free := free[1..];
      } else if remaining >= sz {
        block := Some(base);
        base := base + sz;
        remaining := remaining - sz;
        carved := carved + 1;
      } else if wait {
        waiters := waiters + [me];
      }
      if block.Some? {
        headers := headers[block.value := Parent];
        given := given + [(me, block.value + PTR_SZ)];
        freeNum := freeNum - 1;
        handed := handed + {block.value};
        satisfied := true;
      }
    }

    method HandOver(ptr: Addr, policy: Policy, prio: Thread -> nat)
      requires waiters != []
      modifies `given, `waiters
      ensures var k := Chosen(Prios(old(waiters), prio), policy);
              given == old(given) + [(old(waiters)[k], ptr)]
              && waiters == RemoveAt(old(waiters), k)
    {
      var k := WaitBlockGet(waiters, policy, prio);
      given := given + [(waiters[k], ptr)];
      waiters := RemoveAt(waiters, k);
    }

    method ReleaseInternal(ptr: Addr, policy: Policy, prio: Thread -> nat)
      requires ptr >= PTR_SZ
      modifies this
      ensures View() == Returned(old(View()), ptr, policy, prio)
    {
      var block := ptr - PTR_SZ;
      if waiters != [] {
        HandOver(ptr, policy, prio);
      } else {
        headers := headers[block := Linked];
        free := [block] + free;
        freeNum := freeNum + 1;
        handed := handed - {block};
      }
    }
  }
}
