/**
 Event flags: waiters ask for any or all of a set of flags, and may consume them. A set judges every waiter on one
 snapshot, gathers those to be released in a temporary queue, and takes away what they consume.
 */
module EvFlags {
  import opened Options
  import opened Bits
  import opened Seqs
  import opened Sync

  type Flags = nat

  datatype Request = Request(thread: Thread, flags: Flags, all: bool, clear: bool)

  /** A notified waiter and the flags it was shown. */
  datatype Release = Release(request: Request, prev: Flags)

  datatype State = State(flags: Flags, queue: seq<Request>, temp: seq<Request>, released: seq<Release>)

  /** The test of the code, on words. */
  predicate Test(r: Request, flags: Flags) {
    var intersect := And(r.flags, flags);
    (r.all && intersect == r.flags) || (!r.all && intersect != 0)
  }

  /** What the request asks for, flag by flag. */
  ghost predicate Met(r: Request, flags: Flags) {
    if r.all then forall i: nat {:trigger Bit(r.flags, i)} | Bit(r.flags, i) :: Bit(flags, i)
    else exists i: nat {:trigger Bit(r.flags, i)} :: Bit(r.flags, i) && Bit(flags, i)
  }

  lemma {:induction false} SomeBit(w: nat)
    requires w != 0
    ensures Bit(w, Ctz(w))
  {
  }

  lemma TestIsMet(r: Request, flags: Flags)
    ensures Test(r, flags) <==> Met(r, flags)
  {
    var x := And(r.flags, flags);
    forall i: nat ensures Bit(x, i) <==> Bit(r.flags, i) && Bit(flags, i) {
      AndBit(r.flags, flags, i);
    }
    if r.all {
      if Met(r, flags) {
        SameBits(x, r.flags);
      }
    } else {
      if x != 0 {
        SomeBit(x);
      }
      forall i: nat ensures !Bit(0, i) {
        NoBitsOfZero(i);
      }
    }
  }

  /** Fewer flags meet fewer requests. */
  lemma MetMonotone(r: Request, less: Flags, more: Flags)
    requires forall i: nat {:trigger Bit(less, i)} :: Bit(less, i) ==> Bit(more, i)
    requires Test(r, less)
    ensures Test(r, more)
  {
    TestIsMet(r, less);
    TestIsMet(r, more);
  }

  lemma ClearedIsLess(flags: Flags, mask: Flags, i: nat)
    ensures Bit(AndNot(flags, mask), i) ==> Bit(flags, i)
  {
    AndNotBit(flags, mask, i);
  }

  // The operations

  function Tried(s: State, r: Request, wait: bool): (State, Option<Flags>) {
    if Test(r, s.flags) then (if r.clear then s.(flags := AndNot(s.flags, r.flags)) else s, Some(s.flags))
    else (if wait then s.(queue := s.queue + [r]) else s, None)
  }

  function Hits(queue: seq<Request>, flags: Flags): seq<Request> {
    if queue == [] then []
    else
      var last := queue[|queue| - 1];
      Hits(queue[..|queue| - 1], flags) + (if Test(last, flags) then [last] else [])
  }

  function Misses(queue: seq<Request>, flags: Flags): seq<Request> {
    if queue == [] then []
    else
      var last := queue[|queue| - 1];
      Misses(queue[..|queue| - 1], flags) + (if Test(last, flags) then [] else [last])
  }

  /** Everything the released waiters consume. */
  function Consumed(hits: seq<Request>): Flags {
    if hits == [] then 0
    else
      var last := hits[|hits| - 1];
      var rest := Consumed(hits[..|hits| - 1]);
      if last.clear then Or(rest, last.flags) else rest
  }

  function Reverse<T>(s: seq<T>): seq<T> {
    if s == [] then [] else [s[|s| - 1]] + Reverse(s[..|s| - 1])
  }

  function Shown(hits: seq<Request>, flags: Flags): (r: seq<Release>)
    ensures |r| == |hits| && forall i | 0 <= i < |hits| :: r[i] == Release(hits[i], flags)
  {
    if hits == [] then [] else Shown(hits[..|hits| - 1], flags) + [Release(hits[|hits| - 1], flags)]
  }

  /** Waiters leave the temporary queue in the reverse of the order in which they waited. */
  function SetTo(s: State, flags: Flags): State {
    var now := Or(s.flags, flags);
    var hits := Hits(s.queue, now);
    State(AndNot(now, Consumed(hits)), Misses(s.queue, now), s.temp, s.released + Shown(Reverse(hits), now))
  }

  function Cleared(s: State, flags: Flags): State {
    s.(flags := AndNot(s.flags, flags))
  }

  function GivenUp(s: State, r: Request): State {
    s.(queue := Without(s.queue, r))
  }

  // What a set does

  lemma {:induction false} HitsAre(queue: seq<Request>, flags: Flags)
    ensures forall r :: r in Hits(queue, flags) <==> r in queue && Test(r, flags)
    ensures forall r :: r in Misses(queue, flags) <==> r in queue && !Test(r, flags)
    ensures |Hits(queue, flags)| + |Misses(queue, flags)| == |queue|
  {
    if queue != [] {
      var front, last := queue[..|queue| - 1], queue[|queue| - 1];
      assert queue == front + [last];
      HitsAre(front, flags);
    }
  }

  lemma {:induction false} ReverseIs<T>(s: seq<T>)
    ensures |Reverse(s)| == |s| && forall i | 0 <= i < |s| :: Reverse(s)[i] == s[|s| - 1 - i]
  {
    if s != [] {
      ReverseIs(s[..|s| - 1]);
    }
  }

  lemma ReverseMembers<T>(s: seq<T>, x: T)
    ensures x in Reverse(s) <==> x in s
  {
    ReverseIs(s);
    if x in s {
      var i :| 0 <= i < |s| && s[i] == x;
      assert Reverse(s)[|s| - 1 - i] == x;
    }
  }

  lemma {:induction false} ConsumedBit(hits: seq<Request>, i: nat)
    ensures Bit(Consumed(hits), i) <==> exists k :: 0 <= k < |hits| && hits[k].clear && Bit(hits[k].flags, i)
  {
    if hits == [] {
      NoBitsOfZero(i);
    } else {
      var front, last := hits[..|hits| - 1], hits[|hits| - 1];
      ConsumedBit(front, i);
      OrBit(Consumed(front), last.flags, i);
      assert forall k | 0 <= k < |front| :: front[k] == hits[k];
      assert hits[|front|] == last;
    }
  }

  /**
   A set releases exactly the waiters that the old flags together with the new ones satisfy, shows all of them that one
   snapshot, and leaves of it the flags that no released waiter consumes.
   */
  lemma SetReleases(s: State, flags: Flags, r: Request)
    ensures var s' := SetTo(s, flags);
            var now := Or(s.flags, flags);
            && s'.temp == s.temp && |s'.released| + |s'.queue| == |s.released| + |s.queue|
            && (r in s'.queue <==> r in s.queue && !Met(r, now))
            && (Release(r, now) in s'.released[|s.released|..] <==> r in s.queue && Met(r, now))
            && forall x | x in s'.released[|s.released|..] :: x.prev == now
  {
    var now := Or(s.flags, flags);
    var hits := Hits(s.queue, now);
    var out := Shown(Reverse(hits), now);
    HitsAre(s.queue, now);
    ReverseIs(hits);
    ReverseMembers(hits, r);
    TestIsMet(r, now);
    assert (s.released + out)[|s.released|..] == out;
    if r in Reverse(hits) {
      var i :| 0 <= i < |Reverse(hits)| && Reverse(hits)[i] == r;
      assert out[i] == Release(r, now);
    }
  }

  lemma SetLeaves(s: State, flags: Flags, i: nat)
    ensures Bit(SetTo(s, flags).flags, i) <==>
            && (Bit(s.flags, i) || Bit(flags, i))
            && !exists r :: r in s.queue && Met(r, Or(s.flags, flags)) && r.clear && Bit(r.flags, i)
  {
    var now := Or(s.flags, flags);
    var hits := Hits(s.queue, now);
    OrBit(s.flags, flags, i);
    AndNotBit(now, Consumed(hits), i);
    ConsumedBit(hits, i);
    HitsAre(s.queue, now);
    forall r ensures Test(r, now) <==> Met(r, now) {
      TestIsMet(r, now);
    }
    assert forall k | 0 <= k < |hits| :: hits[k] in hits;
  }

  /** A waiter that asked for some flag is never shown an empty word, so the word tells whether it was released. */
  lemma ShownIsNotZero(r: Request, flags: Flags)
    requires r.flags != 0 && Met(r, flags)
    ensures flags != 0
  {
    SomeBit(r.flags);
    forall i: nat ensures !Bit(0, i) {
      NoBitsOfZero(i);
    }
  }

  lemma {:induction false} HitsInOrder(queue: seq<Request>, flags: Flags)
    ensures Subsequence(Hits(queue, flags), queue) && Subsequence(Misses(queue, flags), queue)
  {
    if queue != [] {
      var front, last := queue[..|queue| - 1], queue[|queue| - 1];
      HitsInOrder(front, flags);
      assert queue == front + [last];
      if Test(last, flags) {
        SubsequenceSnoc(Hits(front, flags), front, last);
        SubsequenceSkip(Misses(front, flags), front, last);
        assert Misses(queue, flags) == Misses(front, flags);
      } else {
        SubsequenceSnoc(Misses(front, flags), front, last);
        SubsequenceSkip(Hits(front, flags), front, last);
        assert Hits(queue, flags) == Hits(front, flags);
      }
    }
  }

  /** Those who wait on keep their places; those released are notified in the reverse of the order in which they came. */
  lemma SetOrder(s: State, flags: Flags) returns (hits: seq<Request>)
    ensures Subsequence(SetTo(s, flags).queue, s.queue) && Subsequence(hits, s.queue)
    ensures var s' := SetTo(s, flags);
            && |s'.released| == |s.released| + |hits| && s'.released[..|s.released|] == s.released
            && |Reverse(hits)| == |hits|
            && forall i | 0 <= i < |hits| :: s'.released[|s.released| + i].request == Reverse(hits)[i]
  {
    var now := Or(s.flags, flags);
    hits := Hits(s.queue, now);
    HitsInOrder(s.queue, now);
    ReverseIs(hits);
  }

  /** A test succeeds just when the request is met: it shows the flags there were, and consumes those it clears. */
  lemma TriedIs(s: State, r: Request, wait: bool, i: nat)
    ensures var (s', shown) := Tried(s, r, wait);
            && (shown == if Met(r, s.flags) then Some(s.flags) else None)
            && (Bit(s'.flags, i) <==> Bit(s.flags, i) && !(Met(r, s.flags) && r.clear && Bit(r.flags, i)))
            && s'.queue == s.queue + (if !Met(r, s.flags) && wait then [r] else [])
            && s'.temp == s.temp && s'.released == s.released
  {
    TestIsMet(r, s.flags);
    AndNotBit(s.flags, r.flags, i);
  }

  /** Clearing takes away the given flags, and releases nobody. */
  lemma ClearedIs(s: State, flags: Flags, i: nat)
    ensures var s' := Cleared(s, flags);
            && (Bit(s'.flags, i) <==> Bit(s.flags, i) && !Bit(flags, i))
            && s'.queue == s.queue && s'.temp == s.temp && s'.released == s.released
  {
    AndNotBit(s.flags, flags, i);
  }

  lemma GivenUpIs(s: State, r: Request)
    requires NoDuplicates(s.queue)
    ensures var s' := GivenUp(s, r);
            s' == s.(queue := s'.queue) && forall x :: x in s'.queue <==> x in s.queue && x != r
  {
    WithoutIs(s.queue, r);
  }

  // No waiter is forgotten

  /** Nobody waits for what is there. */
  ghost predicate Inv(s: State) {
    s.temp == [] && forall r | r in s.queue :: !Test(r, s.flags)
  }

  lemma TriedInv(s: State, r: Request, wait: bool)
    requires Inv(s)
    ensures Inv(Tried(s, r, wait).0)
  {
    var s' := Tried(s, r, wait).0;
    forall x | x in s'.queue && x in s.queue ensures !Test(x, s'.flags) {
      if Test(x, s'.flags) {
        forall i: nat ensures Bit(s'.flags, i) ==> Bit(s.flags, i) {
          ClearedIsLess(s.flags, r.flags, i);
        }
        MetMonotone(x, s'.flags, s.flags);
      }
    }
  }

  lemma SetInv(s: State, flags: Flags)
    requires Inv(s)
    ensures Inv(SetTo(s, flags))
  {
    var now := Or(s.flags, flags);
    var s' := SetTo(s, flags);
    HitsAre(s.queue, now);
    forall x | x in s'.queue ensures !Test(x, s'.flags) {
      if Test(x, s'.flags) {
        forall i: nat ensures Bit(s'.flags, i) ==> Bit(now, i) {
          ClearedIsLess(now, Consumed(Hits(s.queue, now)), i);
        }
        MetMonotone(x, s'.flags, now);
      }
    }
  }

  lemma ClearedInv(s: State, flags: Flags)
    requires Inv(s)
    ensures Inv(Cleared(s, flags))
  {
    var s' := Cleared(s, flags);
    forall x | x in s'.queue ensures !Test(x, s'.flags) {
      if Test(x, s'.flags) {
        forall i: nat ensures Bit(s'.flags, i) ==> Bit(s.flags, i) {
          ClearedIsLess(s.flags, flags, i);
        }
        MetMonotone(x, s'.flags, s.flags);
      }
    }
  }

  lemma {:induction false} WithoutSubset(s: seq<Request>, x: Request)
    ensures forall y | y in Without(s, x) :: y in s
  {
    if s != [] {
      assert s == s[..|s| - 1] + [s[|s| - 1]];
      WithoutSubset(s[..|s| - 1], x);
    }
  }

  datatype Op =
    | Wait(r: Request, wait: bool)
    | SetFlags(flags: Flags)
    | ClearFlags(flags: Flags)
    | GiveUp(r: Request)

  function Next(s: State, op: Op): State {
    match op
    case Wait(r, wait) => Tried(s, r, wait).0
    case SetFlags(flags) => SetTo(s, flags)
    case ClearFlags(flags) => Cleared(s, flags)
    case GiveUp(r) => GivenUp(s, r)
  }

  ghost predicate IsRun(states: seq<State>, ops: seq<Op>) {
    && |states| == |ops| + 1 && states[0] == State(0, [], [], [])
    && forall k {:trigger ops[k]} | 0 <= k < |ops| :: states[k + 1] == Next(states[k], ops[k])
  }

  /** In every state of every run no queued request is met by the current flags, and the temporary queue is empty. */
  lemma {:induction false} RunsForgetNobody(states: seq<State>, ops: seq<Op>, k: nat)
    requires IsRun(states, ops) && k < |states|
    ensures Inv(states[k]) && forall r | r in states[k].queue :: !Met(r, states[k].flags)
  {
    if k > 0 {
      RunsForgetNobody(states, ops, k - 1);
      var s := states[k - 1];
      match ops[k - 1]
      case Wait(r, wait) => TriedInv(s, r, wait);
      case SetFlags(flags) => SetInv(s, flags);
      case ClearFlags(flags) => ClearedInv(s, flags);
      case GiveUp(r) => WithoutSubset(s.queue, r);
    }
    forall r | r in states[k].queue ensures !Met(r, states[k].flags) {
      TestIsMet(r, states[k].flags);
    }
  }

  // The object

  lemma SnocHits(queue: seq<Request>, k: nat, flags: Flags)
    requires k < |queue|
    ensures Hits(queue[..k + 1], flags) == Hits(queue[..k], flags) + (if Test(queue[k], flags) then [queue[k]] else [])
    ensures Misses(queue[..k + 1], flags) ==
            Misses(queue[..k], flags) + (if Test(queue[k], flags) then [] else [queue[k]])
  {
    assert queue[..k + 1][..k] == queue[..k];
  }

  lemma SnocConsumed(hits: seq<Request>, r: Request)
    ensures Consumed(hits + [r]) == if r.clear then Or(Consumed(hits), r.flags) else Consumed(hits)
    ensures Reverse(hits + [r]) == [r] + Reverse(hits)
  {
    assert (hits + [r])[..|hits|] == hits;
  }

  lemma OneLeaves(all: seq<Request>, k: nat, kept: seq<Request>)
    requires k < |all|
    ensures var queue := kept + all[k..];
            && queue[|kept|] == all[k] && queue[..|kept|] + queue[|kept| + 1..] == kept + all[k + 1..]
            && queue == kept + [all[k]] + all[k + 1..]
  {
  }

  class Evf {
    var flags: Flags
    var queue: seq<Request>
    var temp: seq<Request>
    ghost var released: seq<Release>

    ghost function View(): State
      reads this
    {
      State(flags, queue, temp, released)
    }

    constructor ()
      ensures View() == State(0, [], [], [])
    {
      flags, queue, temp, released := 0, [], [], [];
    }

    /** The flags shown to the waiter, if its request was met. */
    method TestAndWait(r: Request, wait: bool) returns (prev: Option<Flags>)
      modifies this
      ensures (View(), prev) == Tried(old(View()), r, wait)
    {
      prev := None;
      var intersect := And(r.flags, flags);
      if (r.all && intersect == r.flags) || (!r.all && intersect != 0) {
        prev := Some(flags);
        if r.clear {
          flags := AndNot(flags, r.flags);
        }
      } else if wait {
        queue := queue + [r];
      }
    }

    method NotifyTemp(ghost prev: Flags)
      modifies `temp, `released
      ensures temp == [] && released == old(released) + Shown(old(temp), prev)
    {
      ghost var all, before := temp, released;
      ghost var n := 0;
      while temp != []
        invariant 0 <= n <= |all| && temp == all[n..]
        invariant released == before + Shown(all[..n], prev)
        decreases |temp|
      {
        var first := temp[0];
        temp := temp[1..];
        released := released + [Release(first, prev)];
        assert all[..n + 1][..n] == all[..n];
        n := n + 1;
      }
      assert all[..n] == all;
    }

    /** Moves the waiters to be released to the temporary queue and adds up what they consume. */
    method Gather() returns (flagsToClear: Flags)
      requires temp == []
      modifies `queue, `temp
      ensures queue == Misses(old(queue), flags) && temp == Reverse(Hits(old(queue), flags))
      ensures flagsToClear == Consumed(Hits(old(queue), flags))
    {
      ghost var all := queue;
      ghost var k := 0;
      var i := 0;
      flagsToClear := 0;
      while i < |queue|
        invariant 0 <= k <= |all|
        invariant i == |Misses(all[..k], flags)| && queue == Misses(all[..k], flags) + all[k..]
        invariant temp == Reverse(Hits(all[..k], flags)) && flagsToClear == Consumed(Hits(all[..k], flags))
        decreases |all| - k
      {
        var r := queue[i];
        ghost var hits, kept := Hits(all[..k], flags), Misses(all[..k], flags);
        OneLeaves(all, k, kept);
        SnocHits(all, k, flags);
        SnocConsumed(hits, r);
        var intersect := And(r.flags, flags);
        if (r.all && intersect == r.flags) || (!r.all && intersect != 0) {
          assert Hits(all[..k + 1], flags) == hits + [r] && kept + [] == kept;
          if r.clear {
            flagsToClear := Or(flagsToClear, r.flags);
          }
          queue := queue[..i] + queue[i + 1..];
          temp := [r] + temp;
        } else {
          assert hits + [] == hits && Misses(all[..k + 1], flags) == kept + [r];
          i := i + 1;
        }
        assert queue == Misses(all[..k + 1], flags) + all[k + 1..];
        k := k + 1;
      }
      assert all[..k] == all && all[k..] == [];
    }

    method SetOrClear(bits: Flags, raise: bool)
      requires temp == []
      modifies this
      ensures View() == if raise then SetTo(old(View()), bits) else Cleared(old(View()), bits)
    {
      if raise {
        flags := Or(flags, bits);
        var flagsToClear := Gather();
        ghost var prev := flags;
        flags := AndNot(flags, flagsToClear);
        NotifyTemp(prev);
      } else {
        flags := AndNot(flags, bits);
      }
    }
  }
}
