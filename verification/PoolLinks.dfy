/**
 The doubly linked free lists in memory: what inserting and unlinking a block does to the words of the lists, of
 the headers and of the callers' payloads.
 */
module PoolLinks {
  import opened SizeClass
  import opened PoolHeap
  import opened Seqs
  import opened PoolMemory

  /** A word that holds a free-list link: of a free block, or of the sentinel, whose links carry no meaning. */
  ghost predicate LinkWord(h: Heap, nil: Addr, x: Addr, a: int) {
    h.IsFreeOr(x, nil) && (a == x + 8 || a == x + 12)
  }

  lemma LinkWordApart(h: Heap, nil: Addr, x: Addr, a: int, c: Addr)
    requires BlocksOk(h) && Apart(h) && NullApart(h, nil) && LinkWord(h, nil, x, a) && c in h.blocks
    ensures a != c + 4
    ensures h.blocks[c].prev != NO_BLOCK ==> a != c
  {
    assert BlockOk(h, c);
    if x == nil {
      if h.blocks[c].prev != NO_BLOCK {
        Gap(h, h.blocks[c].prev, c);
      }
    } else {
      assert BlockOk(h, x);
      if c < x {
        Gap(h, c, x);
      } else if x < c {
        Gap(h, x, c);
      }
    }
  }

  lemma LinkWriteWords(m: Memory, h: Heap, nil: Addr, x: Addr, a: int, v: int)
    requires BlocksOk(h) && Apart(h) && NullApart(h, nil) && LinkWord(h, nil, x, a) && Words(m, h)
    ensures Words(m[a := v], h)
  {
    forall c | c in h.blocks ensures HeaderOk(m[a := v], h, c) && PrevPhysOk(m[a := v], h, c) {
      assert HeaderOk(m, h, c) && PrevPhysOk(m, h, c);
      LinkWordApart(h, nil, x, a, c);
    }
  }

  lemma LinkWriteKeeps(m: Memory, h: Heap, nil: Addr, x: Addr, a: int, v: int)
    requires BlocksOk(h) && Apart(h) && NullApart(h, nil) && LinkWord(h, nil, x, a)
    ensures KeepsPayloads(m, m[a := v], h)
  {
    forall b: Addr, w: int | Inside(h, b, w) && h.IsLive(b) ensures W(m[a := v], w) == W(m, w) {
      if x != nil {
        assert BlockOk(h, x) && BlockOk(h, b);
        if b < x {
          Gap(h, b, x);
        } else {
          Gap(h, x, b);
        }
      }
    }
  }

  /** One more write of a link word since memory was `k`. */
  lemma LinkWrite(k: Memory, m: Memory, h: Heap, nil: Addr, x: Addr, a: int, v: int)
    requires BlocksOk(h) && Apart(h) && NullApart(h, nil) && LinkWord(h, nil, x, a)
    ensures KeepsPayloads(k, m, h) ==> KeepsPayloads(k, m[a := v], h)
    ensures Words(m, h) ==> Words(m[a := v], h)
  {
    LinkWriteKeeps(m, h, nil, x, a, v);
    if Words(m, h) {
      LinkWriteWords(m, h, nil, x, a, v);
    }
  }

  /** Links of different blocks are different words. */
  lemma LinksApart(h: Heap, nil: Addr, x: Addr, y: Addr)
    requires BlocksOk(h) && Apart(h) && NullApart(h, nil) && h.IsFree(y) && x != y
    requires h.IsFreeOr(x, nil)
    ensures x + 8 != y + 12 && x + 12 != y + 8
  {
    assert BlockOk(h, y);
    if x != nil {
      assert BlockOk(h, x);
      if x < y {
        Gap(h, x, y);
      } else {
        Gap(h, y, x);
      }
    }
  }

  lemma NilIsNoBlock(h: Heap, nil: Addr)
    requires BlocksOk(h) && NullApart(h, nil)
    ensures nil !in h.blocks
  {
  }

  // Insertion

  /** `insert_free_block`: the writes to memory. */
  function InsertLinks(m: Memory, b: Addr, head: Addr, nil: Addr): Memory {
    m[b + 8 := head][b + 12 := nil][head + 12 := b]
  }

  lemma InsertWords(m: Memory, h: Heap, nil: Addr, b: Addr, head: Addr)
    requires BlocksOk(h) && Apart(h) && NullApart(h, nil) && h.IsFree(b) && h.IsFreeOr(head, nil)
    ensures Words(m, h) ==> Words(InsertLinks(m, b, head, nil), h)
    ensures KeepsPayloads(m, InsertLinks(m, b, head, nil), h)
  {
    var m1 := m[b + 8 := head];
    var m2 := m1[b + 12 := nil];
    LinkWrite(m, m, h, nil, b, b + 8, head);
    LinkWrite(m, m1, h, nil, b, b + 12, nil);
    LinkWrite(m, m2, h, nil, head, head + 12, b);
  }

  /** A list none of whose members is touched keeps its links. */
  lemma LinksFrame(m: Memory, n: Memory, s: seq<Addr>, nil: Addr)
    requires LinksOk(m, s, nil)
    requires forall x | x in s :: W(n, x + 8) == W(m, x + 8) && W(n, x + 12) == W(m, x + 12)
    ensures LinksOk(n, s, nil)
  {
    forall i | 0 <= i < |s| ensures LinkOk(n, s, nil, i) {
      assert LinkOk(m, s, nil, i) && s[i] in s;
    }
  }

  lemma InsertLinksOk(m: Memory, h: Heap, nil: Addr, b: Addr)
    requires BlocksOk(h) && Apart(h) && NullApart(h, nil) && Listed(h) && Links(m, h, nil)
    requires h.IsFree(b) && b !in h.List(h.ClassOf(b))
    ensures Links(InsertLinks(m, b, At(h.List(h.ClassOf(b)), 0, nil), nil), Insert(h, b), nil)
  {
    var s := h.List(h.ClassOf(b));
    var head := At(s, 0, nil);
    var g := Insert(h, b);
    var n := InsertLinks(m, b, head, nil);
    NilIsNoBlock(h, nil);
    forall c ensures LinksOk(n, g.List(c), nil) {
      assert LinksOk(m, h.List(c), nil);
      if c == h.ClassOf(b) {
        InsertHereOk(m, h, nil, b);
      } else {
        forall x | x in h.List(c) ensures W(n, x + 8) == W(m, x + 8) && W(n, x + 12) == W(m, x + 12) {
          LinksApart(h, nil, b, x);
          assert head != nil ==> head in s;
          LinksApart(h, nil, head, x);
        }
        LinksFrame(m, n, h.List(c), nil);
      }
    }
  }

  lemma InsertHereOk(m: Memory, h: Heap, nil: Addr, b: Addr)
    requires BlocksOk(h) && Apart(h) && NullApart(h, nil) && Listed(h)
    requires h.IsFree(b) && b !in h.List(h.ClassOf(b)) && b != nil
    requires LinksOk(m, h.List(h.ClassOf(b)), nil)
    ensures var s := h.List(h.ClassOf(b)); LinksOk(InsertLinks(m, b, At(s, 0, nil), nil), [b] + s, nil)
  {
    var s := h.List(h.ClassOf(b));
    var head := At(s, 0, nil);
    var n := InsertLinks(m, b, head, nil);
    var t := [b] + s;
    NilIsNoBlock(h, nil);
    assert NoDuplicates(s);
    assert head == nil || head in s;
    LinksApart(h, nil, head, b);
    forall i | 0 <= i < |t| ensures LinkOk(n, t, nil, i) {
      if i > 0 {
        var x := s[i - 1];
        assert x in s && LinkOk(m, s, nil, i - 1);
        LinksApart(h, nil, b, x);
        if i > 1 {
          assert head == s[0] && head != x;
          LinksApart(h, nil, head, x);
        }
      }
    }
  }

  // Unlinking

  /** `remove_free_block`: the writes to memory. */
  function RemoveLinks(m: Memory, b: Addr): Memory {
    m[W(m, b + 8) + 12 := W(m, b + 12)][W(m, b + 12) + 8 := W(m, b + 8)]
  }

  /** What the links of a listed block say: its neighbours in the list. */
  lemma ListNeighbours(m: Memory, h: Heap, nil: Addr, b: Addr) returns (i: int)
    requires Listed(h) && Links(m, h, nil) && b in h.blocks && b in h.List(h.ClassOf(b))
    ensures var s := h.List(h.ClassOf(b));
            0 <= i < |s| && s[i] == b && W(m, b + 8) == At(s, i + 1, nil) && W(m, b + 12) == At(s, i - 1, nil)
    ensures h.IsFreeOr(At(h.List(h.ClassOf(b)), i + 1, nil), nil)
    ensures h.IsFreeOr(At(h.List(h.ClassOf(b)), i - 1, nil), nil)
  {
    var s := h.List(h.ClassOf(b));
    i :| 0 <= i < |s| && s[i] == b;
    assert LinksOk(m, s, nil) && LinkOk(m, s, nil, i);
    assert i + 1 < |s| ==> s[i + 1] in s;
    assert i > 0 ==> s[i - 1] in s;
  }

  lemma RemoveWords(m: Memory, h: Heap, nil: Addr, b: Addr)
    requires BlocksOk(h) && Apart(h) && NullApart(h, nil) && Listed(h) && Links(m, h, nil)
    requires b in h.blocks && b in h.List(h.ClassOf(b))
    ensures Words(m, h) ==> Words(RemoveLinks(m, b), h)
    ensures KeepsPayloads(m, RemoveLinks(m, b), h)
  {
    var i := ListNeighbours(m, h, nil, b);
    var s := h.List(h.ClassOf(b));
    var next, prev := At(s, i + 1, nil), At(s, i - 1, nil);
    var m1 := m[next + 12 := prev];
    LinkWrite(m, m, h, nil, next, next + 12, prev);
    LinkWrite(m, m1, h, nil, prev, prev + 8, next);
  }

  lemma RemoveLinksOk(m: Memory, h: Heap, nil: Addr, b: Addr)
    requires BlocksOk(h) && Apart(h) && NullApart(h, nil) && Listed(h) && Links(m, h, nil)
    requires b in h.blocks && b in h.List(h.ClassOf(b))
    ensures Links(RemoveLinks(m, b), Remove(h, b), nil)
  {
    var i := ListNeighbours(m, h, nil, b);
    var s := h.List(h.ClassOf(b));
    var next, prev := At(s, i + 1, nil), At(s, i - 1, nil);
    var g := Remove(h, b);
    var n := RemoveLinks(m, b);
    NilIsNoBlock(h, nil);
    forall c ensures LinksOk(n, g.List(c), nil) {
      assert LinksOk(m, h.List(c), nil);
      if c == h.ClassOf(b) {
        RemoveHereOk(m, h, nil, s, i);
        WithoutAt(s, i);
      } else {
        assert next == nil || next in s;
        assert prev == nil || prev in s;
        forall x | x in h.List(c) ensures W(n, x + 8) == W(m, x + 8) && W(n, x + 12) == W(m, x + 12) {
          LinksApart(h, nil, next, x);
          LinksApart(h, nil, prev, x);
        }
        LinksFrame(m, n, h.List(c), nil);
      }
    }
  }

  lemma RemoveHereOk(m: Memory, h: Heap, nil: Addr, s: seq<Addr>, i: int)
    requires BlocksOk(h) && Apart(h) && NullApart(h, nil) && 0 <= i < |s| && NoDuplicates(s)
    requires forall x | x in s :: h.IsFree(x)
    requires LinksOk(m, s, nil)
    ensures LinksOk(RemoveLinks(m, s[i]), s[..i] + s[i + 1..], nil)
  {
    var next, prev := At(s, i + 1, nil), At(s, i - 1, nil);
    var n := RemoveLinks(m, s[i]);
    var t := s[..i] + s[i + 1..];
    NilIsNoBlock(h, nil);
    assert next == nil || next in s;
    assert prev == nil || prev in s;
    assert LinkOk(m, s, nil, i);
    assert n == m[next + 12 := prev][prev + 8 := next];
    forall j | 0 <= j < |t| ensures LinkOk(n, t, nil, j) {
      var k := if j < i then j else j + 1;
      NeighboursWithout(s, i, j, nil);
      assert LinkOk(m, s, nil, k);
      RemoveWordsAt(m, h, nil, s, i, k);
    }
  }

  /** Neighbours in a list without its i-th member. */
  lemma NeighboursWithout(s: seq<Addr>, i: int, j: int, nil: Addr)
    requires 0 <= i < |s| && 0 <= j < |s| - 1
    ensures var t, k := s[..i] + s[i + 1..], if j < i then j else j + 1;
            && t[j] == s[k]
            && At(t, j + 1, nil) == (if k == i - 1 then At(s, i + 1, nil) else At(s, k + 1, nil))
            && At(t, j - 1, nil) == (if k == i + 1 then At(s, i - 1, nil) else At(s, k - 1, nil))
  {
  }

  lemma RemoveWordsAt(m: Memory, h: Heap, nil: Addr, s: seq<Addr>, i: int, k: int)
    requires BlocksOk(h) && Apart(h) && NullApart(h, nil) && NoDuplicates(s)
    requires 0 <= i < |s| && 0 <= k < |s| && k != i
    requires forall x | x in s :: h.IsFree(x)
    ensures var next, prev := At(s, i + 1, nil), At(s, i - 1, nil);
            var n := m[next + 12 := prev][prev + 8 := next];
            && W(n, s[k] + 8) == (if k == i - 1 then next else W(m, s[k] + 8))
            && W(n, s[k] + 12) == (if k == i + 1 then prev else W(m, s[k] + 12))
  {
    var next, prev := At(s, i + 1, nil), At(s, i - 1, nil);
    NilIsNoBlock(h, nil);
    assert s[k] in s;
    assert next == nil || next in s;
    assert prev == nil || prev in s;
    assert s[k] == next <==> k == i + 1;
    assert s[k] == prev <==> k == i - 1;
    if s[k] != next {
      LinksApart(h, nil, next, s[k]);
    }
    if s[k] != prev {
      LinksApart(h, nil, prev, s[k]);
    }
  }
}
