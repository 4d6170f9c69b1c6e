/** The map and alloc commands of engine/qemu-wasm/qemu-io-cmds.c over an image whose allocation is
    reported in arbitrary pieces. */
module AllocationMap {
  /** What map prints for one line. */
  datatype Extent = Extent(offset: nat, num: nat, isAllocated: bool)

  const EIO: int := 5

  function Repeat(b: bool, n: nat): (s: seq<bool>)
    ensures |s| == n && forall i | 0 <= i < n :: s[i] == b
  {
    seq(n, _ => b)
  }

  /** The part of the image that the extents describe. */
  function Expand(es: seq<Extent>): seq<bool> {
    if es == [] then []
    else Expand(es[..|es| - 1]) + Repeat(es[|es| - 1].isAllocated, es[|es| - 1].num)
  }

  /** Each extent starts where the one before it ends, and none is empty. */
  ghost predicate Tiling(es: seq<Extent>) {
    forall i | 0 <= i < |es| :: es[i].num > 0 && es[i].offset == |Expand(es[..i])|
  }

  ghost predicate Alternating(es: seq<Extent>) {
    forall i | 0 < i < |es| :: es[i].isAllocated != es[i - 1].isAllocated
  }

  function CountTrue(s: seq<bool>): nat {
    if s == [] then 0 else CountTrue(s[..|s| - 1]) + if s[|s| - 1] then 1 else 0
  }

  function Min(a: int, b: int): int { if a < b then a else b }

  // --- extents ---

  lemma AddExtent(es: seq<Extent>, e: Extent)
    requires Tiling(es) && e.num > 0 && e.offset == |Expand(es)|
    ensures Tiling(es + [e]) && Expand(es + [e]) == Expand(es) + Repeat(e.isAllocated, e.num)
  {
    var r := es + [e];
    assert r[..|es|] == es;
    forall i | 0 <= i < |r| ensures r[i].num > 0 && r[i].offset == |Expand(r[..i])| {
      if i < |es| { assert r[..i] == es[..i]; }
    }
  }

  /** The extents describe the image up to `offset`. */
  ghost predicate Covers(alloc: seq<bool>, es: seq<Extent>, offset: nat) {
    Tiling(es) && offset <= |alloc| && Expand(es) == alloc[..offset]
  }

  lemma CoverMore(alloc: seq<bool>, es: seq<Extent>, e: Extent)
    requires Covers(alloc, es, e.offset) && e.num > 0 && e.offset + e.num <= |alloc|
    requires forall i | e.offset <= i < e.offset + e.num :: alloc[i] == e.isAllocated
    ensures Covers(alloc, es + [e], e.offset + e.num)
    ensures Alternating(es) && (es != [] ==> es[|es| - 1].isAllocated != e.isAllocated) ==> Alternating(es + [e])
  {
    AddExtent(es, e);
    assert alloc[..e.offset + e.num] == alloc[..e.offset] + alloc[e.offset..e.offset + e.num];
    assert Repeat(e.isAllocated, e.num) == alloc[e.offset..e.offset + e.num];
  }

  /** Where the last extent starts, the status changes. */
  lemma LastRun(es: seq<Extent>)
    requires Tiling(es) && es != []
    ensures var s, e := Expand(es), es[|es| - 1];
            && |s| == e.offset + e.num && s[..e.offset] == Expand(es[..|es| - 1])
            && (forall i | e.offset <= i < |s| :: s[i] == e.isAllocated)
            && (Alternating(es) && e.offset > 0 ==> s[e.offset - 1] != e.isAllocated)
  {}

  /** There is only one alternating tiling: the printed map does not depend on the pieces in which
      the image reports its allocation. */
  lemma {:induction false} TilingUnique(es: seq<Extent>, fs: seq<Extent>)
    requires Tiling(es) && Tiling(fs) && Alternating(es) && Alternating(fs) && Expand(es) == Expand(fs)
    ensures es == fs
    decreases |es|
  {
    if es != [] { LastRun(es); }
    if fs != [] { LastRun(fs); }
    if es != [] && fs != [] {
      var e, f, s := es[|es| - 1], fs[|fs| - 1], Expand(es);
      assert s[|s| - 1] == e.isAllocated == f.isAllocated;
      assert e.offset == f.offset;
      Shorter(es);
      Shorter(fs);
      TilingUnique(es[..|es| - 1], fs[..|fs| - 1]);
      assert es == es[..|es| - 1] + [e] && fs == fs[..|fs| - 1] + [f];
    }
  }

  lemma Shorter(es: seq<Extent>)
    requires Tiling(es) && es != []
    ensures Tiling(es[..|es| - 1]) && (Alternating(es) ==> Alternating(es[..|es| - 1]))
  {
    var r := es[..|es| - 1];
    forall i | 0 <= i < |r| ensures r[i].num > 0 && r[i].offset == |Expand(r[..i])| { assert r[..i] == es[..i]; }
  }

  lemma {:induction false} CountUniform(s: seq<bool>, b: bool)
    requires forall i | 0 <= i < |s| :: s[i] == b
    ensures CountTrue(s) == if b then |s| else 0
  {
    if s != [] { CountUniform(s[..|s| - 1], b); }
  }

  lemma {:induction false} CountConcat(s: seq<bool>, t: seq<bool>)
    ensures CountTrue(s + t) == CountTrue(s) + CountTrue(t)
  {
    if t == [] {
      assert s + t == s;
    } else {
      assert (s + t)[..|s + t| - 1] == s + t[..|t| - 1];
      CountConcat(s, t[..|t| - 1]);
    }
  }

  /** A block device: which bytes of the image are allocated. `errors` counts failed queries. */
  class Image {
    const alloc: seq<bool>
    ghost var errors: nat

    constructor (alloc: seq<bool>)
      ensures this.alloc == alloc && errors == 0
    {
      this.alloc := alloc;
      errors := 0;
    }

    /** bdrv_is_allocated: fails, or reports some non-empty piece of one status, or an empty one at
        the end of the image or of the request. */
    method IsAllocated(offset: nat, bytes: nat) returns (ret: int, num: nat)
      modifies this
      ensures ret < 0 ==> errors == old(errors) + 1
      ensures ret >= 0 ==>
                && errors == old(errors) && (ret == 0 || ret == 1) && num <= bytes
                && (num == 0 <==> bytes == 0 || offset >= |alloc|) && (num > 0 ==> offset + num <= |alloc|)
                && (num == 0 ==> ret == 0)
                && forall i | offset <= i < offset + num :: alloc[i] == (ret == 1)
    {
      var fails: bool := *;
      if fails {
        errors := errors + 1;
        ret :| ret < 0;
        num := 0;
      } else if bytes == 0 || offset >= |alloc| {
        ret, num := 0, 0;
      } else {
        assert forall i | offset <= i < offset + 1 :: alloc[i] == alloc[offset];
        num :| 0 < num <= bytes && offset + num <= |alloc| && forall i | offset <= i < offset + num :: alloc[i] == alloc[offset];
        ret := if alloc[offset] then 1 else 0;
      }
    }

    /** map_is_allocated: the pieces of one status joined; without errors, as many as there are. */
    method MapIsAllocated(offset: nat, bytes: nat) returns (ret: int, pnum: nat)
      modifies this
      ensures errors >= old(errors) && (ret < 0 ==> errors > old(errors))
      ensures ret >= 0 ==>
                && (ret == 0 || ret == 1) && pnum <= bytes
                && (pnum == 0 <==> bytes == 0 || offset >= |alloc|) && (pnum > 0 ==> offset + pnum <= |alloc|)
                && (forall i | offset <= i < offset + pnum :: alloc[i] == (ret == 1))
                && (errors == old(errors) && pnum > 0 && pnum < bytes && offset + pnum < |alloc| ==>
                      alloc[offset + pnum] != (ret == 1))
    {
      var o, b := offset, bytes;
      var num;
      ret, num := IsAllocated(o, b);
      if ret < 0 {
        return ret, 0;
      }
      var firstret := ret;
      pnum := num;
      while b > 0 && ret == firstret
        invariant errors >= old(errors) && ret == firstret && (firstret == 0 || firstret == 1) && num <= b
        invariant offset + pnum == o + num && offset + bytes == o + b && pnum <= bytes && b >= num
        invariant pnum == 0 <==> bytes == 0 || offset >= |alloc|
        invariant pnum > 0 ==> offset + pnum <= |alloc| && num > 0
        invariant forall i | offset <= i < offset + pnum :: alloc[i] == (firstret == 1)
        decreases b, num
      {
        o := o + num;
        b := b - num;
        ret, num := IsAllocated(o, b);
        if ret == firstret && num > 0 {
          pnum := pnum + num;
        } else {
          break;
        }
      }
      return firstret, pnum;
    }

    /** map_f; `length` is what blk_getlength returns, `es` the lines that are printed. */
    method MapF(length: int) returns (ret: int, es: seq<Extent>, ghost end: nat)
      modifies this
      ensures errors >= old(errors)
      ensures Covers(alloc, es, end) && (ret == 0 ==> end == length)
      ensures length < 0 ==> ret == length && end == 0
      ensures errors == old(errors) && length >= 0 ==>
                && Alternating(es) && end == Min(length, |alloc|)
                && ret == if length <= |alloc| then 0 else -EIO
    {
      hide Expand, Tiling, Alternating, Covers;
      es, end := [], 0;
      NothingCovered(alloc);
      if length < 0 {
        ret := length;
        return;
      }
      var offset: nat, bytes: nat := 0, length;
      while bytes != 0
        invariant errors >= old(errors) && offset + bytes == length && offset <= |alloc| && offset == end
        invariant Covers(alloc, es, offset)
        invariant errors == old(errors) ==>
                    && Alternating(es)
                    && (es != [] && bytes > 0 && offset < |alloc| ==> alloc[offset] != es[|es| - 1].isAllocated)
        decreases bytes
      {
        var num;
        ret, num := MapIsAllocated(offset, bytes);
        if ret < 0 {
          return;
        } else if num == 0 {
          ret := -EIO;
          return;
        }
        CoverMore(alloc, es, Extent(offset, num, ret == 1));
        es := es + [Extent(offset, num, ret == 1)];
        offset := offset + num;
        bytes := bytes - num;
        end := offset;
      }
      ret := 0;
    }

    /** alloc_f; the optional count is a sector. */
    method AllocF(offset: int, count: int) returns (ret: int, sumAlloc: nat, total: nat)
      modifies this
      ensures errors >= old(errors)
      ensures offset < 0 ==> ret == offset
      ensures offset >= 0 && count < 0 ==> ret == count
      ensures errors == old(errors) && offset >= 0 && count >= 0 ==> ret == 0
      ensures ret == 0 ==>
                && offset >= 0 && count >= 0
                && var end := Min(offset + count, |alloc|);
                   if end <= offset then total == 0 && sumAlloc == 0
                   else total == end - offset && sumAlloc == CountTrue(alloc[offset..end])
    {
      sumAlloc, total := 0, 0;
      if offset < 0 {
        return offset, sumAlloc, total;
      }
      if count < 0 {
        return count, sumAlloc, total;
      }
      var o: nat, remaining: nat := offset, count;
      total := count;
      while remaining != 0
        invariant errors >= old(errors) && offset <= o && remaining <= total <= count
        invariant o + remaining == offset + total && (o > offset ==> o <= |alloc|)
        invariant remaining > 0 ==> total == count
        invariant remaining == 0 ==> total == if count == 0 || offset >= |alloc| then 0 else Min(offset + count, |alloc|) - offset
        invariant sumAlloc == if o <= |alloc| then CountTrue(alloc[offset..o]) else 0
        decreases remaining
      {
        var num;
        ret, num := IsAllocated(o, remaining);
        if ret < 0 {
          return;
        }
        if num > 0 {
          assert alloc[offset..o + num] == alloc[offset..o] + alloc[o..o + num];
          CountConcat(alloc[offset..o], alloc[o..o + num]);
          CountUniform(alloc[o..o + num], ret == 1);
        }
        o := o + num;
        remaining := remaining - num;
        if ret != 0 {
          sumAlloc := sumAlloc + num;
        }
        if num == 0 {
          total := total - remaining;
          remaining := 0;
        }
      }
      ret := 0;
    }
  }

  lemma NothingCovered(alloc: seq<bool>)
    ensures Covers(alloc, [], 0) && Alternating([])
  {}
}
