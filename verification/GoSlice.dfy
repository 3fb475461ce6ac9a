/** Go's byte slices: a window of `len` bytes, growable to `cap`, onto a shared backing array. */
module GoSlice {
  import opened Bytes

  datatype Slice = Slice(arr: array<byte>, off: nat, len: nat, cap: nat) {
    ghost predicate Valid() {
      len <= cap && off + cap <= arr.Length
    }

    /** The bytes the slice currently shows. */
    ghost function Elems(): (s: seq<byte>)
      requires Valid()
      reads arr
      ensures |s| == len
    {
      arr[off..off + len]
    }

    /** A part of what the slice shows is a part of the array. */
    lemma Window(at: nat, n: nat)
      requires Valid() && at + n <= len
      ensures arr[off + at..off + at + n] == Elems()[at..at + n] == Sub(at, at + n).Elems()
    {
      var l, b, r := arr[off + at..off + at + n], Elems(), Elems()[at..at + n];
      forall i | 0 <= i < n ensures l[i] == r[i] {
        assert l[i] == arr[off + at + i];
        assert b[at + i] == arr[off + (at + i)];
        assert r[i] == b[at + i];
      }
    }

    /** `s[lo:hi]`: the same backing array, the capacity that is left from `lo` on. */
    function Sub(lo: nat, hi: nat): (t: Slice)
      requires Valid() && lo <= hi <= cap
      ensures t.Valid()
    {
      Slice(arr, off + lo, hi - lo, cap - lo)
    }
  }

  method Make(n: nat) returns (s: Slice)
    ensures s.Valid() && fresh(s.arr) && s.len == n && s.cap == n && s.off == 0
  {
    var a := new byte[n];
    s := Slice(a, 0, n, n);
  }

  /** `copy(dst[at:], p)` for a source that fits. */
  method CopyInto(dst: Slice, at: nat, p: seq<byte>)
    requires dst.Valid() && at + |p| <= dst.cap
    modifies dst.arr
    ensures dst.arr[..] == old(dst.arr[..dst.off + at]) + p + old(dst.arr[dst.off + at + |p|..])
  {
    var base := dst.off + at;
    forall i | 0 <= i < |p| {
      dst.arr[base + i] := p[i];
    }
    assert dst.arr[..base] == old(dst.arr[..base]);
    assert dst.arr[base..base + |p|] == p;
    assert dst.arr[base + |p|..] == old(dst.arr[base + |p|..]);
    assert dst.arr[..] == dst.arr[..base] + dst.arr[base..base + |p|] + dst.arr[base + |p|..];
  }

  /** `copy(p, src[at:at+n])`: the bytes that land in `p`. */
  method CopyOut(src: Slice, at: nat, n: nat) returns (p: seq<byte>)
    requires src.Valid() && at + n <= src.len
    ensures p == src.Elems()[at..at + n]
  {
    src.Window(at, n);
    p := src.arr[src.off + at..src.off + at + n];
  }

  /** `append(s, p...)`: writes through the shared array while the capacity lasts, and moves to a
      new array of unspecified spare capacity when it does not. */
  method Append(s: Slice, p: seq<byte>) returns (t: Slice)
    requires s.Valid()
    modifies s.arr
    ensures t.Valid() && t.Elems() == old(s.Elems()) + p
    ensures s.len + |p| <= s.cap ==> t == Slice(s.arr, s.off, s.len + |p|, s.cap)
    ensures s.len + |p| > s.cap ==> fresh(t.arr) && t.off == 0 && s.arr[..] == old(s.arr[..])
  {
    if s.len + |p| <= s.cap {
      CopyInto(s, s.len, p);
      t := Slice(s.arr, s.off, s.len + |p|, s.cap);
      assert t.Elems() == old(s.Elems()) + p;
    } else {
      var cap: nat :| cap >= s.len + |p|;
      ghost var before := s.Elems();
      var a := new byte[cap];
      t := Slice(a, 0, s.len + |p|, cap);
      forall i | 0 <= i < s.len { a[i] := s.arr[s.off + i]; }
      forall i | 0 <= i < |p| { a[s.len + i] := p[i]; }
      assert t.Elems() == before + p;
    }
  }
}
