/** The growable circular byte buffer in which the decoder stages header bytes. */
module Rings {
  import opened Bytes
  import opened GoSlice

  /** What a ring buffer means: a byte queue, the capacity it may fill before it must grow, and the
      place in the storage where the queue begins. */
  datatype View = View(cap: nat, start: nat, contents: seq<byte>)

  /** The effect of `Write`, or `None` where the source panics: the write fits the capacity, so it
      does not grow, but the contents already wrap and the tail slice starts past its end. */
  function Written(v: View, p: seq<byte>): (w: Option<View>)
  {
    var total := |v.contents| + |p|;
    if total > v.cap then Some(View(total, 0, v.contents + p))
    else if v.start + |v.contents| > v.cap then None
    else Some(v.(contents := v.contents + p))
  }

  /** The queue after its first `n` bytes were taken. */
  function Dropped(v: View, n: nat): View
    requires n <= |v.contents| && v.cap > 0
  {
    View(v.cap, (v.start + n) % v.cap, v.contents[n..])
  }

  /** `size` bytes of circular storage, from `start` on. */
  function Queue(b: seq<byte>, start: nat, size: nat): (s: seq<byte>)
    requires start <= |b| && size <= |b|
    ensures |s| == size
  {
    if start + size <= |b| then b[start..start + size] else b[start..] + b[..start + size - |b|]
  }

  datatype WriteResult = Wrote(n: nat) | WritePanic
  datatype SliceResult = Sliced(data: Slice, shared: bool) | SlicePanic

  class RingBuffer {
    var start: nat
    var size: nat
    var buf: Slice

    ghost predicate Valid()
      reads this
    {
      && buf.Valid()
      && size <= buf.len
      && (start < buf.len || start == 0)
    }

    /** The queued bytes, oldest first. */
    ghost function Contents(): (s: seq<byte>)
      requires Valid()
      reads this, buf.arr
      ensures |s| == size
    {
      Queue(buf.Elems(), start, size)
    }

    ghost function State(): (v: View)
      requires Valid()
      reads this, buf.arr
      ensures |v.contents| <= v.cap
    {
      View(buf.len, start, Contents())
    }

    constructor (cap: nat)
      ensures Valid() && fresh(buf.arr)
      ensures State() == View(cap, 0, [])
    {
      var b := GoSlice.Make(cap);
      buf := b;
      start, size := 0, 0;
    }

    function Capacity(): (n: nat)
      reads this
    {
      buf.len
    }

    method Reset()
      requires Valid()
      modifies this
      ensures Valid() && buf == old(buf)
      ensures State() == View(old(State()).cap, 0, [])
    {
      start, size := 0, 0;
    }

    /** `read`: copies out at most `want` bytes without consuming them. */
    method Peek(want: nat) returns (data: seq<byte>)
      requires Valid() && size > 0
      ensures data == Contents()[..Min(want, size)]
    {
      ghost var b := buf.Elems();
      if start + size <= Capacity() {
        data := GoSlice.CopyOut(buf, start, Min(want, size));
        HeadOfPart(b, start, size, Min(want, size), data);
      } else {
        var n := Min(want, Capacity() - start);
        data := GoSlice.CopyOut(buf, start, n);
        if want > n {
          SecondPart(start, size, Capacity(), want);
          var m := Min(want - n, (start + size) % Capacity());
          var more := GoSlice.CopyOut(buf, 0, m);
          HeadOfWrapped(b, start, size, n, m, data, more);
          data := data + more;
        } else {
          HeadOfPart(b, start, size, Min(want, size), data);
        }
      }
    }

    /** `Read(p)` with a destination of `want` bytes. `None` is `io.EOF`, reported exactly on the
        empty ring. */
    method Read(want: nat) returns (data: Option<seq<byte>>)
      requires Valid()
      modifies this
      ensures Valid() && buf == old(buf)
      ensures data.None? <==> old(State()).contents == []
      ensures data.None? ==> State() == old(State())
      ensures data.Some? ==>
        && data.value == old(State()).contents[..Min(want, old(size))]
        && State() == Dropped(old(State()), |data.value|)
    {
      if size == 0 {
        return None;
      }
      var d := Peek(want);
      Advance(|d|);
      data := Some(d);
    }

    method Advance(n: nat)
      requires Valid() && n <= size && Capacity() > 0
      modifies this`start, this`size
      ensures Valid() && State() == Dropped(old(State()), n)
    {
      ghost var was := Contents();
      ghost var b := buf.Elems();
      WrapOnce(start + n, Capacity());
      start := (start + n) % Capacity();
      size := size - n;
      assert Contents() == was[n..];
    }

    /** `TrySlice`: takes up to `want` bytes off the ring, as a window onto its own storage while
        they are contiguous and as a copy when they wrap. On a ring without storage the source
        divides by its capacity. */
    method TrySlice(want: nat) returns (r: SliceResult)
      requires Valid()
      modifies this
      ensures Valid() && buf == old(buf) && buf.arr[..] == old(buf.arr[..])
      ensures r.SlicePanic? <==> old(State()).cap == 0
      ensures r.SlicePanic? ==> State() == old(State())
      ensures r.Sliced? ==>
        && r.data.Valid()
        && r.data.Elems() == old(State()).contents[..Min(want, old(size))]
        && State() == Dropped(old(State()), r.data.len)
        && (if r.shared then r.data.arr == buf.arr else fresh(r.data.arr))
    {
      if Capacity() == 0 {
        return SlicePanic;
      }
      var data, shared := Slice(want);
      Advance(data.len);
      r := Sliced(data, shared);
    }

    /** `trySlice`: the bytes `TrySlice` hands out, still on the ring. */
    method Slice(want: nat) returns (data: Slice, shared: bool)
      requires Valid()
      ensures data.Valid() && data.len == Min(want, size)
      ensures data.Elems() == Contents()[..Min(want, size)]
      ensures shared ==> start + data.len <= buf.len && data == buf.Sub(start, start + data.len)
      ensures !shared ==> fresh(data.arr) && data.cap == data.len
    {
      if size == 0 {
        var none := GoSlice.Make(0);
        return none, false;
      }
      var take := Min(want, size);
      if start + take <= Capacity() {
        data, shared := buf.Sub(start, start + take), true;
        buf.Window(start, take);
        HeadOfPart(buf.Elems(), start, size, take, data.Elems());
      } else {
        var d := Peek(take);
        data := GoSlice.Make(|d|);
        forall i | 0 <= i < |d| { data.arr[i] := d[i]; }
        shared := false;
        assert data.Elems() == d;
      }
    }

    /** `Write`: appends `p`, growing by moving to exactly the needed size when the capacity is
        exceeded. Panics, changing nothing, exactly where `Written` is undefined. */
    method Write(p: seq<byte>) returns (r: WriteResult)
      requires Valid()
      modifies this, buf.arr
      ensures Valid() && (buf.arr == old(buf.arr) || fresh(buf.arr))
      ensures r.WritePanic? <==> Written(old(State()), p).None?
      ensures r.WritePanic? ==> State() == old(State())
      ensures r.Wrote? ==> r.n == |p| && State() == Written(old(State()), p).value
    {
      if size + |p| > Capacity() {
        Grow(p);
        return Wrote(|p|);
      }
      if start + size > Capacity() {
        return WritePanic;
      }
      Fill(p);
      size := size + |p|;
      r := Wrote(|p|);
    }

    /** The growing write: the queue moves to the front of storage of exactly its new size. */
    method Grow(p: seq<byte>)
      requires Valid() && size + |p| > buf.len
      modifies this, buf.arr
      ensures Valid() && (buf.arr == old(buf.arr) || fresh(buf.arr))
      ensures State() == View(old(size) + |p|, 0, old(Contents()) + p)
    {
      ghost var was := Contents();
      var data, _ := Slice(size);
      buf := GoSlice.Append(data, p);
      start := 0;
      size := size + |p|;
      assert buf.Elems() == was + p;
    }

    /** The two copies of an in-capacity `write`: up to the end of the storage, then from its
        beginning. */
    method Fill(p: seq<byte>)
      requires Valid() && size + |p| <= buf.len && start + size <= buf.len
      modifies buf.arr
      ensures Queue(buf.Elems(), start, size + |p|) == old(Contents()) + p
    {
      var n := Min(|p|, Capacity() - (start + size));
      ghost var b := buf.Elems();
      CopyWithin(buf, start + size, p[..n]);
      if |p| > n {
        CopyWithin(buf, 0, p[n..]);
      }
      FillsInPlace(b, buf.Elems(), start, size, p, n);
    }
  }

  function Overwritten(b: seq<byte>, at: nat, p: seq<byte>): (r: seq<byte>)
    requires at + |p| <= |b|
    ensures |r| == |b|
  {
    b[..at] + p + b[at + |p|..]
  }

  /** `copy` seen through the slice itself. */
  method CopyWithin(dst: Slice, at: nat, p: seq<byte>)
    requires dst.Valid() && at + |p| <= dst.len
    modifies dst.arr
    ensures dst.Elems() == Overwritten(old(dst.Elems()), at, p)
  {
    ghost var a := dst.arr[..];
    GoSlice.CopyInto(dst, at, p);
    assert dst.arr[..] == a[..dst.off + at] + p + a[dst.off + at + |p|..];
    var lo, hi := dst.off, dst.off + dst.len;
    assert a[lo..hi][..at] == a[lo..lo + at] && a[lo..hi][at + |p|..] == a[lo + at + |p|..hi];
    assert dst.arr[..][lo..hi] == a[lo..lo + at] + p + a[lo + at + |p|..hi];
  }

  /** The first bytes of a queue that lie in one piece. */
  lemma HeadOfPart(b: seq<byte>, start: nat, size: nat, n: nat, d: seq<byte>)
    requires start + n <= |b| && n <= size <= |b| && d == b[start..start + n]
    ensures d == Queue(b, start, size)[..n]
  {
  }

  lemma HeadOfWrapped(b: seq<byte>, start: nat, size: nat, n: nat, m: nat, d: seq<byte>, more: seq<byte>)
    requires start + n == |b| && n + m <= size <= |b|
    requires d == b[start..start + n] && more == b[0..m]
    ensures d + more == Queue(b, start, size)[..n + m]
  {
    assert d == b[start..] && more == b[..m];
    if start + size > |b| {
      assert b[..start + size - |b|][..m] == more;
    }
  }

  /** Reading past the end of the storage continues at its beginning, up to where the queue ends. */
  lemma SecondPart(start: nat, size: nat, cap: nat, want: nat)
    requires start < cap < start + size && size <= cap && want > cap - start
    ensures var n, m := Min(want, cap - start), Min(want - (cap - start), (start + size) % cap);
      n == cap - start && m <= start && n + m == Min(want, size)
  {
    WrapOnce(start + size, cap);
  }

  lemma WrapOnce(a: nat, cap: nat)
    requires a < 2 * cap
    ensures a % cap == if a < cap then a else a - cap
  {
    DivModUnique(a, cap, if a < cap then 0 else 1, if a < cap then a else a - cap);
  }

  /** The storage after an in-place write reads as the old queue followed by the new bytes. */
  lemma FillsInPlace(b: seq<byte>, b': seq<byte>, start: nat, size: nat, p: seq<byte>, n: nat)
    requires start + size <= |b| && size + |p| <= |b| && n == Min(|p|, |b| - (start + size))
    requires |p| > n ==> b' == Overwritten(Overwritten(b, start + size, p[..n]), 0, p[n..])
    requires |p| <= n ==> b' == Overwritten(b, start + size, p[..n])
    ensures Queue(b', start, size + |p|) == Queue(b, start, size) + p
  {
    assert p == p[..n] + p[n..];
    if |p| > n {
      FillsWrapped(b, start, size, p[..n], p[n..]);
    } else {
      FillsPlain(b, start, size, p[..n]);
    }
  }

  lemma FillsPlain(b: seq<byte>, start: nat, size: nat, p: seq<byte>)
    requires start + size + |p| <= |b|
    ensures Queue(Overwritten(b, start + size, p), start, size + |p|) == b[start..start + size] + p
  {
    assert b[..start + size][start..] == b[start..start + size];
  }

  lemma FillsWrapped(b: seq<byte>, start: nat, size: nat, p: seq<byte>, q: seq<byte>)
    requires start + size + |p| == |b| && size + |p| + |q| <= |b|
    ensures Queue(Overwritten(Overwritten(b, start + size, p), 0, q), start, size + |p| + |q|)
      == b[start..start + size] + (p + q)
  {
    var mid := Overwritten(b, start + size, p);
    OverwrittenEnd(b, start, start + size, p);
    OverwrittenFront(mid, q, start);
    var x, end := b[start..start + size], Overwritten(mid, 0, q);
    assert x + (p + q) == (x + p) + q;
    if q == [] {
      assert (x + p) + q == x + p && end[start..start + size + |p|] == end[start..];
    }
  }

  lemma OverwrittenEnd(b: seq<byte>, from: nat, at: nat, p: seq<byte>)
    requires from <= at && at + |p| == |b|
    ensures Overwritten(b, at, p)[from..] == b[from..at] + p
  {
    assert b[at + |p|..] == [] && b[..at][from..] == b[from..at];
  }

  lemma OverwrittenFront(b: seq<byte>, q: seq<byte>, from: nat)
    requires |q| <= from <= |b|
    ensures Overwritten(b, 0, q)[..|q|] == q && Overwritten(b, 0, q)[from..] == b[from..]
  {
    assert Overwritten(b, 0, q) == q + b[|q|..];
  }

  // ----- staging a header -----

  /** Writing the chunks in which a header arrives, one after another. */
  function WriteAll(v: View, chunks: seq<seq<byte>>): (w: Option<View>)
  {
    if chunks == [] then Some(v)
    else match WriteAll(v, chunks[..|chunks| - 1])
      case None => None
      case Some(u) => Written(u, chunks[|chunks| - 1])
  }

  /** No chunk lands, within the original capacity, on contents that already wrap. */
  ghost predicate Stageable(cap: nat, start: nat, chunks: seq<seq<byte>>) {
    forall k :: 1 <= k < |chunks| ==>
      start + |Flatten(chunks[..k])| <= cap || |Flatten(chunks[..k])| + |chunks[k]| > cap
  }

  /** An empty ring after it was filled with `all`. */
  function Staged(v: View, all: seq<byte>): View {
    if |all| > v.cap then View(|all|, 0, all) else View(v.cap, v.start, all)
  }

  /** Staging from the empty ring, as the decoder does for every header: it goes through exactly for
      stageable chunks, and then the ring holds the header's bytes, in order and nothing else. */
  lemma {:induction false} Staging(v: View, chunks: seq<seq<byte>>)
    requires v.contents == [] && (v.start < v.cap || v.start == 0)
    requires forall k :: 0 <= k < |chunks| ==> chunks[k] != []
    ensures WriteAll(v, chunks).Some? <==> Stageable(v.cap, v.start, chunks)
    ensures WriteAll(v, chunks).Some? ==>
      WriteAll(v, chunks).value == Staged(v, Flatten(chunks))
  {
    if chunks != [] {
      var front, last := chunks[..|chunks| - 1], chunks[|chunks| - 1];
      Staging(v, front);
      assert chunks == front + [last];
      if front == [] {
        assert Flatten(front) == [];
      } else {
        FlattenNonEmpty(front);
      }
      StagingStep(v, front, last);
    }
  }

  lemma StagingStep(v: View, front: seq<seq<byte>>, last: seq<byte>)
    requires v.contents == [] && (v.start < v.cap || v.start == 0) && last != []
    requires front == [] <==> Flatten(front) == []
    requires WriteAll(v, front).Some? <==> Stageable(v.cap, v.start, front)
    requires WriteAll(v, front).Some? ==> WriteAll(v, front).value == Staged(v, Flatten(front))
    ensures WriteAll(v, front + [last]).Some? <==> Stageable(v.cap, v.start, front + [last])
    ensures WriteAll(v, front + [last]).Some? ==> WriteAll(v, front + [last]).value == Staged(v, Flatten(front + [last]))
  {
    StageableSnoc(v.cap, v.start, front, last);
    FlattenSnoc(front, last);
    OneMore(v, Flatten(front), last);
    assert (front + [last])[..|front|] == front;
  }

  lemma OneMore(v: View, all: seq<byte>, last: seq<byte>)
    requires v.start < v.cap || v.start == 0
    requires last != []
    ensures Written(Staged(v, all), last) ==
      if all == [] || v.start + |all| <= v.cap || |all| + |last| > v.cap then Some(Staged(v, all + last)) else None
  {
  }

  lemma FlattenNonEmpty(chunks: seq<seq<byte>>)
    requires chunks != [] && chunks[|chunks| - 1] != []
    ensures Flatten(chunks) != []
  {
  }

  lemma StageableSnoc(cap: nat, start: nat, front: seq<seq<byte>>, last: seq<byte>)
    ensures Stageable(cap, start, front + [last]) <==>
      && Stageable(cap, start, front)
      && (front == [] || start + |Flatten(front)| <= cap || |Flatten(front)| + |last| > cap)
  {
    var chunks := front + [last];
    assert chunks[..|front|] == front;
    assert forall k :: 0 <= k <= |front| ==> chunks[..k] == front[..k];
    assert forall k :: 0 <= k < |front| ==> chunks[k] == front[k];
  }

  /** A header delivered whole, or one that does not reach the end of the storage, is always staged,
      however it is cut. */
  lemma StagingSuffices(v: View, chunks: seq<seq<byte>>)
    requires v.contents == [] && (v.start < v.cap || v.start == 0)
    requires forall k :: 0 <= k < |chunks| ==> chunks[k] != []
    requires |chunks| == 1 || v.start + |Flatten(chunks)| <= v.cap
    ensures WriteAll(v, chunks).Some?
  {
    forall k | 1 <= k < |chunks|
      ensures |Flatten(chunks[..k])| <= |Flatten(chunks)|
    {
      FlattenPrefix(chunks, k);
    }
    Staging(v, chunks);
  }

  lemma {:induction false} FlattenPrefix(chunks: seq<seq<byte>>, k: nat)
    requires k <= |chunks|
    ensures |Flatten(chunks[..k])| <= |Flatten(chunks)|
  {
    if k < |chunks| {
      FlattenPrefix(chunks[..|chunks| - 1], k);
      assert chunks[..|chunks| - 1][..k] == chunks[..k];
    } else {
      assert chunks[..k] == chunks;
    }
  }

  /** The source's failing case: eight bytes of storage, six of them consumed, and a five-byte header
      arriving as three bytes and two. */
  lemma StagingCanFail()
    ensures WriteAll(View(8, 6, []), [[1, 2, 3], [4, 5]]).None?
    ensures WriteAll(View(8, 6, []), [[1, 2, 3, 4, 5]]) == Some(View(8, 6, [1, 2, 3, 4, 5]))
  {
    var first: seq<seq<byte>> := [[1, 2, 3]];
    var whole: seq<seq<byte>> := [[1, 2, 3, 4, 5]];
    var v := View(8, 6, []);
    assert first[..0] == [] && whole[..0] == [];
    assert WriteAll(v, []) == Some(v);
    assert v.contents + [1, 2, 3] == [1, 2, 3] && v.contents + [1, 2, 3, 4, 5] == [1, 2, 3, 4, 5];
    assert WriteAll(v, first) == Written(v, [1, 2, 3]);
    assert WriteAll(v, whole) == Written(v, [1, 2, 3, 4, 5]);
    assert (first + [[4, 5]])[..1] == first;
    assert first + [[4, 5]] == [[1, 2, 3], [4, 5]];
  }

  /** One header after another, as the decoder stages and takes them. */
  function TakeAll(v: View, headers: seq<seq<seq<byte>>>): Option<View> {
    if headers == [] then Some(v)
    else match TakeAll(v, headers[..|headers| - 1])
      case None => None
      case Some(u) =>
        match WriteAll(u, headers[|headers| - 1])
        case None => None
        case Some(w) => if w.cap == 0 then None else Some(Dropped(w, |w.contents|))
  }

  ghost predicate Chunks(chunks: seq<seq<byte>>) {
    chunks != [] && forall k :: 0 <= k < |chunks| ==> chunks[k] != []
  }

  /** From a new ring, headers of one size that divides the capacity are staged one after another without
      end, however each is cut: the start goes round in multiples of that size and always leaves room. */
  lemma {:induction false} EqualHeadersNeverWrap(cap: nat, h: nat, headers: seq<seq<seq<byte>>>)
    requires 0 < h && cap > 0 && cap % h == 0
    requires forall chunks <- headers :: Chunks(chunks) && |Flatten(chunks)| == h
    ensures var v := TakeAll(View(cap, 0, []), headers);
      v.Some? && v.value.cap == cap && v.value.contents == [] && v.value.start < cap
      && v.value.start % h == 0 && v.value.start + h <= cap
  {
    if headers == [] {
      DivModUnique(0, h, 0, 0);
      NextMultiple(h, 0, cap);
    } else {
      var front, chunks := headers[..|headers| - 1], headers[|headers| - 1];
      EqualHeadersNeverWrap(cap, h, front);
      var v := TakeAll(View(cap, 0, []), front).value;
      assert Chunks(chunks);
      StagingSuffices(v, chunks);
      Staging(v, chunks);
      NextStart(View(cap, v.start, Flatten(chunks)), h);
    }
  }

  /** Headers that arrive whole are always staged, whatever their sizes. */
  lemma {:induction false} WholeHeadersNeverFail(v: View, headers: seq<seq<seq<byte>>>)
    requires v.contents == [] && (v.start < v.cap || v.start == 0)
    requires forall chunks <- headers :: Chunks(chunks) && |chunks| == 1
    ensures var w := TakeAll(v, headers);
      w.Some? && w.value.contents == [] && (w.value.start < w.value.cap || w.value.start == 0)
  {
    if headers != [] {
      var front, chunks := headers[..|headers| - 1], headers[|headers| - 1];
      WholeHeadersNeverFail(v, front);
      var u := TakeAll(v, front).value;
      assert Chunks(chunks);
      StagingSuffices(u, chunks);
      Staging(u, chunks);
      FlattenNonEmpty(chunks);
    }
  }

  lemma NextStart(v: View, h: nat)
    requires 0 < h && v.cap > 0 && v.cap % h == 0 && v.start % h == 0 && v.start < v.cap
    requires |v.contents| == h
    ensures Dropped(v, h).start % h == 0 && Dropped(v, h).contents == []
    ensures v.start + h <= v.cap && Dropped(v, h).start + h <= v.cap
  {
    NextMultiple(h, v.start, v.cap);
    WrapOnce(v.start + h, v.cap);
    DivModUnique(0, h, 0, 0);
    NextMultiple(h, Dropped(v, h).start, v.cap);
  }

  lemma NextMultiple(h: nat, a: nat, b: nat)
    requires 0 < h && a % h == 0 && b % h == 0 && a < b
    ensures a + h <= b && (a + h) % h == 0
  {
    var m, n := a / h, b / h;
    assert a == h * m && b == h * n;
    if m >= n {
      Times(h, n, m);
    } else {
      Times(h, m + 1, n);
    }
    Distribute(h, m);
    DivModUnique(a + h, h, m + 1, 0);
  }

  lemma Times(h: nat, x: nat, y: nat)
    requires x <= y
    ensures h * x <= h * y
  {
  }

  lemma Distribute(h: nat, m: nat)
    ensures h * (m + 1) == h * m + h
  {
  }
}
