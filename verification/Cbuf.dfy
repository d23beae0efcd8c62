/**
 * Circular byte buffer with absolute indexes.
 *
 * The start and end indexes count bytes since some arbitrary origin, modulo
 * the size of a machine word; the capacity is a power of two, so that the
 * slot of a byte is its index modulo the capacity even when the indexes wrap.
 */
module Cbuf {
  import opened Common

  const WORD: nat := 0x1_0000_0000_0000_0000
  /** Negative close to zero, so that the indexes wrap early. */
  const INIT_INDEX: nat := WORD - 500

  newtype Byte = x: int | 0 <= x < 256

  datatype Error = NoError | EAGAIN | EINVAL

  // ---- Indexes ----

  lemma {:induction false} Pow2Split(j: nat, k: nat)
    ensures Pow2(j + k) == Pow2(j) * Pow2(k)
  {
    if j > 0 {
      Pow2Split(j - 1, k);
      assert Pow2(j) * Pow2(k) == 2 * (Pow2(j - 1) * Pow2(k));
    }
  }

  lemma WordIsPow2()
    ensures Pow2(64) == WORD
  {
    Pow2Split(32, 32);
    Pow2Split(16, 16);
    assert Pow2(16) == 0x1_0000 by {
      Pow2Split(8, 8);
      assert Pow2(8) == 256 by { Pow2Split(4, 4); assert Pow2(4) == 16; }
    }
  }

  lemma MulStep(d: nat, p: nat, q: nat)
    ensures p >= q + 1 ==> d * p >= d * q + d
    ensures p == q ==> d * p == d * q
  {
    if p >= q + 1 {
      MulMonotone(d, q + 1, p);
      assert d * (q + 1) == d * q + d;
    }
  }

  lemma MulMonotone(d: nat, a: nat, b: nat)
    requires a <= b
    ensures d * a <= d * b
  {}

  lemma ModUnique(n: nat, d: nat, q: nat, r: nat)
    requires 0 < d && r < d && n == d * q + r
    ensures n % d == r
  {
    var k := n / d;
    assert n == d * k + n % d;
    MulStep(d, k, q);
    MulStep(d, q, k);
  }

  lemma ModShift(a: nat, d: nat, q: nat)
    requires 0 < d
    ensures (a + d * q) % d == a % d
  {
    assert a == d * (a / d) + a % d;
    assert d * (a / d + q) == d * (a / d) + d * q;
    ModUnique(a + d * q, d, a / d + q, a % d);
  }

  lemma ModAdd(a: nat, b: nat, d: nat)
    requires 0 < d
    ensures (a % d + b) % d == (a + b) % d
  {
    assert a == d * (a / d) + a % d;
    ModShift(a % d + b, d, a / d);
  }

  lemma ModDivisor(a: nat, w: nat, c: nat, e: nat)
    requires 0 < w && 0 < c && w == c * e
    ensures a % w % c == a % c
  {
    var q := a / w;
    assert a == w * q + a % w;
    assert w * q == c * (e * q) by { MulAssoc(c, e, q); }
    ModShift(a % w, c, e * q);
  }

  lemma MulAssoc(a: nat, b: nat, c: nat)
    ensures (a * b) * c == a * (b * c)
  {}

  /** The wrap-around of the indexes does not show in the slots. */
  lemma WrapKeepsSlot(a: nat, k: nat)
    requires k < 64
    ensures a % WORD % Pow2(k) == a % Pow2(k)
    ensures Pow2(k) < WORD
  {
    WordIsPow2();
    Pow2Split(k, 64 - k);
    ModDivisor(a, WORD, Pow2(k), Pow2(64 - k));
    assert Pow2(64 - k) >= 2;
    MulStep(Pow2(k), Pow2(64 - k), 1);
  }

  /** An index computed in a machine word. */
  function Wrap(n: int): nat {
    n % WORD
  }

  lemma WrapFits(n: int)
    ensures Wrap(n) < WORD
    ensures 0 <= n < WORD ==> Wrap(n) == n
  {}

  // ---- The byte sequence ----

  /** The last n bytes of a sequence. */
  function Last<T>(s: seq<T>, n: nat): seq<T> {
    if |s| <= n then s else s[|s| - n..]
  }

  /** A sequence where data replaces, and possibly extends, what follows an offset. */
  function Overwrite<T>(s: seq<T>, offset: nat, data: seq<T>): seq<T>
    requires offset <= |s|
  {
    s[..offset] + data + (if offset + |data| < |s| then s[offset + |data|..] else [])
  }

  /** The byte at some distance from an index, in storage that wraps. */
  function At(b: seq<Byte>, index: nat, i: nat): Byte
    requires b != []
  {
    b[(index + i) % |b|]
  }

  /** The bytes from an index on. */
  ghost function Window(b: seq<Byte>, index: nat, n: nat): (s: seq<Byte>)
    requires b != []
    ensures |s| == n && forall i: nat :: i < n ==> s[i] == At(b, index, i)
  {
    seq(n, i requires 0 <= i < n => At(b, index, i))
  }

  lemma AtSlot(b: seq<Byte>, index: nat, i: nat)
    requires b != []
    ensures At(b, index % |b|, i) == At(b, index, i)
  {
    ModAdd(index, i, |b|);
  }

  lemma AtWrap(b: seq<Byte>, k: nat, index: nat, i: nat)
    requires k < 64 && |b| == Pow2(k)
    ensures At(b, Wrap(index), i) == At(b, index, i)
  {
    WrapKeepsSlot(index, k);
    AtSlot(b, index, i);
    AtSlot(b, Wrap(index), i);
  }

  lemma WindowWrap(b: seq<Byte>, k: nat, index: nat, n: nat)
    requires k < 64 && |b| == Pow2(k)
    ensures Window(b, Wrap(index), n) == Window(b, index, n)
  {
    forall i: nat | i < n ensures At(b, Wrap(index), i) == At(b, index, i) {
      AtWrap(b, k, index, i);
    }
  }

  lemma WindowSuffix(b: seq<Byte>, index: nat, n: nat, d: nat)
    requires b != [] && d <= n
    ensures Window(b, index + d, n - d) == Window(b, index, n)[d..]
    ensures Window(b, index, d) == Window(b, index, n)[..d]
  {
    var a, z := Window(b, index + d, n - d), Window(b, index, n)[d..];
    forall i: nat | i < n - d ensures a[i] == z[i] {
      AtSame(b, index, d + i, d, i);
    }
  }

  lemma ReadWindow(b: seq<Byte>, k: nat, s: nat, size: nat, offset: nat, n: nat)
    requires k < 64 && |b| == Pow2(k) && offset + n <= size
    ensures Window(b, Wrap(s + offset) % |b|, n) == Window(b, s, size)[offset..][..n]
  {
    hide Pow2, Wrap;
    WindowWrap(b, k, s + offset, n);
    WindowSlot(b, Wrap(s + offset), n);
    WindowSuffix(b, s, size, offset);
    WindowSuffix(b, s + offset, size - offset, n);
  }

  lemma WindowSlot(b: seq<Byte>, index: nat, n: nat)
    requires b != []
    ensures Window(b, index % |b|, n) == Window(b, index, n)
  {
    forall i: nat | i < n ensures At(b, index % |b|, i) == At(b, index, i) {
      AtSlot(b, index, i);
    }
  }

  /**
   * What a copy of the last bytes of data, at most a capacity of them, at an
   * offset from an index leaves in the storage.
   */
  ghost predicate Copied(b: seq<Byte>, b': seq<Byte>, base: nat, bytes: seq<Byte>)
    requires b != [] && |b'| == |b|
  {
    forall j: nat :: j < |b| ==> At(b', base, j) == if j < |bytes| then bytes[j] else At(b, base, j)
  }

  /** The result is a window of the last bytes of the overwritten sequence. */
  lemma WriteWindow(b: seq<Byte>, b': seq<Byte>, s: nat, n: nat, offset: nat, data: seq<Byte>, skip: nat)
    requires b != [] && |b'| == |b| && offset <= n <= |b|
    requires skip == if |data| > |b| then |data| - |b| else 0
    requires Copied(b, b', s + offset + skip, data[skip..])
    ensures var total := if offset + |data| > n then offset + |data| else n;
            var drop := if total > |b| then total - |b| else 0;
      Window(b', s + drop, total - drop) == Last(Overwrite(Window(b, s, n), offset, data), |b|)
  {
    hide Copied, At, Window, Last, Overwrite;
    var total := if offset + |data| > n then offset + |data| else n;
    var drop := if total > |b| then total - |b| else 0;
    var was := Window(b, s, n);
    WindowIs(b, s, n);
    var last := Last(Overwrite(was, offset, data), |b|);
    var now := Window(b', s + drop, total - drop);
    WindowIs(b', s + drop, total - drop);
    OverwriteLength(was, offset, data, |b|);
    forall i: nat | i < total - drop ensures now[i] == last[i] {
      OverwriteAt(was, offset, data, |b|, i);
      WriteAt(b, b', s, n, offset, data, skip, drop + i);
      AtSame(b', s, drop + i, drop, i);
    }
  }

  lemma WindowIs(b: seq<Byte>, s: nat, n: nat)
    requires b != []
    ensures |Window(b, s, n)| == n
    ensures forall i: nat :: i < n ==> Window(b, s, n)[i] == At(b, s, i)
  {}

  lemma OverwriteLength(w: seq<Byte>, offset: nat, data: seq<Byte>, capacity: nat)
    requires offset <= |w|
    ensures var total := if offset + |data| > |w| then offset + |data| else |w|;
      |Last(Overwrite(w, offset, data), capacity)| == if total > capacity then capacity else total
  {}

  lemma OverwriteAt(w: seq<Byte>, offset: nat, data: seq<Byte>, capacity: nat, i: nat)
    requires offset <= |w| && i < |Last(Overwrite(w, offset, data), capacity)|
    ensures var total := if offset + |data| > |w| then offset + |data| else |w|;
            var u := (if total > capacity then total - capacity else 0) + i;
      && u < total
      && Last(Overwrite(w, offset, data), capacity)[i]
         == if offset <= u < offset + |data| then data[u - offset] else w[u]
  {
    var all := Overwrite(w, offset, data);
    var u := (if |all| > capacity then |all| - capacity else 0) + i;
    assert Last(all, capacity)[i] == all[u];
  }

  lemma OverwriteEnd(w: seq<Byte>, data: seq<Byte>)
    ensures Overwrite(w, |w|, data) == w + data
  {}

  lemma OneCopied(b: seq<Byte>, b': seq<Byte>, slot: nat, byte: Byte)
    requires slot < |b| && b' == b[slot := byte]
    ensures Copied(b, b', slot, [byte])
  {
    forall j: nat | j < |b| ensures At(b', slot, j) == if j < 1 then byte else At(b, slot, j) {
      WrapOnce(slot + j, |b|);
    }
  }

  lemma WriteAt(b: seq<Byte>, b': seq<Byte>, s: nat, n: nat, offset: nat, data: seq<Byte>, skip: nat, u: nat)
    requires b != [] && |b'| == |b| && offset <= n <= |b|
    requires skip == if |data| > |b| then |data| - |b| else 0
    requires Copied(b, b', s + offset + skip, data[skip..])
    requires offset + |data| <= u + |b| && (u < n || u < offset + |data|)
    ensures At(b', s, u) == if offset <= u < offset + |data| then data[u - offset] else At(b, s, u)
  {
    hide At;
    var base := s + offset + skip;
    if offset + skip <= u {
      var j := u - offset - skip;
      AtSame(b', s, u, offset + skip, j);
      AtSame(b, s, u, offset + skip, j);
      assert base == s + (offset + skip);
      assert At(b', base, j) == if j < |data[skip..]| then data[skip..][j] else At(b, base, j);
    } else {
      var j := u + |b| - offset;
      AtAround(b', s, u, offset, j);
      AtAround(b, s, u, offset, j);
      assert base == s + offset;
      assert At(b', base, j) == At(b, base, j);
    }
  }

  lemma AtSame(b: seq<Byte>, s: nat, u: nat, d: nat, j: nat)
    requires b != [] && u == d + j
    ensures At(b, s + d, j) == At(b, s, u)
  {
    assert s + d + j == s + u;
  }

  lemma AtAround(b: seq<Byte>, s: nat, u: nat, d: nat, j: nat)
    requires b != [] && u + |b| == d + j
    ensures At(b, s + d, j) == At(b, s, u)
  {
    assert s + d + j == s + u + |b| * 1;
    ModShift(s + u, |b|, 1);
  }

  // ---- The buffer ----

  class CircularBuffer {
    const buf: array<Byte>
    const capacity: nat
    ghost const order: nat
    var start: nat
    var end: nat

    ghost predicate Valid()
      reads this
    {
      && order < 64 && capacity == Pow2(order) && buf.Length == capacity
      && start < WORD && end < WORD
      && Size() <= capacity
    }

    constructor (storage: array<Byte>, ghost k: nat)
      requires k < 64 && storage.Length == Pow2(k)
      ensures Valid() && buf == storage && start == INIT_INDEX && Contents() == []
    {
      buf, capacity, order := storage, storage.Length, k;
      start, end := INIT_INDEX, INIT_INDEX;
    }

    function Size(): nat
      reads this
    {
      Wrap(end - start)
    }

    function Slot(index: nat): (i: nat)
      requires capacity > 0
      ensures i < capacity
    {
      index % capacity
    }

    lemma SlotFits(index: nat)
      requires capacity > 0
      ensures Slot(index) < capacity
    {}

    lemma SlotIs(index: nat)
      requires capacity > 0
      ensures Slot(index) == index % capacity
    {}

    /** The bytes of the buffer, oldest first. */
    ghost function Contents(): (s: seq<Byte>)
      requires Valid()
      reads this, buf
      ensures |s| == Size()
    {
      Window(buf[..], start, Size())
    }

    function RangeValid(s: nat, e: nat): bool
      reads this
    {
      && Wrap(e - s) <= Size()
      && Wrap(s - start) <= Size()
      && Wrap(end - e) <= Size()
    }

    /** How far an index is from the start. */
    function Offset(index: nat): nat
      reads this
    {
      Wrap(index - start)
    }

    method Clear()
      requires Valid()
      modifies `start
      ensures Valid() && Contents() == [] && end == old(end)
    {
      start := end;
    }

    /**
     * An index is in the range of the buffer, end included, exactly when its
     * offset does not exceed the size.
     */
    lemma RangeToEnd(index: nat)
      requires Valid() && index < WORD
      ensures RangeValid(index, end) <==> Offset(index) <= Size()
    {}

    /** An index holds a byte exactly when its offset is less than the size. */
    lemma RangeOfByte(index: nat)
      requires Valid() && index < WORD
      ensures RangeValid(index, Wrap(index + 1)) <==> Offset(index) < Size()
    {
      Below63(order);
      ByteRange(start, end, index, capacity);
    }

    /** A write from a valid index stays in the buffer exactly when it does not pass the end. */
    lemma RangeOfWrite(index: nat, size: nat)
      requires Valid() && index < WORD && Offset(index) <= Size()
      requires Offset(index) + size < WORD
      ensures RangeValid(start, Wrap(index + size)) <==> Offset(index) + size <= Size()
      ensures Wrap(Wrap(index + size) - start) == Offset(index) + size
    {
      hide Wrap;
      WriteRange(start, end, index, size);
    }

    /** Copies data to consecutive slots, wrapping at the end of the storage. */
    method CopyIn(slot: nat, data: seq<Byte>)
      requires slot < capacity == buf.Length && 0 < slot + |data| && |data| <= capacity
      modifies buf
      ensures Copied(old(buf[..]), buf[..], slot, data)
    {
      var stop := slot + |data|;
      var first := if stop <= 0 || stop > capacity then capacity - slot else |data|;
      Memcpy(slot, data[..first]);
      if first < |data| {
        Memcpy(0, data[first..]);
      }
      forall k: nat | k < capacity
        ensures At(buf[..], slot, k) == if k < |data| then data[k] else At(old(buf[..]), slot, k)
      {
        WrapOnce(slot + k, capacity);
      }
    }

    method Memcpy(slot: nat, data: seq<Byte>)
      requires slot + |data| <= buf.Length
      modifies buf
      ensures forall i :: 0 <= i < buf.Length ==>
                buf[i] == if slot <= i < slot + |data| then data[i - slot] else old(buf[i])
    {
      var i := 0;
      while i < |data|
        invariant 0 <= i <= |data|
        invariant forall j :: 0 <= j < buf.Length ==>
                    buf[j] == if slot <= j < slot + i then data[j - slot] else old(buf[j])
      {
        buf[slot + i] := data[i];
        i := i + 1;
      }
    }

    /** Drops the oldest bytes beyond the capacity. */
    method UpdateStart()
      requires capacity > 0 && capacity < WORD && start < WORD && end < WORD
      modifies `start
      ensures start == if old(Size()) > capacity then Wrap(end - capacity) else old(start)
    {
      if Size() > capacity {
        start := Wrap(end - capacity);
      }
    }

    /**
     * Writes bytes from an index on, overwriting bytes of the buffer, and
     * extending it when they pass its end.
     */
    method Write(index: nat, data: seq<Byte>) returns (error: Error)
      requires Valid() && index < WORD && (data != [] || Slot(index) != 0)
      requires Offset(index) <= Size() ==> Offset(index) + |data| < WORD
      modifies `start, `end, buf
      ensures Valid()
      ensures error == if old(Offset(index) > Size()) then EINVAL else NoError
      ensures error != NoError ==> start == old(start) && end == old(end) && buf[..] == old(buf[..])
      ensures error == NoError ==>
                Contents() == Last(Overwrite(old(Contents()), old(Offset(index)), data), capacity)
      ensures error == NoError && old(Offset(index)) + |data| <= old(Size()) ==> start == old(start) && end == old(end)
      ensures error == NoError && old(Offset(index)) + |data| > old(Size()) ==> end == Wrap(index + |data|)
    {
      hide Pow2, Copied, Window, Last, Overwrite, Wrap, Slot;
      ghost var s, n, offset, before := start, Size(), Offset(index), buf[..];
      RangeToEnd(index);
      if !RangeValid(index, end) {
        return EINVAL;
      }
      Below63(order);
      RangeOfWrite(index, |data|);
      Reaches(start, end);
      Reaches(start, index);
      WordMod(start + offset, |data|);
      var newEnd := Wrap(index + |data|);
      WrapFits(s);
      WrapFits(index);
      WrapFits(index + |data|);
      var from, bytes := index, data;
      if !RangeValid(start, newEnd) {
        end := newEnd;
        if |data| > capacity {
          var skip := |data| - capacity;
          bytes := data[skip..];
          from := Wrap(index + skip);
        }
      }
      SlotFits(from);
      CopyIn(Slot(from), bytes);
      Distance(s, 0, if offset + |data| > n then offset + |data| else n);
      UpdateStart();
      WriteDone(before, s, n, offset, data, from);
      error := NoError;
    }

    /** Copies the bytes of consecutive slots out, wrapping at the end of the storage. */
    method CopyOut(slot: nat, n: nat) returns (data: seq<Byte>)
      requires slot < capacity == buf.Length && 0 < slot + n && n <= capacity
      ensures data == Window(buf[..], slot, n)
    {
      var stop := slot + n;
      if stop > 0 && stop <= capacity {
        data := buf[slot..slot + n];
      } else {
        data := buf[slot..capacity] + buf[..n - (capacity - slot)];
      }
      forall i: nat | i < n ensures data[i] == At(buf[..], slot, i) {
        WrapOnce(slot + i, capacity);
      }
    }

    /** Reads at most n bytes from an index on. */
    method Read(index: nat, n: nat) returns (error: Error, data: seq<Byte>)
      requires Valid() && index < WORD && (0 < n || Slot(index) != 0)
      ensures error == if Offset(index) < Size() then NoError else EINVAL
      ensures error == NoError ==>
                var from := Contents()[Offset(index)..];
                data == if n < |from| then from[..n] else from
    {
      hide Pow2, Window, Wrap, Slot;
      RangeOfByte(index);
      if !RangeValid(index, Wrap(index + 1)) {
        return EINVAL, [];
      }
      var size := Wrap(end - index);
      SizeFrom(index);
      var count := if n > size then size else n;
      SlotFits(index);
      data := CopyOut(Slot(index), count);
      error := NoError;
      ReadDone(index, count);
    }

    lemma SizeFrom(index: nat)
      requires Valid() && index < WORD && Offset(index) <= Size()
      ensures Wrap(end - index) == Size() - Offset(index)
    {
      IntWrap(end - start);
      IntWrap(index - start);
      IntWrap(end - index);
    }

    lemma ReadDone(index: nat, n: nat)
      requires Valid() && index < WORD && Offset(index) + n <= Size()
      ensures Window(buf[..], Slot(index), n) == Contents()[Offset(index)..][..n]
    {
      hide Pow2, Wrap, Slot, Window;
      Reaches(start, index);
      SlotIs(index);
      ReadWindow(buf[..], order, start, Size(), Offset(index), n);
    }

    /**
     * Appends bytes. Without room for them, either the oldest bytes are
     * erased, or nothing is pushed.
     */
    method Push(data: seq<Byte>, erase: bool) returns (error: Error)
      requires Valid() && (data != [] || Slot(end) != 0) && capacity + |data| < WORD
      modifies `start, `end, buf
      ensures Valid()
      ensures error == if !erase && old(Size()) + |data| > capacity then EAGAIN else NoError
      ensures Contents() == if error == NoError then Last(old(Contents()) + data, capacity) else old(Contents())
      ensures error == NoError ==> end == Wrap(old(end) + |data|)
    {
      hide Pow2, Window, Wrap, Last;
      if !erase {
        var freeSize := capacity - Size();
        if |data| > freeSize {
          return EAGAIN;
        }
      }
      StartOffset();
      OverwriteEnd(Contents(), data);
      WrapFits(end);
      error := Write(end, data);
    }

    /** Takes at most n of the oldest bytes. */
    method Pop(n: nat) returns (error: Error, data: seq<Byte>)
      requires Valid() && (0 < n || Slot(start) != 0)
      modifies `start
      ensures Valid()
      ensures error == if old(Size()) == 0 then EAGAIN else NoError
      ensures error != NoError ==> Contents() == old(Contents()) && data == []
      ensures error == NoError ==>
                && data + Contents() == old(Contents())
                && |data| == if n < old(Size()) then n else old(Size())
    {
      hide Pow2, Window, Wrap;
      if Size() == 0 {
        return EAGAIN, [];
      }
      StartOffset();
      error, data := Read(start, n);
      assert error == NoError;
      PopDone(|data|);
      start := Wrap(start + |data|);
    }

    lemma StartOffset()
      requires Valid()
      ensures Offset(start) == 0 && Offset(end) == Size()
    {
      IntWrap(0);
    }

    /** The state after the oldest bytes are dropped. */
    lemma PopDone(n: nat)
      requires Valid() && n <= Size()
      ensures Wrap(end - Wrap(start + n)) == Size() - n
      ensures Window(buf[..], Wrap(start + n), Size() - n) == Contents()[n..]
      ensures Wrap(start + n) < WORD
    {
      hide Pow2, Wrap, Window;
      Reaches(start, end);
      Below63(order);
      Distance(start, n, Size());
      WrapFits(start + n);
      WindowWrap(buf[..], order, start + n, Size() - n);
      WindowSuffix(buf[..], start, Size(), n);
    }

    method PushB(byte: Byte, erase: bool) returns (error: Error)
      requires Valid()
      modifies `start, `end, buf
      ensures Valid()
      ensures error == if !erase && old(Size()) == capacity then EAGAIN else NoError
      ensures Contents() == if error == NoError then Last(old(Contents()) + [byte], capacity) else old(Contents())
    {
      hide Pow2, Copied, Window, Last, Overwrite, Wrap, Slot;
      if !erase {
        var freeSize := capacity - Size();
        if freeSize == 0 {
          return EAGAIN;
        }
      }
      ghost var s, n, before := start, Size(), buf[..];
      Below63(order);
      SlotFits(end);
      buf[Slot(end)] := byte;
      OneCopied(before, buf[..], Slot(end), byte);
      Reaches(start, end);
      WordMod(start + n, 1);
      WrapFits(s);
      WrapFits(end);
      WrapFits(end + 1);
      end := Wrap(end + 1);
      Distance(s, 0, n + 1);
      UpdateStart();
      WriteDone(before, s, n, n, [byte], Wrap(s + n));
      OverwriteEnd(old(Contents()), [byte]);
      error := NoError;
    }

    method PopB() returns (error: Error, byte: Byte)
      requires Valid()
      modifies `start
      ensures Valid()
      ensures error == if old(Size()) == 0 then EAGAIN else NoError
      ensures error != NoError ==> Contents() == old(Contents())
      ensures error == NoError ==> [byte] + Contents() == old(Contents())
    {
      hide Pow2, Wrap;
      byte := 0;
      if Size() == 0 {
        return EAGAIN, byte;
      }
      byte := buf[Slot(start)];
      PopDone(1);
      assert Contents()[0] == At(buf[..], start, 0);
      start := Wrap(start + 1);
      error := NoError;
    }

    lemma WriteDone(before: seq<Byte>, s: nat, n: nat, offset: nat, data: seq<Byte>, from: nat)
      requires order < 64 && capacity == Pow2(order) == buf.Length == |before|
      requires s < WORD && offset <= n <= capacity && offset + |data| < WORD
      requires end == Wrap(s + if offset + |data| > n then offset + |data| else n)
      requires start == if offset + |data| > capacity then Wrap(end - capacity) else s
      requires from == Wrap(Wrap(s + offset) + if |data| > capacity then |data| - capacity else 0)
      requires Copied(before, buf[..], Slot(from), if |data| > capacity then data[|data| - capacity..] else data)
      ensures Valid()
      ensures Contents() == Last(Overwrite(Window(before, s, n), offset, data), capacity)
    {
      hide Pow2, Copied, Window, Last, Overwrite, Wrap, Slot;
      Below63(order);
      var skip := if |data| > capacity then |data| - capacity else 0;
      var total := if offset + |data| > n then offset + |data| else n;
      var drop := if total > capacity then total - capacity else 0;
      WordMod(s + offset, skip);
      WrapFits(s);
      WrapFits(s + total);
      WrapFits(s + drop);
      if total > capacity {
        Behind(s + total, capacity);
      }
      Distance(s, drop, total);
      assert data[0..] == data;
      SlotIs(from);
      CopiedFrom(before, buf[..], order, s + offset + skip, data[skip..]);
      WriteWindow(before, buf[..], s, n, offset, data, skip);
      WindowWrap(buf[..], order, s + drop, total - drop);
    }
  }

  lemma Reaches(s: nat, e: nat)
    requires s < WORD && e < WORD
    ensures Wrap(s + Wrap(e - s)) == e
  {
    IntWrap(e - s);
    IntWrap(s + Wrap(e - s));
  }

  lemma Distance(s: nat, a: nat, b: nat)
    requires a <= b < a + WORD
    ensures Wrap(Wrap(s + b) - Wrap(s + a)) == b - a
    ensures s < WORD ==> Wrap(s) == s
  {
    var x := Wrap(s + a);
    WordMod(s + a, b - a);
    assert s + a + (b - a) == s + b;
    IntWrap(x + (b - a));
    IntWrap(Wrap(x + (b - a)) - x);
  }

  lemma Behind(n: nat, c: nat)
    requires c <= n && c <= WORD
    ensures Wrap(Wrap(n) - c) == Wrap(n - c)
  {
    WordMod(n - c, c);
    IntWrap(Wrap(n - c) + c);
    IntWrap(Wrap(n) - c);
  }

  lemma WordMod(a: nat, b: nat)
    ensures Wrap(Wrap(a) + b) == Wrap(a + b)
  {}

  lemma CopiedFrom(b: seq<Byte>, b': seq<Byte>, k: nat, base: nat, bytes: seq<Byte>)
    requires k < 64 && |b| == |b'| == Pow2(k)
    requires Copied(b, b', Wrap(base) % |b|, bytes)
    ensures Copied(b, b', base, bytes)
  {
    hide At;
    forall j: nat | j < |b| ensures At(b', base, j) == if j < |bytes| then bytes[j] else At(b, base, j) {
      AtWrap(b, k, base, j);
      AtWrap(b', k, base, j);
      AtSlot(b, Wrap(base), j);
      AtSlot(b', Wrap(base), j);
    }
  }

  lemma WrapOnce(n: nat, d: nat)
    requires 0 < d && n < 2 * d
    ensures n % d == if n < d then n else n - d
  {
    ModUnique(n, d, if n < d then 0 else 1, if n < d then n else n - d);
  }

  lemma Below63(k: nat)
    requires k < 64
    ensures 2 * Pow2(k) <= WORD
  {
    WordIsPow2();
    Pow2Split(k, 64 - k);
    assert Pow2(64 - k) >= 2;
    MulMonotone(Pow2(k), 2, Pow2(64 - k));
  }

  lemma IntWrap(n: int)
    requires 0 - WORD <= n < 2 * WORD
    ensures Wrap(n) == if n < 0 then n + WORD else if n < WORD then n else n - WORD
  {}

  lemma WriteRange(start: nat, end: nat, index: nat, size: nat)
    requires start < WORD && end < WORD && index < WORD
    requires Wrap(index - start) <= Wrap(end - start) && Wrap(index - start) + size < WORD
    ensures var n, total, next := Wrap(end - start), Wrap(index - start) + size, Wrap(index + size);
      && Wrap(next - start) == total
      && ((Wrap(next - start) <= n && Wrap(start - start) <= n && Wrap(end - next) <= n) <==> total <= n)
  {
    var total := Wrap(index - start) + size;
    hide Wrap;
    Reaches(start, index);
    Reaches(start, end);
    WordMod(start + Wrap(index - start), size);
    assert Wrap(index + size) == Wrap(start + total);
    Distance(start, 0, total);
    IntWrap(start - start);
    WrapFits(end - start);
    if total <= Wrap(end - start) {
      Distance(start, total, Wrap(end - start));
    }
  }

  lemma ByteRange(start: nat, end: nat, index: nat, capacity: nat)
    requires start < WORD && end < WORD && index < WORD
    requires Wrap(end - start) <= capacity && 2 * capacity <= WORD
    ensures var size := Wrap(end - start);
      (&& Wrap(Wrap(index + 1) - index) <= size
       && Wrap(index - start) <= size
       && Wrap(end - Wrap(index + 1)) <= size)
      <==> Wrap(index - start) < size
  {
    var next := Wrap(index + 1);
    IntWrap(index + 1);
    IntWrap(end - start);
    IntWrap(index - start);
    IntWrap(end - next);
    IntWrap(next - index);
  }

  // ---- Runs ----

  datatype Op =
    | PushOp(data: seq<Byte>, erase: bool)
    | PopOp(n: nat)
    | PushBOp(byte: Byte, erase: bool)
    | PopBOp
    | WriteOp(offset: nat, bytes: seq<Byte>)
    | ClearOp

  /**
   * The contents of a buffer, with the stream of all the bytes that entered it
   * so far, a write changing those it overwrites, and the bytes popped.
   */
  datatype Trace = Trace(contents: seq<Byte>, stream: seq<Byte>, popped: seq<Byte>)

  function Pushed(capacity: nat, t: Trace, data: seq<Byte>, erase: bool): Trace {
    if !erase && |t.contents| + |data| > capacity then t
    else Trace(Last(t.contents + data, capacity), t.stream + data, t.popped)
  }

  function Popped(t: Trace, n: nat): Trace {
    var k := if n < |t.contents| then n else |t.contents|;
    Trace(t.contents[k..], t.stream, t.popped + t.contents[..k])
  }

  function Written(capacity: nat, t: Trace, offset: nat, data: seq<Byte>): Trace {
    if offset > |t.contents| || |t.contents| > |t.stream| then t
    else Trace(Last(Overwrite(t.contents, offset, data), capacity),
               Overwrite(t.stream, |t.stream| - |t.contents| + offset, data), t.popped)
  }

  function Apply(capacity: nat, t: Trace, op: Op): Trace {
    match op
    case PushOp(data, erase) => Pushed(capacity, t, data, erase)
    case PopOp(n) => Popped(t, n)
    case PushBOp(byte, erase) => Pushed(capacity, t, [byte], erase)
    case PopBOp => Popped(t, 1)
    case WriteOp(offset, data) => Written(capacity, t, offset, data)
    case ClearOp => t.(contents := [])
  }

  function Run(capacity: nat, t: Trace, ops: seq<Op>): Trace {
    if ops == [] then t else Apply(capacity, Run(capacity, t, ops[..|ops| - 1]), ops[|ops| - 1])
  }

  /** The operations of a run, with sizes that do not wrap the index space. */
  predicate Sized(capacity: nat, op: Op) {
    match op
    case PushOp(data, erase) => 0 < |data| && capacity + |data| < WORD
    case PopOp(n) => 0 < n
    case WriteOp(offset, data) => 0 < |data| && offset + |data| < WORD
    case _ => true
  }

  /** Runs operations on a buffer. */
  method Execute(cbuf: CircularBuffer, ops: seq<Op>, ghost was: Trace) returns (taken: seq<Byte>, ghost t: Trace)
    requires cbuf.Valid() && cbuf.Contents() == was.contents && |was.contents| <= |was.stream|
    requires forall op :: op in ops ==> Sized(cbuf.capacity, op)
    modifies cbuf, cbuf.buf
    ensures cbuf.Valid() && t == Run(cbuf.capacity, was, ops)
    ensures t.contents == cbuf.Contents() && t.popped == was.popped + taken
  {
    hide Apply;
    taken, t := [], was;
    var i := 0;
    assert ops[..0] == [];
    while i < |ops|
      invariant 0 <= i <= |ops| && cbuf.Valid() && t == Run(cbuf.capacity, was, ops[..i])
      invariant t.contents == cbuf.Contents() && t.popped == was.popped + taken && |t.contents| <= |t.stream|
    {
      assert ops[..i + 1][..i] == ops[..i];
      StreamGrows(cbuf.capacity, t, ops[i]);
      ghost var before := t;
      t := Apply(cbuf.capacity, t, ops[i]);
      var more := Do(cbuf, ops[i], before);
      taken := taken + more;
      i := i + 1;
    }
    assert ops[..|ops|] == ops;
  }

  /** One operation of a run. */
  method Do(cbuf: CircularBuffer, op: Op, ghost t: Trace) returns (taken: seq<Byte>)
    requires cbuf.Valid() && cbuf.Contents() == t.contents && |t.contents| <= |t.stream| && Sized(cbuf.capacity, op)
    modifies cbuf, cbuf.buf
    ensures cbuf.Valid() && Apply(cbuf.capacity, t, op).contents == cbuf.Contents()
    ensures Apply(cbuf.capacity, t, op).popped == t.popped + taken
  {
    hide Last, Overwrite, Wrap, CircularBuffer.Slot, Window, Pow2;
    taken := [];
    match op
    case PushOp(data, erase) =>
      var error := cbuf.Push(data, erase);
    case PopOp(n) =>
      var error;
      error, taken := cbuf.Pop(n);
      PopSplit(t.contents, cbuf.Contents(), taken, n);
    case PushBOp(byte, erase) =>
      var error := cbuf.PushB(byte, erase);
    case PopBOp =>
      var error, byte := cbuf.PopB();
      taken := if error == NoError then [byte] else [];
      PopSplit(t.contents, cbuf.Contents(), taken, 1);
    case WriteOp(offset, data) =>
      OffsetOf(cbuf.start, offset);
      var error := cbuf.Write(Wrap(cbuf.start + offset), data);
    case ClearOp =>
      cbuf.Clear();
  }

  lemma OffsetOf(start: nat, offset: nat)
    requires start < WORD && offset < WORD
    ensures Wrap(start + offset) < WORD && Wrap(Wrap(start + offset) - start) == offset
  {
    Distance(start, 0, offset);
  }

  lemma PopSplit(was: seq<Byte>, now: seq<Byte>, taken: seq<Byte>, n: nat)
    requires taken + now == was && |taken| == if n < |was| then n else |was|
    ensures taken == was[..|taken|] && now == was[|taken|..]
  {}

  lemma StreamGrows(capacity: nat, t: Trace, op: Op)
    requires |t.contents| <= |t.stream|
    ensures var t' := Apply(capacity, t, op); |t'.contents| <= |t'.stream|
  {}

  lemma LastPush<T>(s: seq<T>, n: nat, data: seq<T>, capacity: nat)
    requires n <= |s|
    ensures var r := Last(Last(s, n) + data, capacity);
      r == Last(s + data, |r|) && |r| <= capacity && |r| <= |s + data|
  {
    assert Last(s, n) + data == (s + data)[|s| - n..];
  }

  lemma LastWrite(s: seq<Byte>, n: nat, offset: nat, data: seq<Byte>, capacity: nat)
    requires offset <= n <= |s|
    ensures |Last(s, n)| == n
    ensures var r, all := Last(Overwrite(Last(s, n), offset, data), capacity), Overwrite(s, |s| - n + offset, data);
      r == Last(all, |r|) && |r| <= capacity && |r| <= |all|
  {
    var w, all, d := Overwrite(Last(s, n), offset, data), Overwrite(s, |s| - n + offset, data), |s| - n;
    assert |all| == d + |w|;
    forall i | 0 <= i < |w| ensures w[i] == all[d + i] {}
    assert w == all[d..];
  }

  lemma LastShort<T>(s: seq<T>, n: nat)
    ensures |s| <= n ==> Last(s, n) == s
  {}

  lemma LastEmpty<T>(s: seq<T>)
    ensures Last(s, 0) == []
  {}

  lemma LastPop<T>(s: seq<T>, n: nat, k: nat)
    requires k <= n <= |s|
    ensures |Last(s, n)| == n && Last(s, n)[k..] == Last(s, n - k)
  {}

  /** The contents are the latest bytes of the stream. */
  ghost predicate Latest(capacity: nat, t: Trace) {
    |t.contents| <= capacity && |t.contents| <= |t.stream| && t.contents == Last(t.stream, |t.contents|)
  }

  lemma LatestKept(capacity: nat, t: Trace, op: Op)
    requires Latest(capacity, t)
    ensures Latest(capacity, Apply(capacity, t, op))
  {
    hide Last, Overwrite;
    var n := |t.contents|;
    match op
    case PushOp(data, erase) => LastPush(t.stream, n, data, capacity);
    case PopOp(k) => LastPop(t.stream, n, if k < n then k else n);
    case PushBOp(byte, erase) => LastPush(t.stream, n, [byte], capacity);
    case PopBOp => LastPop(t.stream, n, if 1 < n then 1 else n);
    case WriteOp(offset, data) => if offset <= n { LastWrite(t.stream, n, offset, data, capacity); }
    case ClearOp => LastEmpty(t.stream);
  }

  /**
   * After any run of an empty buffer, it holds the latest of the bytes that
   * entered it, in order, at most a capacity of them.
   */
  lemma {:induction false} RunKeepsLast(capacity: nat, ops: seq<Op>)
    ensures Latest(capacity, Run(capacity, Trace([], [], []), ops))
  {
    if ops == [] {
      LastEmpty<Byte>([]);
    } else {
      hide Apply, Latest;
      RunKeepsLast(capacity, ops[..|ops| - 1]);
      LatestKept(capacity, Run(capacity, Trace([], [], []), ops[..|ops| - 1]), ops[|ops| - 1]);
    }
  }

  /** An operation that never drops bytes that were not popped. */
  predicate Keeps(capacity: nat, op: Op) {
    match op
    case PushOp(data, erase) => !erase
    case PushBOp(byte, erase) => !erase
    case WriteOp(offset, data) => offset + |data| <= capacity
    case ClearOp => false
    case _ => true
  }

  lemma AllKept(capacity: nat, t: Trace, op: Op)
    requires t.popped + t.contents == t.stream && |t.contents| <= capacity && Keeps(capacity, op)
    ensures var t' := Apply(capacity, t, op); t'.popped + t'.contents == t'.stream && |t'.contents| <= capacity
  {
    hide Last;
    match op
    case PushOp(data, erase) =>
      LastShort(t.contents + data, capacity);
      assert t.popped + (t.contents + data) == t.popped + t.contents + data;
    case PopOp(n) =>
      var k := if n < |t.contents| then n else |t.contents|;
      assert t.popped + t.contents[..k] + t.contents[k..] == t.popped + t.contents;
    case PushBOp(byte, erase) =>
      LastShort(t.contents + [byte], capacity);
      assert t.popped + (t.contents + [byte]) == t.popped + t.contents + [byte];
    case PopBOp =>
      var k := if 1 < |t.contents| then 1 else |t.contents|;
      assert t.popped + t.contents[..k] + t.contents[k..] == t.popped + t.contents;
    case WriteOp(offset, data) =>
      if offset <= |t.contents| {
        LastShort(Overwrite(t.contents, offset, data), capacity);
        WriteBehind(t.popped, t.contents, offset, data);
      }
    case _ =>
  }

  lemma WriteBehind(p: seq<Byte>, c: seq<Byte>, offset: nat, data: seq<Byte>)
    requires offset <= |c|
    ensures p + Overwrite(c, offset, data) == Overwrite(p + c, |p| + offset, data)
    ensures |Overwrite(c, offset, data)| == if offset + |data| > |c| then offset + |data| else |c|
  {}

  /** Without erasing, every byte of the stream is popped once, in order, or still in the buffer. */
  lemma {:induction false} RunFirstInFirstOut(capacity: nat, ops: seq<Op>)
    requires forall op :: op in ops ==> Keeps(capacity, op)
    ensures var t := Run(capacity, Trace([], [], []), ops);
      t.popped + t.contents == t.stream && |t.contents| <= capacity
  {
    hide Apply, Keeps;
    if ops != [] {
      RunFirstInFirstOut(capacity, ops[..|ops| - 1]);
      AllKept(capacity, Run(capacity, Trace([], [], []), ops[..|ops| - 1]), ops[|ops| - 1]);
    }
  }
}
