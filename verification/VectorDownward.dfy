/**
 The growable buffer of FlatBufferBuilder (vector_downward.h, allocator.h): one allocation
 that holds two stacks, serialized data growing down from the end and scratch data growing
 up from the start.
 */
module VectorDownward {
  import opened Bits
  import opened Bytes
  import opened Wrappers

  /** The range of uoffset_t, the size type of the 32-bit builder. */
  const UOFFSET: nat := 0x1_0000_0000

  // ---------- How far the buffer grows ----------

  /** The least multiple of 2^k from n on. */
  function RoundUp(n: nat, k: nat): (r: nat)
    ensures n <= r < n + Pow2(k) && r % Pow2(k) == 0
  {
    RoundUpFacts(n, Pow2(k));
    (n + Pow2(k) - 1) / Pow2(k) * Pow2(k)
  }

  lemma RoundUpFacts(n: nat, m: nat)
    requires m > 0
    ensures var r := (n + m - 1) / m * m; n <= r < n + m && r % m == 0
  {
    var q := (n + m - 1) / m;
    assert n + m - 1 == m * q + (n + m - 1) % m;
    ModUnique(q * m, m, q, 0);
  }

  /** `(n + a - 1) & ~(a - 1)` for a = 2^k, as long as it does not wrap. */
  lemma RoundUpIsMask(n: nat, k: nat)
    requires k < 64 && n + Pow2(k) <= WORD
    ensures Pow2(k) <= WORD && And(n + Pow2(k) - 1, Not(Pow2(k) - 1)) == RoundUp(n, k)
  {
    WordIsPow2();
    Pow2Mono(k, 64);
    AndHighMask(n + Pow2(k) - 1, k, 64, WORD - Pow2(k));
    hide And, Pow2;
    MultipleBelow(n + Pow2(k) - 1, Pow2(k));
  }

  lemma WordIsPow2()
    ensures Pow2(64) == WORD
  {
    Pow2Values();
  }

  lemma MultipleBelow(x: nat, m: nat)
    requires m > 0
    ensures x - x % m == x / m * m
  {
    assert x == m * (x / m) + x % m;
  }

  function Max(a: nat, b: nat): nat { if a > b then a else b }

  /** The next capacity: half as much again, or more if `len` or the initial size ask for it. */
  function Grown(reserved: nat, initialSize: nat, len: nat, k: nat): (r: nat)
    ensures r >= reserved + len && r % Pow2(k) == 0
  {
    RoundUp(reserved + Max(len, if reserved > 0 then reserved / 2 else initialSize), k)
  }

  /**
   Growth by half pays for copying: when capacities are even, a copy of everything in use
   never lifts the total copied above twice the new capacity.
   */
  lemma GrowthPays(reserved: nat, initialSize: nat, len: nat, k: nat, copied: nat, used: nat)
    requires k > 0 && reserved > 0 && reserved % Pow2(k) == 0 && used <= reserved && copied <= 2 * reserved
    ensures copied + used <= 2 * Grown(reserved, initialSize, len, k)
  {
    assert Pow2(k) == 2 * Pow2(k - 1);
    var q := reserved / Pow2(k);
    assert reserved == 2 * Pow2(k - 1) * q == 2 * (Pow2(k - 1) * q);
  }

  /** The sizes that decide when the buffer grows, and the bytes all reallocations so far have copied. */
  datatype Usage = Usage(reserved: nat, copied: nat, size: nat, scratch: nat)

  datatype Op =
    | Data(n: nat)          // make_space, push, fill
    | ScratchData(n: nat)   // scratch_push_small
    | Ensure(n: nat)        // ensure_space
    | Drop(n: nat)          // pop
    | ScratchDrop(n: nat)   // scratch_pop
    | Empty                 // clear

  /** ensure_space: the gap is compared as a 32-bit size. */
  function MakeRoom(u: Usage, len: nat, initialSize: nat, k: nat): Usage {
    if u.size + u.scratch <= u.reserved && len > (u.reserved - u.size - u.scratch) % UOFFSET then
      Usage(Grown(u.reserved, initialSize, len, k), u.copied + (if u.reserved > 0 then u.size + u.scratch else 0),
          u.size, u.scratch)
    else u
  }

  /** An operation stays below the range of sizes, and takes away no more than there is. */
  predicate Legal(u: Usage, op: Op) {
    match op
    case Data(n) => u.size + n < UOFFSET
    case ScratchData(n) => u.scratch + n < UOFFSET
    case Drop(n) => n <= u.size
    case ScratchDrop(n) => n <= u.scratch
    case _ => true
  }

  function Perform(u: Usage, op: Op, initialSize: nat, k: nat): Usage
    requires Legal(u, op)
  {
    match op
    case Data(n) => var r := MakeRoom(u, n, initialSize, k); r.(size := r.size + n)
    case ScratchData(n) => var r := MakeRoom(u, n, initialSize, k); r.(scratch := r.scratch + n)
    case Ensure(n) => MakeRoom(u, n, initialSize, k)
    case Drop(n) => u.(size := u.size - n)
    case ScratchDrop(n) => u.(scratch := u.scratch - n)
    case Empty => u.(size := 0, scratch := 0)
  }

  /** The usage of a new buffer after some operations; None when one of them is not allowed. */
  function PerformAll(initialSize: nat, k: nat, ops: seq<Op>): Option<Usage>
    decreases |ops|
  {
    if ops == [] then Some(Usage(0, 0, 0, 0))
    else
      var n := |ops| - 1;
      var u :- PerformAll(initialSize, k, ops[..n]);
      if Legal(u, ops[n]) then Some(Perform(u, ops[n], initialSize, k)) else None
  }

  /** The capacity is aligned, and for even alignments twice of it pays for all copying so far. */
  predicate CapacityOk(reserved: nat, copied: nat, alignBits: nat) {
    && reserved % Pow2(alignBits) == 0
    && (alignBits > 0 ==> copied <= 2 * reserved)
  }

  lemma MakeRoomOk(u: Usage, len: nat, initialSize: nat, k: nat)
    requires u.size + u.scratch <= u.reserved && CapacityOk(u.reserved, u.copied, k)
    ensures var r := MakeRoom(u, len, initialSize, k);
            && r.size == u.size && r.scratch == u.scratch
            && r.size + r.scratch + len <= r.reserved && CapacityOk(r.reserved, r.copied, k)
  {
    if k > 0 && u.reserved > 0 { GrowthPays(u.reserved, initialSize, len, k, u.copied, u.size + u.scratch); }
    ModBelow(u.reserved - u.size - u.scratch, UOFFSET);
  }

  /**
   The buffer grows exactly when the bytes asked for do not fit, as long as the gap has a
   32-bit size, and then to the least aligned capacity that holds them in addition to all
   there was and is half as large again, or the initial size larger.
   */
  lemma GrowsWhenNeeded(u: Usage, len: nat, initialSize: nat, k: nat, capacity: nat)
    requires u.size + u.scratch <= u.reserved && capacity % Pow2(k) == 0
    ensures var r := MakeRoom(u, len, initialSize, k);
            && (u.reserved - u.size - u.scratch < UOFFSET ==>
                  (r == u <==> u.size + u.scratch + len <= u.reserved))
            && (r != u ==>
                  (r.reserved <= capacity <==>
                     && u.reserved + len <= capacity
                     && u.reserved + (if u.reserved > 0 then u.reserved / 2 else initialSize) <= capacity))
  {
    hide Pow2;
    var gap := u.reserved - u.size - u.scratch;
    if gap < UOFFSET { ModUnique(gap, UOFFSET, 0, gap); }
    var asked := u.reserved + Max(len, if u.reserved > 0 then u.reserved / 2 else initialSize);
    if asked <= capacity { RoundUpLeast(asked, k, capacity); }
  }

  lemma RoundUpLeast(n: nat, k: nat, m: nat)
    requires n <= m && m % Pow2(k) == 0
    ensures RoundUp(n, k) <= m
  {
    hide Pow2;
    var p, r := Pow2(k), RoundUp(n, k);
    if m < r {
      var q := m / p;
      assert m == p * q;
      ModUnique(r, p, q, r - m);
      assert false;
    }
  }

  lemma ModBelow(n: nat, m: nat)
    requires m > 0
    ensures n % m <= n
  {
    assert n == m * (n / m) + n % m;
  }

  lemma {:induction false} PerformAllOk(initialSize: nat, k: nat, ops: seq<Op>)
    requires PerformAll(initialSize, k, ops).Some?
    ensures var u := PerformAll(initialSize, k, ops).value;
            u.size + u.scratch <= u.reserved && CapacityOk(u.reserved, u.copied, k)
    decreases |ops|
  {
    hide CapacityOk, MakeRoom;
    if ops == [] {
      NothingCopied(k);
    } else {
      var n := |ops| - 1;
      PerformAllOk(initialSize, k, ops[..n]);
      var u := PerformAll(initialSize, k, ops[..n]).value;
      match ops[n]
      case Data(len) => MakeRoomOk(u, len, initialSize, k);
      case ScratchData(len) => MakeRoomOk(u, len, initialSize, k);
      case Ensure(len) => MakeRoomOk(u, len, initialSize, k);
      case _ =>
    }
  }

  lemma NothingCopied(k: nat)
    ensures CapacityOk(0, 0, k)
  {
  }

  /** At alignment 1, adding half of a full buffer's capacity copies it and leaves the buffer full again. */
  lemma FullGrows(ops: seq<Op>, m: nat, reserved: nat, copied: nat)
    requires PerformAll(1, 0, ops) == Some(Usage(reserved, copied, reserved, 0))
    requires m == Max(1, reserved / 2) && 0 < reserved && reserved + m < UOFFSET
    ensures PerformAll(1, 0, ops + [Data(m)]) == Some(Usage(reserved + m, copied + reserved, reserved + m, 0))
  {
    hide Grown;
    assert (ops + [Data(m)])[..|ops|] == ops;
    GrownAtOne(reserved, m);
  }

  lemma GrownAtOne(reserved: nat, m: nat)
    requires m == Max(1, reserved / 2)
    ensures Grown(reserved, 1, m, 0) == reserved + m
  {
    hide RoundUp;
  }

  /** With odd capacities half is rounded down, and copying overtakes twice the capacity: 57 bytes for 28. */
  lemma OddCapacitiesCopyMore() returns (ops: seq<Op>)
    ensures PerformAll(1, 0, ops) == Some(Usage(28, 57, 28, 0))
  {
    hide PerformAll, Perform;
    ops := [Data(1)];
    FirstByte();
    FullGrows(ops, 1, 1, 0);
    ops := ops + [Data(1)];
    FullGrows(ops, 1, 2, 1);
    ops := ops + [Data(1)];
    FullGrows(ops, 1, 3, 3);
    ops := ops + [Data(1)];
    FullGrows(ops, 2, 4, 6);
    ops := ops + [Data(2)];
    FullGrows(ops, 3, 6, 10);
    ops := ops + [Data(3)];
    FullGrows(ops, 4, 9, 16);
    ops := ops + [Data(4)];
    FullGrows(ops, 6, 13, 25);
    ops := ops + [Data(6)];
    FullGrows(ops, 9, 19, 38);
    ops := ops + [Data(9)];
  }

  lemma FirstByte()
    ensures PerformAll(1, 0, [Data(1)]) == Some(Usage(1, 0, 1, 0))
  {
    hide Grown;
    assert [Data(1)][..0] == [];
    GrownAtOne(0, 1);
  }

  /**
   Amortised growth, exactly: over every sequence of operations, for every initial size, all
   reallocations together copy at most twice the capacity if and only if the alignment is even.
   */
  lemma CopyingBounded(alignBits: nat)
    ensures (forall initialSize: nat, ops: seq<Op> :: PerformAll(initialSize, alignBits, ops).Some? ==>
               PerformAll(initialSize, alignBits, ops).value.copied <= 2 * PerformAll(initialSize, alignBits,
                   ops).value.reserved)
            <==> alignBits > 0
  {
    hide PerformAll;
    if alignBits > 0 {
      forall initialSize: nat, ops: seq<Op> | PerformAll(initialSize, alignBits, ops).Some?
        ensures PerformAll(initialSize, alignBits, ops).value.copied <= 2 * PerformAll(initialSize, alignBits,
                ops).value.reserved
      {
        PerformAllOk(initialSize, alignBits, ops);
      }
    } else {
      var ops := OddCapacitiesCopyMore();
    }
  }

  /** `d` with `s` written over the bytes from `offset` before its end on. */
  function Patched(d: bytes, offset: nat, s: bytes): (r: bytes)
    requires |s| <= offset <= |d|
    ensures |r| == |d|
  {
    d[..|d| - offset] + s + d[|d| - offset + |s|..]
  }

  lemma PatchedParts(d: bytes, r: bytes, offset: nat, s: bytes)
    requires |s| <= offset <= |d| == |r|
    requires var at := |d| - offset; r[..at] == d[..at] && r[at..at + |s|] == s && r[at + |s|..] == d[at + |s|..]
    ensures r == Patched(d, offset, s)
  {
    var at := |d| - offset;
    assert r == r[..at] + r[at..at + |s|] + r[at + |s|..];
  }

  lemma ScratchDataIs(u: Usage, n: nat, initialSize: nat, k: nat)
    requires u.scratch + n < UOFFSET
    ensures Perform(u, ScratchData(n), initialSize, k) ==
            (var r := Perform(u, Ensure(n), initialSize, k); r.(scratch := r.scratch + n))
  {
  }

  // ---------- The buffer ----------

  class VectorDownward {
    const initialSize: nat
    const alignBits: nat       // buffer_minalign_ is 2^alignBits
    var reserved: nat
    var size: nat
    var buf: array<byte>       // empty until storage is first needed
    var cur: nat               // between unused (below) and data (above)
    var scratch: nat           // end of the scratch data
    ghost var copied: nat      // bytes copied by reallocations since there was no storage

    ghost predicate Valid()
      reads this
    {
      && buf.Length == reserved
      && scratch <= cur <= reserved && size == reserved - cur
      && size < UOFFSET && scratch < UOFFSET
      && CapacityOk(reserved, copied, alignBits)
    }

    /** The serialized data. */
    ghost function Contents(): (s: bytes)
      requires Valid()
      reads this, buf
      ensures |s| == size
    {
      buf[cur..]
    }

    ghost function Scratch(): (s: bytes)
      requires Valid()
      reads this, buf
      ensures |s| == scratch
    {
      buf[..scratch]
    }

    ghost function Use(): Usage
      reads this
    {
      Usage(reserved, copied, size, scratch)
    }

    constructor (initialSize: nat, alignBits: nat)
      ensures Use() == Usage(0, 0, 0, 0)
      ensures Valid() && fresh(buf) && Contents() == [] && Scratch() == []
      ensures this.initialSize == initialSize && this.alignBits == alignBits
    {
      this.initialSize := initialSize;
      this.alignBits := alignBits;
      reserved, size, cur, scratch, copied := 0, 0, 0, 0, 0;
      buf := new byte[0];
    }

    /** The 32-bit size of the gap, which may be smaller than the gap. */
    function UnusedSize(): nat
      requires Valid()
      reads this
    {
      (cur - scratch) % UOFFSET
    }

    /** Moves both ends into a larger allocation. */
    method Reallocate(len: nat)
      requires Valid() && len > 0
      modifies this
      ensures Valid() && fresh(buf)
      ensures Contents() == old(Contents()) && Scratch() == old(Scratch())
      ensures cur - scratch >= old(cur - scratch) + len
      ensures size == old(size) && scratch == old(scratch)
      ensures reserved == Grown(old(reserved), initialSize, len, alignBits)
      ensures copied == old(copied) + if old(reserved) > 0 then size + scratch else 0
    {
      var newReserved := Grown(reserved, initialSize, len, alignBits);
      if alignBits > 0 && reserved > 0 { GrowthPays(reserved, initialSize, len, alignBits, copied, size + scratch); }
      var newBuf := new byte[newReserved](_ => 0);
      if reserved > 0 {
        MemcpyDownward(buf, newBuf, size, scratch);
        copied := copied + size + scratch;
      }
      buf, reserved := newBuf, newReserved;
      cur := reserved - size;
    }

    method EnsureSpace(len: nat)
      requires Valid()
      modifies this
      ensures Valid() && (buf == old(buf) || fresh(buf))
      ensures Contents() == old(Contents()) && Scratch() == old(Scratch())
      ensures cur - scratch >= len
      ensures size == old(size) && scratch == old(scratch)
      ensures Use() == Perform(old(Use()), Ensure(len), initialSize, alignBits)
    {
      hide CapacityOk;
      if len > UnusedSize() { Reallocate(len); }
    }

    /** Room for `len` more bytes of data, whose values are left open. */
    method MakeSpace(len: nat)
      requires Valid() && size + len < UOFFSET
      modifies this
      ensures Valid() && (buf == old(buf) || fresh(buf))
      ensures size == old(size) + len
      ensures Contents()[len..] == old(Contents()) && Scratch() == old(Scratch())
      ensures Use() == Perform(old(Use()), Data(len), initialSize, alignBits)
    {
      hide CapacityOk;
      if len > 0 {
        EnsureSpace(len);
        cur := cur - len;
        size := size + len;
      }
    }

    method Push(s: bytes)
      requires Valid() && size + |s| < UOFFSET
      modifies this, buf
      ensures Valid() && (buf == old(buf) || fresh(buf))
      ensures Contents() == s + old(Contents()) && Scratch() == old(Scratch())
      ensures Use() == Perform(old(Use()), Data(|s|), initialSize, alignBits)
    {
      hide CapacityOk, Perform;
      MakeSpace(|s|);
      forall i | 0 <= i < |s| { buf[cur + i] := s[i]; }
      assert Contents()[|s|..] == old(Contents());
      assert Contents()[..|s|] == s;
    }

    method Fill(n: nat)
      requires Valid() && size + n < UOFFSET
      modifies this, buf
      ensures Valid() && (buf == old(buf) || fresh(buf))
      ensures Contents() == Zeros(n) + old(Contents()) && Scratch() == old(Scratch())
      ensures Use() == Perform(old(Use()), Data(n), initialSize, alignBits)
    {
      hide CapacityOk, Perform;
      MakeSpace(n);
      label made:
      for i := 0 to n
        modifies buf
        invariant forall k :: cur <= k < cur + i ==> buf[k] == 0
        invariant buf[cur + n..] == old@made(buf[cur + n..])
        invariant buf[..scratch] == old@made(buf[..scratch])
      {
        buf[cur + i] := 0;
      }
      assert Contents()[n..] == old(Contents());
      assert Contents()[..n] == Zeros(n);
    }

    method Pop(n: nat)
      requires Valid() && n <= size
      modifies this
      ensures Valid() && buf == old(buf)
      ensures Contents() == old(Contents())[n..] && Scratch() == old(Scratch())
      ensures Use() == Perform(old(Use()), Drop(n), initialSize, alignBits)
    {
      hide CapacityOk;
      cur := cur + n;
      size := size - n;
    }

    /** Writes behind the scratch data, where there is room. */
    method StoreScratch(s: bytes)
      requires Valid() && scratch + |s| <= cur && scratch + |s| < UOFFSET
      modifies this`scratch, buf
      ensures Valid() && scratch == old(scratch) + |s|
      ensures Contents() == old(Contents()) && Scratch() == old(Scratch()) + s
    {
      hide CapacityOk;
      forall i | 0 <= i < |s| { buf[scratch + i] := s[i]; }
      assert buf[cur..] == old(buf[cur..]);
      assert buf[..scratch] == old(buf[..scratch]);
      assert buf[scratch..scratch + |s|] == s;
      scratch := scratch + |s|;
      assert buf[..scratch] == buf[..scratch - |s|] + buf[scratch - |s|..scratch];
    }

    method ScratchPush(s: bytes)
      requires Valid() && scratch + |s| < UOFFSET
      modifies this, buf
      ensures Valid() && (buf == old(buf) || fresh(buf))
      ensures Contents() == old(Contents()) && Scratch() == old(Scratch()) + s
      ensures Use() == Perform(old(Use()), ScratchData(|s|), initialSize, alignBits)
    {
      hide CapacityOk, Perform;
      EnsureSpace(|s|);
      ScratchDataIs(old(Use()), |s|, initialSize, alignBits);
      StoreScratch(s);
    }

    method ScratchPop(n: nat)
      requires Valid() && n <= scratch
      modifies this
      ensures Valid() && buf == old(buf)
      ensures Contents() == old(Contents()) && Scratch() == old(Scratch())[..old(scratch) - n]
      ensures Use() == Perform(old(Use()), ScratchDrop(n), initialSize, alignBits)
    {
      hide CapacityOk;
      scratch := scratch - n;
    }

    method ClearScratch()
      requires Valid()
      modifies this
      ensures Valid() && buf == old(buf)
      ensures Contents() == old(Contents()) && Scratch() == []
      ensures Use() == Perform(old(Use()), ScratchDrop(old(scratch)), initialSize, alignBits)
    {
      scratch := 0;
    }

    /** Empties both stacks and keeps the storage. */
    method Clear()
      requires Valid()
      modifies this
      ensures Valid() && buf == old(buf) && Contents() == [] && Scratch() == []
      ensures Use() == Perform(old(Use()), Empty, initialSize, alignBits)
    {
      cur, size, scratch := reserved, 0, 0;
    }

    /** Gives the storage up as well: copying is counted afresh. */
    method Reset()
      requires Valid()
      modifies this
      ensures Valid() && fresh(buf) && Contents() == [] && Scratch() == [] && Use() == Usage(0, 0, 0, 0)
    {
      buf := new byte[0];
      reserved, cur, size, scratch, copied := 0, 0, 0, 0, 0;
    }

    /** The scalar of `w` bytes at scratch position `i`. */
    function ScratchScalar(i: nat, w: nat): (n: nat)
      requires Valid() && i + w <= scratch
      reads this, buf
      ensures n == FromLE(Scratch()[i..i + w])
    {
      assert buf[i..i + w] == Scratch()[i..i + w];
      FromLE(buf[i..i + w])
    }

    /** The scalar of `w` bytes at data position `i`. */
    function DataScalar(i: nat, w: nat): (n: nat)
      requires Valid() && i + w <= size
      reads this, buf
      ensures n == FromLE(Contents()[i..i + w])
    {
      assert buf[cur + i..cur + i + w] == Contents()[i..i + w];
      FromLE(buf[cur + i..cur + i + w])
    }

    /** The data `offset` bytes before the end, however often the buffer moved. */
    function DataAt(offset: nat): (i: nat)
      requires Valid() && offset <= size
      reads this, buf
      ensures i + offset == buf.Length && buf[i..] == Contents()[size - offset..]
    {
      reserved - offset
    }

    /** Overwrites bytes `offset` before the end. */
    method WriteAt(offset: nat, s: bytes)
      requires Valid() && |s| <= offset <= size
      modifies buf
      ensures Valid() && Scratch() == old(Scratch())
      ensures Contents() == Patched(old(Contents()), offset, s)
    {
      hide CapacityOk, Patched;
      var p := DataAt(offset);
      forall i | 0 <= i < |s| { buf[p + i] := s[i]; }
      var at := size - offset;
      assert Contents()[..at] == old(Contents()[..at]);
      assert Contents()[at..at + |s|] == s;
      assert Contents()[at + |s|..] == old(Contents()[at + |s|..]);
      PatchedParts(old(Contents()), Contents(), offset, s);
    }
  }

  /** memcpy_downward: the used back to the end of the new region, the used front to its start. */
  method MemcpyDownward(from: array<byte>, to: array<byte>, back: nat, front: nat)
    requires from != to && front + back <= from.Length <= to.Length
    modifies to
    ensures to[to.Length - back..] == from[from.Length - back..]
    ensures to[..front] == from[..front]
  {
    forall i | 0 <= i < back { to[to.Length - back + i] := from[from.Length - back + i]; }
    forall i | 0 <= i < front { to[i] := from[i]; }
  }
}
