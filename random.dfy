/** The /dev/random device: an 8-bit Fibonacci linear feedback shift register
    whose state is a single seed byte shared by all readers and writers. */
module RandomDev {

  /** The seed the device holds after boot-time initialisation. */
  const INITIAL_SEED: bv8 := 0x2A

  /** One LFSR step: shift right by one and feed back the XOR of bits 0, 2, 3
      and 4 into bit 7. */
  function LfsrChar(lfsr: bv8): bv8
  {
    var bit := ((lfsr >> 0) ^ (lfsr >> 2) ^ (lfsr >> 3) ^ (lfsr >> 4)) & 0x01;
    (lfsr >> 1) | (bit << 7)
  }

  /** Bit `i` of a byte, as 0 or 1. */
  function Bit(x: bv8, i: nat): bv8
    requires i < 8
  {
    (x >> i) & 1
  }

  /** The shift: bits 0..6 of the result are bits 1..7 of the input, and the
      feedback bit 7 is the XOR of the tapped bits 0, 2, 3 and 4. */
  lemma LfsrCharBits(x: bv8)
    ensures forall i :: 0 <= i < 7 ==> Bit(LfsrChar(x), i) == Bit(x, i + 1)
    ensures Bit(LfsrChar(x), 7) == Bit(x, 0) ^ Bit(x, 2) ^ Bit(x, 3) ^ Bit(x, 4)
  {
  }

  /** Recovers the input of a step from its output: bit 0 of the input is the
      feedback bit XORed with the three other taps, which survive shifted. */
  function LfsrUnstep(y: bv8): (x: bv8)
    ensures LfsrChar(x) == y
  {
    var b0 := ((y >> 7) ^ (y >> 1) ^ (y >> 2) ^ (y >> 3)) & 0x01;
    (y << 1) | b0
  }

  /** A step is a bijection on bytes; in particular it is injective. */
  lemma LfsrCharInjective(x: bv8, y: bv8)
    ensures LfsrUnstep(LfsrChar(x)) == x
    ensures LfsrChar(x) == LfsrChar(y) ==> x == y
  {
  }

  /** The all-zero state is the LFSR's only fixed point. */
  lemma LfsrCharFixedPoint(x: bv8)
    ensures LfsrChar(x) == x <==> x == 0
  {
  }

  /** The k-th iterate of the generator from `seed`. */
  function Iterate(seed: bv8, k: nat): bv8
    decreases k
  {
    if k == 0 then seed else LfsrChar(Iterate(seed, k - 1))
  }

  lemma {:induction false} IterateAdd(seed: bv8, a: nat, b: nat)
    ensures Iterate(Iterate(seed, a), b) == Iterate(seed, a + b)
    decreases b
  {
    if b > 0 {
      IterateAdd(seed, a, b - 1);
    }
  }

  /** A generator seeded with 0 only ever yields 0. */
  lemma {:induction false} IterateZero(k: nat)
    ensures Iterate(0, k) == 0
  {
    if k > 0 {
      IterateZero(k - 1);
    }
  }

  /** Different seeds never produce the same k-th output, and a non-zero seed
      never reaches 0. */
  lemma {:induction false} IterateInjective(s: bv8, t: bv8, k: nat)
    ensures Iterate(s, k) == Iterate(t, k) ==> s == t
    ensures s != 0 ==> Iterate(s, k) != 0
  {
    if k > 0 {
      IterateInjective(s, t, k - 1);
      LfsrCharInjective(Iterate(s, k - 1), Iterate(t, k - 1));
      LfsrCharInjective(Iterate(s, k - 1), 0);
    }
  }

  /** How many of the attempts `from`, `from + 1`, ..., `n - 1` succeed before
      the first one that fails; `ok(i)` says whether attempt `i` of the
      user-memory copy succeeds. */
  function CopiedFrom(ok: nat -> bool, from: nat, n: int): nat
    decreases if n > from then n - from else 0
  {
    if n <= from || !ok(from) then 0 else 1 + CopiedFrom(ok, from + 1, n)
  }

  /** Number of bytes a read of `n` bytes delivers. */
  function Copied(ok: nat -> bool, n: int): nat
  {
    CopiedFrom(ok, 0, n)
  }

  lemma {:induction false} CopiedFromBounds(ok: nat -> bool, from: nat, n: int)
    ensures from + CopiedFrom(ok, from, n) <= if n > from then n else from
    ensures forall i :: from <= i < from + CopiedFrom(ok, from, n) ==> ok(i)
    ensures from + CopiedFrom(ok, from, n) < n ==> !ok(from + CopiedFrom(ok, from, n))
    decreases if n > from then n - from else 0
  {
    if n > from && ok(from) {
      CopiedFromBounds(ok, from + 1, n);
    }
  }

  /** A read returns between 0 and max(n, 0) bytes: exactly max(n, 0) when no
      copy fails, and otherwise the number of copies before the first failure. */
  lemma CopiedBounds(ok: nat -> bool, n: int)
    ensures Copied(ok, n) <= if n > 0 then n else 0
    ensures forall i :: 0 <= i < Copied(ok, n) ==> ok(i)
    ensures Copied(ok, n) < n ==> !ok(Copied(ok, n))
    ensures (forall i :: 0 <= i < n ==> ok(i)) ==> Copied(ok, n) == if n > 0 then n else 0
  {
    CopiedFromBounds(ok, 0, n);
  }

  /** User memory after the bytes `bytes` were copied out one at a time to
      `dst`, `dst + 1`, ... */
  function Deliver(mem: map<int, bv8>, dst: int, bytes: seq<bv8>): map<int, bv8>
  {
    if |bytes| == 0 then mem
    else Deliver(mem, dst, bytes[..|bytes| - 1])[dst + |bytes| - 1 := bytes[|bytes| - 1]]
  }

  /** The reader's buffer holds every delivered byte at its offset, and no
      other address changes. */
  lemma {:induction false} DeliverProps(mem: map<int, bv8>, dst: int, bytes: seq<bv8>)
    ensures forall a :: dst <= a < dst + |bytes| ==> a in Deliver(mem, dst, bytes) && Deliver(mem, dst, bytes)[a] == bytes[a - dst]
    ensures forall a :: (a < dst || a >= dst + |bytes|) ==>
      (a in Deliver(mem, dst, bytes) <==> a in mem) && (a in mem ==> Deliver(mem, dst, bytes)[a] == mem[a])
  {
    if |bytes| > 0 {
      DeliverProps(mem, dst, bytes[..|bytes| - 1]);
    }
  }

  /** User memory after the bytes `bytes` were all copied out to `dst`. */
  function DeliverAsWritten(mem: map<int, bv8>, dst: int, bytes: seq<bv8>): map<int, bv8>
  {
    if |bytes| == 0 then mem
    else DeliverAsWritten(mem, dst, bytes[..|bytes| - 1])[dst := bytes[|bytes| - 1]]
  }

  /** With a fixed destination, a read of two or more bytes leaves only the
      last byte at `dst` and nothing at `dst + 1`, ..., so the buffer does not
      hold what a read promises whenever the first and last bytes differ. */
  lemma {:induction false} DeliverAsWrittenLast(mem: map<int, bv8>, dst: int, bytes: seq<bv8>)
    requires |bytes| > 0
    ensures DeliverAsWritten(mem, dst, bytes) == mem[dst := bytes[|bytes| - 1]]
  {
    if |bytes| > 1 {
      DeliverAsWrittenLast(mem, dst, bytes[..|bytes| - 1]);
    }
  }

  /** A two-byte read from any non-zero seed into an empty buffer: the byte
      at `dst` is the second one produced, not the first, and `dst + 1` is
      never written. */
  lemma TwoByteReadAsWritten(s: bv8, dst: int)
    requires s != 0
    ensures var bytes := [Iterate(s, 1), Iterate(s, 2)];
      var m := DeliverAsWritten(map[], dst, bytes);
      && m[dst] != bytes[0] && dst + 1 !in m
      && dst in Deliver(map[], dst, bytes) && Deliver(map[], dst, bytes)[dst] == bytes[0] && dst + 1 in Deliver(map[], dst, bytes)
  {
    var bytes := [Iterate(s, 1), Iterate(s, 2)];
    DeliverAsWrittenLast(map[], dst, bytes);
    DeliverProps(map[], dst, bytes);
    IterateInjective(s, s, 1);
    LfsrCharFixedPoint(Iterate(s, 1));
    assert Iterate(s, 2) == LfsrChar(Iterate(s, 1));
  }

  /** The generator's state as a device. */
  class RandomDevice {
    var seed: bv8

    /** Static storage starts zeroed. */
    constructor ()
      ensures seed == 0
    {
      seed := 0;
    }

    /** randominit: the seed part (lock, UART and devsw set-up are left out). */
    method RandomInit()
      modifies this
      ensures seed == INITIAL_SEED
    {
      seed := INITIAL_SEED;
    }

    /** randomwrite: only a one-byte write is accepted; `copyOk` is the outcome
        of the copy-in of that byte, `b` the byte it copies. */
    method RandomWrite(n: int, copyOk: bool, b: bv8) returns (r: int)
      modifies this
      ensures n != 1 ==> r == -1 && seed == old(seed)
      ensures n == 1 && !copyOk ==> r == -1 && seed == old(seed)
      ensures n == 1 && copyOk ==> r == 1 && seed == b
    {
      if n != 1 {
        return -1;
      }
      if !copyOk {
        return -1;
      }
      seed := b;
      return 1;
    }

    /** randomread as written: each round advances the seed and copies it
        out to `dst`, the same address every round, so each byte overwrites
        the one before. A failed copy ends the read with the count so far,
        after the seed was advanced. `ok(i)` is the outcome of copy `i`,
        `mem` the user memory; `out` is the sequence of bytes copied out. */
    method RandomReadAsWritten(dst: int, n: int, ok: nat -> bool, mem: map<int, bv8>)
      returns (counter: int, out: seq<bv8>, mem': map<int, bv8>)
      modifies this
      ensures counter == Copied(ok, n) && |out| == counter
      ensures forall k :: 0 <= k < counter ==> out[k] == Iterate(old(seed), k + 1)
      ensures seed == Iterate(old(seed), if counter < n then counter + 1 else counter)
      ensures mem' == DeliverAsWritten(mem, dst, out)
    {
      counter := 0;
      out := [];
      mem' := mem;
      var m := n;
      ghost var s0 := seed;
      while m > 0
        invariant 0 <= counter && m == n - counter
        invariant CopiedFrom(ok, 0, n) == counter + CopiedFrom(ok, counter, n)
        invariant |out| == counter
        invariant forall k :: 0 <= k < counter ==> out[k] == Iterate(s0, k + 1)
        invariant seed == Iterate(s0, counter)
        invariant mem' == DeliverAsWritten(mem, dst, out)
        decreases m
      {
        seed := LfsrChar(seed);
        if !ok(counter) {
          return;
        }
        mem' := mem'[dst := seed];
        out := out + [seed];
        counter := counter + 1;
        m := m - 1;
      }
    }

    /** randomread with the destination advanced by one byte per round, so
        that the k-th byte produced lands at `dst + k`. */
    method RandomRead(dst: int, n: int, ok: nat -> bool, mem: map<int, bv8>)
      returns (counter: int, out: seq<bv8>, mem': map<int, bv8>)
      modifies this
      ensures counter == Copied(ok, n) && |out| == counter
      ensures forall k :: 0 <= k < counter ==> out[k] == Iterate(old(seed), k + 1)
      ensures seed == Iterate(old(seed), if counter < n then counter + 1 else counter)
      ensures mem' == Deliver(mem, dst, out)
    {
      counter := 0;
      out := [];
      mem' := mem;
      var m := n;
      ghost var s0 := seed;
      while m > 0
        invariant 0 <= counter && m == n - counter
        invariant CopiedFrom(ok, 0, n) == counter + CopiedFrom(ok, counter, n)
        invariant |out| == counter
        invariant forall k :: 0 <= k < counter ==> out[k] == Iterate(s0, k + 1)
        invariant seed == Iterate(s0, counter)
        invariant mem' == Deliver(mem, dst, out)
        decreases m
      {
        seed := LfsrChar(seed);
        if !ok(counter) {
          return;
        }
        mem' := mem'[dst + counter := seed];
        out := out + [seed];
        counter := counter + 1;
        m := m - 1;
      }
    }
  }
}
