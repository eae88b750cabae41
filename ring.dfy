/**
 * The abstract view of a circular byte buffer of capacity N with a `head`
 * (next slot to write) and a `tail` (next slot to read), as the serial
 * transport keeps its receive and transmit queues. One slot always stays
 * unused, so the ring holds at most N - 1 bytes and `head == tail` means empty.
 *
 * The firmware advances positions with `(p + 1) & (N - 1)` and counts with
 * `(N + head - tail) & (N - 1)`; the lemmas at the end show these agree with
 * the linear `Next` and `Count` used here when N is a power of two.
 */
module Ring {
  import opened Bits

  /** Positions of a ring of capacity n. */
  predicate Ok(n: nat, head: nat, tail: nat)
  {
    0 < n && head < n && tail < n
  }

  /** The position after p. */
  function Next(p: nat, n: nat): (q: nat)
    requires p < n
    ensures q < n
    ensures q == (p + 1) % n
  {
    ModRange(p + 1, n);
    if p + 1 < n then p + 1 else 0
  }

  /** Reduce a position in [0, 2n) into [0, n). */
  function Wrap(x: nat, n: nat): (q: nat)
    requires 0 < n && x < 2 * n
    ensures q < n
    ensures q == x % n
  {
    ModRange(x, n);
    if x < n then x else x - n
  }

  /** Number of stored-but-unread bytes. */
  function Count(n: nat, head: nat, tail: nat): (c: nat)
    requires Ok(n, head, tail)
    ensures c < n
    ensures c == (head - tail) % n
  {
    ModRange(n + head - tail, n);
    DivModUnique(head - tail, n, if head >= tail then 0 else -1, if head >= tail then head - tail else n + head - tail);
    if head >= tail then head - tail else n + head - tail
  }

  /** The queued bytes, oldest first. */
  function Contents(buf: seq<byte>, head: nat, tail: nat): (q: seq<byte>)
    requires Ok(|buf|, head, tail)
    ensures |q| == Count(|buf|, head, tail)
  {
    seq(Count(|buf|, head, tail), i requires 0 <= i < Count(|buf|, head, tail) => buf[Wrap(tail + i, |buf|)])
  }

  lemma ModRange(x: int, n: nat)
    requires 0 < n && 0 <= x < 2 * n
    ensures x % n == (if x < n then x else x - n)
  {
    if x < n {
      DivModUnique(x, n, 0, x);
    } else {
      DivModUnique(x, n, 1, x - n);
    }
  }

  /** The ring is empty exactly when head and tail meet. */
  lemma EmptyIff(n: nat, head: nat, tail: nat)
    requires Ok(n, head, tail)
    ensures Count(n, head, tail) == 0 <==> head == tail
  {
  }

  /** The ring is full (holds n - 1 bytes) exactly when the slot after head is the tail. */
  lemma FullIff(n: nat, head: nat, tail: nat)
    requires Ok(n, head, tail)
    ensures Count(n, head, tail) == n - 1 <==> Next(head, n) == tail
  {
  }

  /** Storing at head and advancing it appends one byte, when the ring is not full. */
  lemma Push(buf: seq<byte>, head: nat, tail: nat, c: byte)
    requires Ok(|buf|, head, tail) && Next(head, |buf|) != tail
    ensures Count(|buf|, Next(head, |buf|), tail) == Count(|buf|, head, tail) + 1
    ensures Contents(buf[head := c], Next(head, |buf|), tail) == Contents(buf, head, tail) + [c]
  {
    var n := |buf|;
    var old_ := Contents(buf, head, tail);
    var new_ := Contents(buf[head := c], Next(head, n), tail);
    assert |new_| == |old_| + 1;
    forall i | 0 <= i < |old_|
      ensures new_[i] == old_[i]
    {
      assert Wrap(tail + i, n) != head;
    }
    assert Wrap(tail + |old_|, n) == head;
    assert new_ == old_ + [c];
  }

  /** Advancing tail removes the oldest byte, which is the byte at tail. */
  lemma Pop(buf: seq<byte>, head: nat, tail: nat)
    requires Ok(|buf|, head, tail) && head != tail
    ensures Contents(buf, head, tail)[0] == buf[tail]
    ensures Contents(buf, head, Next(tail, |buf|)) == Contents(buf, head, tail)[1..]
  {
    var n := |buf|;
    var old_ := Contents(buf, head, tail);
    var new_ := Contents(buf, head, Next(tail, n));
    assert |new_| == |old_| - 1;
    assert Wrap(tail + 0, n) == tail;
    forall i | 0 <= i < |new_|
      ensures new_[i] == old_[i + 1]
    {
      assert Wrap(Next(tail, n) + i, n) == Wrap(tail + i + 1, n);
    }
  }

  /** Writing a slot outside the queued part does not change the contents. */
  lemma WriteFree(buf: seq<byte>, head: nat, tail: nat, c: byte)
    requires Ok(|buf|, head, tail)
    ensures Contents(buf[head := c], head, tail) == Contents(buf, head, tail)
  {
    var n := |buf|;
    var old_ := Contents(buf, head, tail);
    var new_ := Contents(buf[head := c], head, tail);
    forall i | 0 <= i < |old_|
      ensures new_[i] == old_[i]
    {
      assert Wrap(tail + i, n) != head;
    }
  }

  /** The ring sizes the transport uses, both powers of two no larger than a byte's range. */
  predicate ByteSize(n: nat)
  {
    n == 128 || n == 32
  }

  /** Reducing a value to a byte and then masking to n - 1 reduces it modulo n. */
  lemma MaskedMod(x: int, n: nat)
    requires ByteSize(n)
    ensures And8(Trunc8(x), n - 1) == x % n
  {
    LowBits(Trunc8(x));
    ModMod(x, 256 / n, n);
  }

  /** The firmware's `(uint8_t)(p + 1) & (N - 1)` is `Next`. */
  lemma MaskedNext(p: nat, n: nat)
    requires ByteSize(n) && p < n
    ensures And8(Trunc8(p + 1), n - 1) == Next(p, n)
  {
    MaskedMod(p + 1, n);
  }

  /** The firmware's `(uint8_t)(N + head - tail) & (N - 1)` is `Count`. */
  lemma MaskedCount(head: nat, tail: nat, n: nat)
    requires ByteSize(n) && Ok(n, head, tail)
    ensures And8(Trunc8(n + head - tail), n - 1) == Count(n, head, tail)
  {
    MaskedMod(n + head - tail, n);
    ModRange(n + head - tail, n);
  }

  /** The same count computed without the `N +` bias, as the receive interrupt does. */
  lemma MaskedDiff(head: nat, tail: nat, n: nat)
    requires ByteSize(n) && Ok(n, head, tail)
    ensures And8(Trunc8(head - tail), n - 1) == Count(n, head, tail)
  {
    MaskedMod(head - tail, n);
  }
}
