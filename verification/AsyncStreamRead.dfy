/** The byte queue of a stream in readable mode (fibjs/include/AsyncStream.h:75-85, 272-290,
    489-571): the read loop pushes whole buffers, read(n) cuts n bytes off across them. */
module StreamBytes {
  import opened Results

  function Joined(q: seq<seq<Byte>>): (s: seq<Byte>) {
    if q == [] then [] else q[0] + Joined(q[1..])
  }

  lemma {:induction false} JoinedPushed(q: seq<seq<Byte>>, b: seq<Byte>)
    ensures Joined(q + [b]) == Joined(q) + b
  {
    if q == [] {
      assert Joined([b]) == b + [];
    } else {
      JoinedPushed(q[1..], b);
      assert (q + [b])[1..] == q[1..] + [b];
    }
  }

  predicate IsPow2(n: nat) { n == 1 || (n > 0 && n % 2 == 0 && IsPow2(n / 2)) }

  /** The value of roundUpPow2 for a positive request: the least power of two that holds it. */
  function RoundUpPow2(n: nat): (r: nat)
    requires n > 0
    ensures n <= r < 2 * n && IsPow2(r)
  {
    if n == 1 then 1
    else
      var half := RoundUpPow2((n + 1) / 2);
      assert (2 * half) / 2 == half;
      2 * half
  }

  /** `x >> k` and `x | y` on a size_t. */
  function Shift(x: nat, k: nat): (r: nat)
    ensures r <= x
  {
    if k == 0 then x else Shift(x / 2, k - 1)
  }

  function Or(x: nat, y: nat): (r: nat)
    ensures r % 2 == (if x % 2 == 1 || y % 2 == 1 then 1 else 0)
    ensures x == 0 && y == 0 <==> r == 0
    decreases x + y
  {
    if x == 0 && y == 0 then 0 else
      assert x / 2 <= x && y / 2 <= y && (x > 0 ==> x / 2 < x) && (y > 0 ==> y / 2 < y);
      (if x % 2 == 1 || y % 2 == 1 then 1 else 0) + 2 * Or(x / 2, y / 2)
  }

  /** The value of n after the line with shift 1, and of each line of the cascade after it. */
  function Smeared(a: nat, shift: nat): nat { Or(a, Shift(a, shift)) }

  /** roundUpPow2 as the code computes it. */
  function Smear(n: nat): nat
    requires n > 0
  {
    Smeared(Smeared(Smeared(Smeared(Smeared(n - 1, 1), 2), 4), 8), 16) + 1
  }

  /** Whether one of the k lowest bits is set. */
  predicate AnyBit(a: nat, k: nat) { k > 0 && (a % 2 == 1 || AnyBit(a / 2, k - 1)) }

  lemma {:induction false} AnyBitSplit(a: nat, j: nat, k: nat)
    ensures AnyBit(a, j + k) <==> AnyBit(a, j) || AnyBit(Shift(a, j), k)
    decreases j
  {
    if j > 0 {
      AnyBitSplit(a / 2, j - 1, k);
    }
  }

  function Power2(k: nat): nat { if k == 0 then 1 else 2 * Power2(k - 1) }

  lemma Power2Of32()
    ensures Power2(32) == 0x1_0000_0000
  {
    assert Power2(8) == 0x100;
    assert Power2(16) == 0x1_0000;
    assert Power2(24) == 0x100_0000;
  }

  lemma {:induction false} SmallHasBit(a: nat, k: nat)
    requires 0 < a < Power2(k)
    ensures AnyBit(a, k)
  {
    if k > 0 && a % 2 == 0 {
      SmallHasBit(a / 2, k - 1);
    }
  }

  lemma {:induction false} ShiftHalf(a: nat, k: nat)
    ensures Shift(a, k) / 2 == Shift(a / 2, k)
  {
    if k > 0 {
      ShiftHalf(a / 2, k - 1);
    }
  }

  lemma SmearedHalf(a: nat, shift: nat)
    ensures Smeared(a, shift) / 2 == Smeared(a / 2, shift)
  {
    ShiftHalf(a, shift);
  }

  /** The cascade, first `i` lines, with the shifts 1, 2, 4 and so on. */
  function Cascade(a: nat, i: nat): nat { if i == 0 then a else Smeared(Cascade(a, i - 1), Power2(i - 1)) }

  lemma {:induction false} CascadeHalf(a: nat, i: nat)
    ensures Cascade(a, i) / 2 == Cascade(a / 2, i)
  {
    if i > 0 {
      CascadeHalf(a, i - 1);
      SmearedHalf(Cascade(a, i - 1), Power2(i - 1));
    }
  }

  lemma {:induction false} CascadeShift(a: nat, i: nat, k: nat)
    ensures Shift(Cascade(a, i), k) == Cascade(Shift(a, k), i)
    decreases k
  {
    if k > 0 {
      CascadeHalf(a, i);
      CascadeShift(a / 2, i, k - 1);
    }
  }

  /** The lowest bit collects the 2^i lowest. */
  lemma {:induction false} CascadeBit(a: nat, i: nat)
    ensures Cascade(a, i) % 2 == 1 <==> AnyBit(a, Power2(i))
  {
    if i > 0 {
      var k := Power2(i - 1);
      CascadeBit(a, i - 1);
      CascadeShift(a, i - 1, k);
      CascadeBit(Shift(a, k), i - 1);
      AnyBitSplit(a, k, k);
    }
  }

  lemma CascadeIsSmear(n: nat)
    requires n > 0
    ensures Smear(n) == Cascade(n - 1, 5) + 1
  {
    var a := n - 1;
    assert Cascade(a, 1) == Smeared(a, 1);
    assert Cascade(a, 2) == Smeared(Cascade(a, 1), 2);
    assert Cascade(a, 3) == Smeared(Cascade(a, 2), 4);
    assert Cascade(a, 4) == Smeared(Cascade(a, 3), 8);
    assert Cascade(a, 5) == Smeared(Cascade(a, 4), 16);
  }

  lemma {:induction false} CascadeIsRoundUp(n: nat)
    requires 0 < n <= Power2(32)
    ensures Cascade(n - 1, 5) + 1 == RoundUpPow2(n)
  {
    var a := n - 1;
    CascadeHalf(a, 5);
    CascadeBit(a, 5);
    if a > 0 {
      SmallHasBit(a, 32);
      assert Power2(5) == 32;
      CascadeIsRoundUp((n + 1) / 2);
      assert (n + 1) / 2 - 1 == a / 2;
    } else {
      CascadeOfNothing(5);
    }
  }

  lemma {:induction false} CascadeOfNothing(i: nat)
    ensures Cascade(0, i) == 0
  {
    if i > 0 {
      CascadeOfNothing(i - 1);
      assert Shift(0, Power2(i - 1)) == 0;
    }
  }

  /** The shifts compute the least power of two for every request of up to 2^32, and so for every int32_t. */
  lemma SmearIsRoundUp(n: nat)
    requires 0 < n <= Power2(32)
    ensures Smear(n) == RoundUpPow2(n)
  {
    CascadeIsSmear(n);
    CascadeIsRoundUp(n);
  }

  class ReadQueue {
    var pendingQueue: seq<seq<Byte>>     // m_pendingQueue
    var totalBytes: int                  // m_totalBytes
    var highWaterMark: int               // m_highWaterMark

    ghost predicate Valid()
      reads this
    {
      totalBytes == |Joined(pendingQueue)|
    }

    ghost function Contents(): (s: seq<Byte>)
      reads this
    {
      Joined(pendingQueue)
    }

    constructor ()
      ensures Valid() && Contents() == [] && pendingQueue == [] && highWaterMark == 16384
    {
      pendingQueue, totalBytes, highWaterMark := [], 0, 16384;
    }

    /** The read loop queues a buffer; `full` makes it wait for a drain. */
    method Push(buf: seq<Byte>) returns (full: bool)
      requires Valid()
      modifies this`pendingQueue, this`totalBytes
      ensures Valid() && Contents() == old(Contents()) + buf && |pendingQueue| == old(|pendingQueue|) + 1
      ensures full <==> |Contents()| >= highWaterMark
    {
      JoinedPushed(pendingQueue, buf);
      pendingQueue := pendingQueue + [buf];
      totalBytes := totalBytes + |buf|;
      full := totalBytes >= highWaterMark;
    }

    /** read(n): null when there is not enough, otherwise everything (n <= 0) or exactly n bytes;
        `drain` wakes the read loop. */
    method Read(bytes: int) returns (data: Option<seq<Byte>>, drain: bool)
      requires Valid() && bytes < 0x8000_0000
      modifies this
      ensures Valid()
      ensures data.None? <==> old(pendingQueue) == [] || (bytes > 0 && bytes > old(|Contents()|))
      ensures data.None? ==> Contents() == old(Contents()) && !drain
      ensures data.Some? ==> data.value + Contents() == old(Contents())
      ensures data.Some? ==> |data.value| == if bytes > 0 then bytes else old(|Contents()|)
      ensures data.Some? ==> highWaterMark == old(highWaterMark) && (drain <==> old(|Contents()|) >= highWaterMark)
      ensures data.None? && old(pendingQueue) != [] && bytes > old(highWaterMark) ==> highWaterMark == RoundUpPow2(bytes)
      ensures data.None? && (old(pendingQueue) == [] || bytes <= old(highWaterMark)) ==> highWaterMark == old(highWaterMark)
    {
      if pendingQueue == [] {
        return None, false;
      }
      if bytes > 0 {
        if bytes > totalBytes {
          if bytes > highWaterMark {
            Power2Of32();
            SmearIsRoundUp(bytes);
            highWaterMark := Smear(bytes);
          }
          return None, false;
        }
      }
      var wasFull := totalBytes >= highWaterMark;
      var result := [];
      if bytes <= 0 {
        var i := 0;
        while i < |pendingQueue|
          invariant i <= |pendingQueue|
          invariant result + Joined(pendingQueue[i..]) == old(Contents())
        {
          assert pendingQueue[i..][1..] == pendingQueue[i + 1..];
          result := result + pendingQueue[i];
          i := i + 1;
        }
        pendingQueue := [];
        totalBytes := 0;
      } else {
        var remaining := bytes;
        while remaining > 0 && pendingQueue != []
          invariant 0 <= remaining <= bytes && |result| == bytes - remaining
          invariant result + Joined(pendingQueue) == old(Contents())
          invariant totalBytes == old(totalBytes) && highWaterMark == old(highWaterMark)
          decreases remaining, |pendingQueue|
        {
          var s := pendingQueue[0];
          if |s| <= remaining {
            result := result + s;
            remaining := remaining - |s|;
            pendingQueue := pendingQueue[1..];
          } else {
            assert s == s[..remaining] + s[remaining..];
            result := result + s[..remaining];
            pendingQueue := [s[remaining..]] + pendingQueue[1..];
            remaining := 0;
          }
        }
        totalBytes := totalBytes - bytes;
      }
      return Some(result), wasFull;
    }
  }

  // ---------------------------------------------------------------------------------------------
  // Runs

  /** A call of the queue's methods. */
  datatype Call = Push(buf: seq<Byte>) | Read(bytes: int)

  function Pushed(calls: seq<Call>): (s: seq<Byte>) {
    if calls == [] then []
    else Pushed(calls[..|calls| - 1]) + if calls[|calls| - 1].Push? then calls[|calls| - 1].buf else []
  }

  lemma PushedMore(calls: seq<Call>, i: nat)
    requires i < |calls|
    ensures Pushed(calls[..i + 1]) == Pushed(calls[..i]) + if calls[i].Push? then calls[i].buf else []
  {
    assert calls[..i + 1][..i] == calls[..i];
  }

  /** Any calls of push and read on a new queue: what the reads returned, followed by what is still queued, is what
      was pushed. */
  method Replay(calls: seq<Call>) returns (queue: ReadQueue, returned: seq<Byte>)
    requires forall i :: 0 <= i < |calls| && calls[i].Read? ==> calls[i].bytes < 0x8000_0000
    ensures queue.Valid() && returned + queue.Contents() == Pushed(calls)
  {
    queue := new ReadQueue();
    returned := [];
    var i := 0;
    while i < |calls|
      invariant i <= |calls| && fresh(queue) && queue.Valid()
      invariant returned + queue.Contents() == Pushed(calls[..i])
    {
      PushedMore(calls, i);
      ghost var before := queue.Contents();
      match calls[i] {
        case Push(buf) =>
          var _ := queue.Push(buf);
          assert returned + queue.Contents() == returned + before + buf;
        case Read(bytes) =>
          var data, _ := queue.Read(bytes);
          if data.Some? {
            assert returned + data.value + queue.Contents() == returned + before;
            returned := returned + data.value;
          }
      }
      i := i + 1;
    }
    assert calls[..i] == calls;
  }
}
