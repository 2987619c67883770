/**
 * Snowflake-style 128-bit ids (src/utils/id_generator.rs).
 *
 * An id packs, from the top: the time in nanoseconds since the Unix epoch, a
 * node id shared by the whole process, a thread id and a per-thread counter,
 * 16 bits each for the last three. The random node and thread ids and the
 * clock reading are parameters here; a `Generator` is the state one thread
 * keeps (its thread id and its counter) together with the node id.
 */
module IdGenerator {
  import opened Wrappers

  type U16 = x: int | 0 <= x < 0x1_0000
  type U32 = x: int | 0 <= x < 0x1_0000_0000
  type I64 = x: int | -0x8000_0000_0000_0000 <= x < 0x8000_0000_0000_0000
  type U128 = x: int | 0 <= x < TwoTo128

  const TwoTo16: nat := 0x1_0000
  const TwoTo32: nat := 0x1_0000_0000
  const TwoTo48: nat := 0x1_0000_0000_0000
  const TwoTo80: nat := 0x1_0000_0000_0000_0000_0000
  const TwoTo112: nat := 0x1_0000_0000_0000_0000_0000_0000_0000
  const TwoTo128: nat := 0x1_0000_0000_0000_0000_0000_0000_0000_0000
  const NanosPerSecond: nat := 1_000_000_000

  /** A reading of the UTC clock: whole seconds since the epoch (negative
      before it) and the nanoseconds past that second. */
  datatype Instant = Instant(secs: I64, nanos: U32)

  /** The `expect("Configured Clock")` panic of a clock before the epoch. */
  datatype Panic = ClockBeforeEpoch

  /** Nanoseconds since the epoch of a reading at or after it. */
  function Nanos(now: Instant): nat
    requires now.secs >= 0
  {
    now.secs * NanosPerSecond + now.nanos
  }

  /** `x <<= 16` on a u128: the top 16 bits of `x` are lost. */
  function Shl16(x: nat): (r: nat)
    ensures r < TwoTo128 && r % TwoTo16 == 0
  {
    (x % TwoTo112) * TwoTo16
  }

  /** The id built from a timestamp and the three 16-bit fields, as the
      successive shifts and ors build it. Each `|=` puts a 16-bit value into
      16 bits the preceding shift cleared, so it is an addition. */
  function Pack(t: nat, node: U16, thread: U16, counter: U16): U128 {
    Shl16(Shl16(Shl16(t) + node) + thread) + counter
  }

  /** Below 2^80 nanoseconds no bit is lost: the id is the fields laid side
      by side. */
  lemma PackFormula(t: nat, node: U16, thread: U16, counter: U16)
    requires t < TwoTo80
    ensures Pack(t, node, thread, counter) == t * TwoTo48 + node * TwoTo32 + thread * TwoTo16 + counter
  {
    assert Shl16(t) == t * TwoTo16;
    assert Shl16(t) + node < TwoTo112;
    assert Shl16(Shl16(t) + node) == t * TwoTo32 + node * TwoTo16;
    assert Shl16(Shl16(t) + node) + thread < TwoTo112;
  }

  /** Lines 41-49: every field can be read back from the id. */
  lemma PackFields(t: nat, node: U16, thread: U16, counter: U16)
    requires t < TwoTo80
    ensures var id := Pack(t, node, thread, counter);
            && id % TwoTo16 == counter
            && (id / TwoTo16) % TwoTo16 == thread
            && (id / TwoTo32) % TwoTo16 == node
            && id / TwoTo48 == t
  {
    PackFormula(t, node, thread, counter);
    var id := Pack(t, node, thread, counter);
    assert id == ((t * TwoTo16 + node) * TwoTo16 + thread) * TwoTo16 + counter;
    DivMod16((t * TwoTo16 + node) * TwoTo16 + thread, counter);
    DivMod16(t * TwoTo16 + node, thread);
    DivMod16(t, node);
    assert id / TwoTo32 == (id / TwoTo16) / TwoTo16;
    assert id / TwoTo48 == (id / TwoTo32) / TwoTo16;
  }

  lemma DivMod16(a: nat, b: U16)
    ensures (a * TwoTo16 + b) / TwoTo16 == a && (a * TwoTo16 + b) % TwoTo16 == b
  {
  }

  /** The counter is the low 16 bits of the id, whatever the timestamp. */
  lemma PackCounter(t: nat, node: U16, thread: U16, counter: U16)
    ensures Pack(t, node, thread, counter) % TwoTo16 == counter
  {
    var high := Shl16(Shl16(Shl16(t) + node) + thread);
    assert high % TwoTo16 == 0;
    DivMod16(high / TwoTo16, counter);
  }

  /** Lines 41-49 and 80-101: below 2^80 nanoseconds, different fields give
      different ids. */
  lemma PackInjective(t1: nat, node1: U16, thread1: U16, counter1: U16,
                      t2: nat, node2: U16, thread2: U16, counter2: U16)
    requires t1 < TwoTo80 && t2 < TwoTo80
    requires Pack(t1, node1, thread1, counter1) == Pack(t2, node2, thread2, counter2)
    ensures t1 == t2 && node1 == node2 && thread1 == thread2 && counter1 == counter2
  {
    PackFields(t1, node1, thread1, counter1);
    PackFields(t2, node2, thread2, counter2);
  }

  /** Lines 15 and 61-66: of two consecutive ids of one thread, the later one
      is larger when the clock advanced, or when it stood still and the
      counter did not wrap; it is smaller when the clock went back. */
  lemma ConsecutiveOrder(t1: nat, t2: nat, node: U16, thread: U16, counter: U16)
    requires t1 < TwoTo80 && t2 < TwoTo80
    ensures var id1, id2 := Pack(t1, node, thread, counter), Pack(t2, node, thread, (counter + 1) % TwoTo16);
            && (t1 < t2 ==> id1 < id2)
            && (t1 == t2 && counter != TwoTo16 - 1 ==> id1 < id2)
            && (t2 < t1 ==> id2 < id1)
  {
    PackFormula(t1, node, thread, counter);
    PackFormula(t2, node, thread, (counter + 1) % TwoTo16);
  }

  /** Lines 17 and 69-77: up to 2^16 consecutive calls on one thread give
      pairwise different ids whatever the clock does, because their counters
      differ. */
  lemma ConsecutiveDistinct(ts: seq<nat>, node: U16, thread: U16, start: U16)
    requires |ts| <= TwoTo16
    ensures forall i, j :: 0 <= i < j < |ts| ==>
              Pack(ts[i], node, thread, (start + i) % TwoTo16) != Pack(ts[j], node, thread, (start + j) % TwoTo16)
  {
    forall i, j | 0 <= i < j < |ts|
      ensures Pack(ts[i], node, thread, (start + i) % TwoTo16) != Pack(ts[j], node, thread, (start + j) % TwoTo16)
    {
      PackCounter(ts[i], node, thread, (start + i) % TwoTo16);
      PackCounter(ts[j], node, thread, (start + j) % TwoTo16);
    }
  }

  lemma GeneratedDistinct(nows: seq<Instant>, ids: seq<U128>, node: U16, thread: U16, start: U16)
    requires |nows| <= TwoTo16 && |ids| == |nows|
    requires forall i :: 0 <= i < |nows| ==> nows[i].secs >= 0
    requires forall i :: 0 <= i < |nows| ==>
               ids[i] == Pack(Nanos(nows[i]), node, thread, (start + i) % TwoTo16)
    ensures forall i, j :: 0 <= i < j < |ids| ==> ids[i] != ids[j]
  {
    var ts := seq(|nows|, i requires 0 <= i < |nows| => Nanos(nows[i]));
    ConsecutiveDistinct(ts, node, thread, start);
    forall i, j | 0 <= i < j < |ids| ensures ids[i] != ids[j] {
      assert ids[i] == Pack(ts[i], node, thread, (start + i) % TwoTo16);
      assert ids[j] == Pack(ts[j], node, thread, (start + j) % TwoTo16);
    }
  }

  lemma WrapSucc(a: nat)
    ensures (a % TwoTo16 + 1) % TwoTo16 == (a + 1) % TwoTo16
  {
  }

  /** The id generator as seen from one thread. */
  class Generator {
    const node: U16   // NODE_ID: random, one per process
    const thread: U16 // THREAD_ID: random, one per thread
    var counter: U16  // THREAD_COUNTER
    /** The id most recently handed out, and how many calls were made. */
    ghost var last: U128
    ghost var draws: nat

    constructor(node: U16, thread: U16)
      ensures this.node == node && this.thread == thread && counter == 0
    {
      this.node := node;
      this.thread := thread;
      counter := 0;
      last := 0;
      draws := 0;
    }

    /** `generate`: the counter moves on (wrapping) before the clock is
        checked, and a clock before the epoch panics. */
    method Generate(now: Instant) returns (r: Result<U128, Panic>)
      modifies this
      ensures counter == (old(counter) + 1) % TwoTo16 && draws == old(draws) + 1
      ensures now.secs < 0 ==> r == Failure(ClockBeforeEpoch)
      ensures now.secs >= 0 ==> r == Success(Pack(Nanos(now), node, thread, old(counter)))
      ensures now.secs >= 0 ==> last == r.value
      ensures now.secs < 0 ==> last == old(last)
    {
      var c := counter;
      counter := (c + 1) % TwoTo16;
      draws := draws + 1;
      if now.secs < 0 {
        return Failure(ClockBeforeEpoch);
      }
      var id: nat := now.secs;
      id := id * NanosPerSecond;
      id := id + now.nanos;
      id := Shl16(id);
      id := id + node;
      id := Shl16(id);
      id := id + thread;
      id := Shl16(id);
      id := id + c;
      last := id;
      r := Success(id);
    }

    /** The loop of the `ensure_unique` test: one id per clock reading. At
        most 2^16 of them are pairwise different. */
    method GenerateMany(nows: seq<Instant>) returns (ids: seq<U128>)
      requires forall i :: 0 <= i < |nows| ==> nows[i].secs >= 0
      modifies this
      ensures counter == (old(counter) + |nows|) % TwoTo16 && draws == old(draws) + |nows|
      ensures |ids| == |nows|
      ensures forall i :: 0 <= i < |nows| ==>
                ids[i] == Pack(Nanos(nows[i]), node, thread, (old(counter) + i) % TwoTo16)
      ensures |nows| <= TwoTo16 ==> forall i, j :: 0 <= i < j < |ids| ==> ids[i] != ids[j]
    {
      ghost var start := counter;
      ids := [];
      var k := 0;
      while k < |nows|
        invariant 0 <= k <= |nows| && |ids| == k
        invariant counter == (start + k) % TwoTo16 && draws == old(draws) + k
        invariant forall i :: 0 <= i < k ==>
                    ids[i] == Pack(Nanos(nows[i]), node, thread, (start + i) % TwoTo16)
      {
        var r := Generate(nows[k]);
        WrapSucc(start + k);
        ids := ids + [r.value];
        k := k + 1;
      }
      if |nows| <= TwoTo16 {
        GeneratedDistinct(nows, ids, node, thread, start);
      }
    }
  }
}
