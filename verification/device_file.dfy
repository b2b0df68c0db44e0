/**
 * The byte-stream contract shared by both drivers' `short_read` and
 * `short_write`, stated over the bus traffic they cause.
 *
 * The hardware is abstracted to the bytes the device yields, in the order it
 * yields them, and a log of bus operations: every one-byte transfer is
 * followed in the log by the barrier the driver issues after it.
 */
module DeviceFile {
  import opened Kernel

  /** One bus operation. `target` is the port number (port I/O) or the mapped handle (MMIO). */
  datatype BusOp =
    | Read8(target: nat)               // inb / ioread8
    | Write8(target: nat, value: byte) // outb / iowrite8
    | ReadBarrier                      // rmb()
    | WriteBarrier                     // wmb()

  function Zeros(n: nat): (z: seq<byte>)
    ensures |z| == n && forall k :: 0 <= k < n ==> z[k] == 0
  {
    seq(n, _ => 0)
  }

  /** Index of the first newline in `s`, or None when `s` holds none. */
  function FirstNewline(s: seq<byte>): (r: Option<nat>)
    ensures r.None? <==> NEWLINE !in s
    ensures r.Some? ==> r.value < |s| && s[r.value] == NEWLINE && NEWLINE !in s[..r.value]
  {
    if s == [] then None
    else if s[0] == NEWLINE then Some(0)
    else match FirstNewline(s[1..])
      case None => None
      case Some(k) =>
        assert s[..k + 1] == [s[0]] + s[1..][..k];
        Some(k + 1)
  }

  /**
   * The index at which the read loop stops. It starts at `fpos`, stores one
   * fetched byte per step, and stops after storing a newline or when the
   * index reaches `count`; it is the value `short_read` returns on success.
   * When `fpos >= count` no step is taken and the index stays at `fpos`.
   * `stream` is what the device yields; it must cover the window
   * `[fpos, count)`.
   */
  function ReadIndex(fpos: nat, count: nat, stream: seq<byte>): (i: nat)
    requires fpos < count ==> count - fpos <= |stream|
    ensures count <= fpos ==> i == fpos
    ensures fpos <= count ==> fpos <= i <= count
    ensures fpos <= count && NEWLINE !in stream[..count - fpos] ==> i == count
    ensures fpos <= count && NEWLINE in stream[..count - fpos] ==>
      fpos < i && stream[i - fpos - 1] == NEWLINE && NEWLINE !in stream[..i - fpos - 1]
  {
    if count <= fpos then fpos
    else match FirstNewline(stream[..count - fpos])
      case Some(k) =>
        assert stream[..k] == stream[..count - fpos][..k];
        fpos + k + 1
      case None => count
  }

  /**
   * The kernel buffer after the read loop: `kzalloc` zeroes all `count`
   * bytes, and the loop overwrites `[fpos, ReadIndex)` with the fetched bytes
   * in fetch order.
   */
  function ReadBuffer(fpos: nat, count: nat, stream: seq<byte>): (b: seq<byte>)
    requires fpos <= count && count - fpos <= |stream|
    ensures |b| == count
    ensures forall k :: 0 <= k < fpos ==> b[k] == 0
    ensures forall k :: fpos <= k < ReadIndex(fpos, count, stream) ==> b[k] == stream[k - fpos]
    ensures forall k :: ReadIndex(fpos, count, stream) <= k < count ==> b[k] == 0
  {
    var i := ReadIndex(fpos, count, stream);
    Zeros(fpos) + stream[..i - fpos] + Zeros(count - i)
  }

  /**
   * Whatever newline the window holds first determines where the read stops:
   * the returned index is `fpos` plus the 1-based position of that newline.
   */
  lemma ReadIndexAtFirstNewline(fpos: nat, count: nat, stream: seq<byte>, j: nat)
    requires fpos <= count && count - fpos <= |stream|
    requires j < count - fpos && stream[j] == NEWLINE && NEWLINE !in stream[..j]
    ensures ReadIndex(fpos, count, stream) == fpos + j + 1
  {
    assert stream[..count - fpos][j] == NEWLINE;
    var k := ReadIndex(fpos, count, stream) - fpos - 1;
    assert forall m :: 0 <= m < j ==> stream[..j][m] == stream[m];
    assert forall m :: 0 <= m < k ==> stream[..k][m] == stream[m];
  }

  /**
   * With `fpos` past `count` the loop takes no step and the index stays at
   * `fpos`, so the copy-out asks for more bytes than the `count`-byte buffer
   * holds.
   */
  lemma ReadPastEndOverruns(fpos: nat, count: nat, stream: seq<byte>)
    requires count < fpos
    ensures ReadIndex(fpos, count, stream) == fpos > count
  {
  }

  /** A read of 3 from offset 0 over a device yielding 'X', newline, 'Y' stops after the newline. */
  lemma ReadStopsAfterNewlineExample()
    ensures ReadIndex(0, 3, [0x58, 0x0A, 0x59]) == 2
    ensures ReadBuffer(0, 3, [0x58, 0x0A, 0x59]) == [0x58, 0x0A, 0]
  {
    assert [0x58, 0x0A, 0x59][..3] == [0x58 as byte, 0x0A, 0x59];
    ReadIndexAtFirstNewline(0, 3, [0x58, 0x0A, 0x59], 1);
  }

  /** A read of 5 from offset 2 fills indices 2 to 4 only; indices 0 and 1 stay zero. */
  lemma ReadFromOffsetExample()
    ensures ReadIndex(2, 5, [0x41, 0x42, 0x43]) == 5
    ensures ReadBuffer(2, 5, [0x41, 0x42, 0x43]) == [0, 0, 0x41, 0x42, 0x43]
  {
    assert [0x41 as byte, 0x42, 0x43][..3] == [0x41, 0x42, 0x43];
  }

  /** Writing 'A', 'B' to port 0x200 makes two stores, in order, each followed by a write barrier. */
  lemma WriteTwoBytesExample()
    ensures WriteTrace(0x200, [0x41, 0x42]) == [Write8(0x200, 0x41), WriteBarrier, Write8(0x200, 0x42), WriteBarrier]
  {
    assert [0x41 as byte, 0x42][..1] == [0x41];
  }

  /** The bus log of `n` loop steps of the read: each fetch is followed by a read barrier. */
  function ReadTrace(target: nat, n: nat): (t: seq<BusOp>)
    ensures |t| == 2 * n
  {
    if n == 0 then [] else ReadTrace(target, n - 1) + [Read8(target), ReadBarrier]
  }

  /** The bus log of writing `data`: one store per byte, in order, each followed by a write barrier. */
  function WriteTrace(target: nat, data: seq<byte>): (t: seq<BusOp>)
    ensures |t| == 2 * |data|
  {
    if data == [] then []
    else WriteTrace(target, data[..|data| - 1]) + [Write8(target, data[|data| - 1]), WriteBarrier]
  }

  /** Number of one-byte fetches in a bus log. */
  function Fetches(t: seq<BusOp>): nat
  {
    if t == [] then 0 else Fetches(t[..|t| - 1]) + (if t[|t| - 1].Read8? then 1 else 0)
  }

  /** The bytes stored to the device by a bus log, in order. */
  function Stored(t: seq<BusOp>): seq<byte>
  {
    if t == [] then []
    else Stored(t[..|t| - 1]) + (if t[|t| - 1].Write8? then [t[|t| - 1].value] else [])
  }

  /** Every transfer in `t` addresses `target`. */
  predicate OnlyAt(t: seq<BusOp>, target: nat)
  {
    forall j :: 0 <= j < |t| && (t[j].Read8? || t[j].Write8?) ==> t[j].target == target
  }

  lemma {:induction false} FetchesAppend(a: seq<BusOp>, b: seq<BusOp>)
    ensures Fetches(a + b) == Fetches(a) + Fetches(b)
    decreases |b|
  {
    if b != [] {
      assert (a + b)[..|a + b| - 1] == a + b[..|b| - 1];
      FetchesAppend(a, b[..|b| - 1]);
    } else {
      assert a + b == a;
    }
  }

  lemma {:induction false} StoredAppend(a: seq<BusOp>, b: seq<BusOp>)
    ensures Stored(a + b) == Stored(a) + Stored(b)
    decreases |b|
  {
    if b != [] {
      assert (a + b)[..|a + b| - 1] == a + b[..|b| - 1];
      StoredAppend(a, b[..|b| - 1]);
    } else {
      assert a + b == a;
    }
  }

  /** A read of `n` steps fetches exactly `n` bytes, all from `target`, each followed by a read barrier. */
  lemma {:induction false} ReadTraceShape(target: nat, n: nat)
    ensures Fetches(ReadTrace(target, n)) == n
    ensures OnlyAt(ReadTrace(target, n), target)
    ensures forall j :: 0 <= j < 2 * n ==>
      ReadTrace(target, n)[j] == (if j % 2 == 0 then Read8(target) else ReadBarrier)
  {
    if n > 0 {
      ReadTraceShape(target, n - 1);
      var prev := ReadTrace(target, n - 1);
      var step := [Read8(target), ReadBarrier];
      FetchesAppend(prev, step);
      assert step[..1] == [Read8(target)] && step[..1][..0] == [];
      assert Fetches(step) == Fetches(step[..1]) == 1;
    }
  }

  /**
   * Writing `data` stores exactly its bytes, in order, all to `target`, one
   * store per byte with a write barrier after each: `Stored` inverts `WriteTrace`.
   */
  lemma {:induction false} WriteTraceShape(target: nat, data: seq<byte>)
    ensures Stored(WriteTrace(target, data)) == data
    ensures OnlyAt(WriteTrace(target, data), target)
    ensures forall j :: 0 <= j < 2 * |data| ==>
      WriteTrace(target, data)[j] == (if j % 2 == 0 then Write8(target, data[j / 2]) else WriteBarrier)
    decreases |data|
  {
    if data != [] {
      var init := data[..|data| - 1];
      var last := data[|data| - 1];
      WriteTraceShape(target, init);
      var prev := WriteTrace(target, init);
      var t := WriteTrace(target, data);
      var step := [Write8(target, last), WriteBarrier];
      assert t == prev + step;
      StoredAppend(prev, step);
      assert step[..1] == [Write8(target, last)] && step[..1][..0] == [];
      assert Stored(step) == Stored(step[..1]) == [last];
      assert init + [last] == data;
      forall j | 0 <= j < 2 * |data|
        ensures t[j] == (if j % 2 == 0 then Write8(target, data[j / 2]) else WriteBarrier)
      {
        if j < 2 * |init| {
          assert t[j] == prev[j];
          assert data[j / 2] == init[j / 2];
        } else {
          assert j / 2 == |init|;
        }
      }
    }
  }
}
