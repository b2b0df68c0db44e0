/**
 * The port-I/O driver (15_short_ioport/main.c): a character device over
 * SHORT_NR_PORTS I/O ports starting at 0x200, with an interrupt handler on
 * line 6. The module's globals `major`, `short_irq` and `short_base` are the
 * fields of one Driver object; the kernel calls that init and exit make are
 * kept in `calls`.
 */
module ShortIoport {
  import opened Kernel
  import opened DeviceFile
  import opened Lifecycle

  /** The I/O base the module claims (`base`). */
  const BASE: nat := 0x200
  /** Number of ports claimed; the driver's header defining it is not part of this model. */
  const SHORT_NR_PORTS: nat := 8
  /** Initial interrupt line (`short_irq`). */
  const DEFAULT_IRQ: int := 6

  /** What `m_init` leaves behind: its return value, the new `short_irq` and `major`, and the calls it made. */
  datatype InitOutcome = InitOutcome(result: int, irq: int, major: int, calls: seq<Call>)

  /** The resources a successful init holds, oldest first; the IRQ only when `irq` is not negative. */
  function Held(irq: int, major: int): (h: seq<Resource>)
    ensures |h| == (if irq >= 0 then 3 else 2)
    ensures h[0] == IoRegion(BASE, SHORT_NR_PORTS) && h[|h| - 1] == CharDevice(major)
    ensures IrqLine(irq) in h <==> irq >= 0
  {
    [IoRegion(BASE, SHORT_NR_PORTS)] + (if irq >= 0 then [IrqLine(irq)] else []) + [CharDevice(major)]
  }

  /**
   * `m_init` from globals `irq` (`short_irq`) and `major`, given what
   * `request_region`, `request_irq` and `register_chrdev` return.
   */
  function InitSpec(irq: int, major: int, regionOk: bool, irqResult: int, regResult: int): (o: InitOutcome)
    ensures o.result <= 0
    ensures o.result == 0 <==> regionOk && (irq < 0 || irqResult == 0) && regResult >= 0
  {
    var region := IoRegion(BASE, SHORT_NR_PORTS);
    if !regionOk then InitOutcome(-ENODEV, irq, major, [])
    else if irq >= 0 && irqResult != 0 then
      InitOutcome(-ENODEV, -1, major, [Acquired(region), Released(region)])
    else
      var armed := if irq >= 0 then [Acquired(IrqLine(irq))] else [];
      if regResult < 0 then
        InitOutcome(regResult, irq, major,
          [Acquired(region)] + armed + [Released(IrqLine(irq)), Released(region)])
      else
        var m := if major == 0 then regResult else major;
        InitOutcome(0, irq, m, [Acquired(region)] + armed + [Acquired(CharDevice(m))])
  }

  /** The calls `m_exit` makes, in order. */
  function ExitCalls(base: nat, irq: int, major: int): (c: seq<Call>)
    ensures |c| == 3 && forall k :: 0 <= k < |c| ==> c[k].Released?
    ensures base == BASE && irq >= 0 ==> c == Unwind(Held(irq, major))
  {
    [Released(CharDevice(major)), Released(IrqLine(irq)), Released(IoRegion(base, SHORT_NR_PORTS))]
  }

  /**
   * The return value and globals after `m_init`, case by case: a missing
   * region gives -ENODEV and leaves `short_irq` and `major` unchanged
   * (`short_base` is already set); a refused IRQ gives -ENODEV and marks
   * the line unusable (-1); a failed registration passes its
   * negative result on; success returns 0 and sets `major` to the
   * registration result only when it was 0.
   */
  lemma InitResults(irq: int, major: int, regionOk: bool, irqResult: int, regResult: int)
    ensures var o := InitSpec(irq, major, regionOk, irqResult, regResult);
      && (!regionOk ==> o.result == -ENODEV && o.irq == irq && o.major == major && o.calls == [])
      && (regionOk && irq >= 0 && irqResult != 0 ==> o.result == -ENODEV && o.irq == -1 && o.major == major)
      && (regionOk && (irq < 0 || irqResult == 0) && regResult < 0 ==>
            o.result == regResult && o.irq == irq && o.major == major)
      && (regionOk && (irq < 0 || irqResult == 0) && regResult >= 0 ==>
            o.result == 0 && o.irq == irq && o.major == (if major == 0 then regResult else major))
  {
  }

  /**
   * A failed init holds nothing afterwards: a missing region makes no call;
   * a refused IRQ releases the region it acquired; a failed registration
   * frees the IRQ, then releases the region.
   */
  lemma InitFailureReleasesAll(irq: int, major: int, regionOk: bool, irqResult: int, regResult: int)
    requires irq >= 0
    requires InitSpec(irq, major, regionOk, irqResult, regResult).result != 0
    ensures var calls, region := InitSpec(irq, major, regionOk, irqResult, regResult).calls, IoRegion(BASE, SHORT_NR_PORTS);
      && (!regionOk ==> calls == [])
      && (regionOk && irqResult != 0 ==> calls == Acquires([region]) + Unwind([region]))
      && (regionOk && irqResult == 0 ==>
            calls == Acquires([region, IrqLine(irq)]) + Unwind([region, IrqLine(irq)]))
    ensures Replay([], InitSpec(irq, major, regionOk, irqResult, regResult).calls) == Some([])
  {
    var region := IoRegion(BASE, SHORT_NR_PORTS);
    if regionOk && irqResult != 0 {
      assert [Acquired(region), Released(region)] == Acquires([region]) + Unwind([region]);
      Balanced([], [region]);
    } else if regionOk {
      assert InitSpec(irq, major, regionOk, irqResult, regResult).calls
        == Acquires([region, IrqLine(irq)]) + Unwind([region, IrqLine(irq)]);
      Balanced([], [region, IrqLine(irq)]);
    }
  }

  /** A successful init holds the region, the IRQ and the device number, acquired in that order. */
  lemma InitSuccessHoldsAll(irq: int, major: int, regionOk: bool, irqResult: int, regResult: int)
    requires InitSpec(irq, major, regionOk, irqResult, regResult).result == 0
    ensures var o := InitSpec(irq, major, regionOk, irqResult, regResult);
      Replay([], o.calls) == Some(Held(o.irq, o.major))
  {
    var o := InitSpec(irq, major, regionOk, irqResult, regResult);
    assert o.calls == Acquires(Held(o.irq, o.major));
    AcquireAll([], Held(o.irq, o.major));
    assert [] + Held(o.irq, o.major) == Held(o.irq, o.major);
  }

  /**
   * With `short_irq` negative, a failed registration still frees the IRQ
   * line it never requested, so the unwinding releases something not held.
   */
  lemma InitFreesUnrequestedIrq(irq: int, major: int, irqResult: int, regResult: int)
    requires irq < 0 && regResult < 0
    ensures Replay([], InitSpec(irq, major, true, irqResult, regResult).calls) == None
  {
    var region := IoRegion(BASE, SHORT_NR_PORTS);
    var log := [Acquired(region), Released(IrqLine(irq)), Released(region)];
    assert InitSpec(irq, major, true, irqResult, regResult).calls == log;
    assert log[1..] == [Released(IrqLine(irq)), Released(region)];
  }

  /** Exit releases exactly what a successful init holds, in the reverse of the order init acquired it. */
  lemma ExitUnwindsInit(irq: int, major: int, regionOk: bool, irqResult: int, regResult: int)
    requires irq >= 0
    requires InitSpec(irq, major, regionOk, irqResult, regResult).result == 0
    ensures var o := InitSpec(irq, major, regionOk, irqResult, regResult);
      && ExitCalls(BASE, o.irq, o.major) == Unwind(Held(o.irq, o.major))
      && Replay([], o.calls + ExitCalls(BASE, o.irq, o.major)) == Some([])
  {
    var o := InitSpec(irq, major, regionOk, irqResult, regResult);
    InitSuccessHoldsAll(irq, major, regionOk, irqResult, regResult);
    assert ExitCalls(BASE, o.irq, o.major) == Unwind(Held(o.irq, o.major));
    ReplayAppend([], o.calls, ExitCalls(BASE, o.irq, o.major));
    UnwindAll([], Held(o.irq, o.major));
    assert [] + Held(o.irq, o.major) == Held(o.irq, o.major);
  }

  class Driver {
    var major: int
    var shortIrq: int
    var shortBase: nat
    /** Resource acquisitions and releases made by init and exit, in order. */
    var calls: seq<Call>

    /** The module as loaded: the globals at their static initial values. */
    constructor ()
      ensures major == 0 && shortIrq == DEFAULT_IRQ && shortBase == 0 && calls == []
    {
      major, shortIrq, shortBase, calls := 0, DEFAULT_IRQ, 0, [];
    }

    /** `short_open`: nothing to set up. */
    method Open() returns (r: int)
      ensures r == 0
    {
      r := 0;
    }

    /** `short_release`: nothing to tear down. */
    method Release() returns (r: int)
      ensures r == 0
    {
      r := 0;
    }

    /**
     * `short_read`: fetches bytes from port `short_base` into a zeroed buffer
     * from index `fpos` until a newline or `count`, copies the first `i`
     * bytes out and returns `i`. `stream` is what the port yields;
     * `allocOk` and `copyOk` are the outcomes of `kzalloc` and
     * `copy_to_user`. Returned besides the result: the buffer's final
     * contents, the bytes the caller receives, the bus log and the number of
     * `kfree` calls.
     */
    method Read(count: nat, fpos: nat, stream: seq<byte>, allocOk: bool, copyOk: bool)
      returns (ret: int, kbuf: seq<byte>, copied: seq<byte>, bus: seq<BusOp>, frees: nat)
      requires fpos <= count <= INT_MAX
      requires count - fpos <= |stream|
      ensures !allocOk ==> ret == -ENOMEM && kbuf == [] && copied == [] && bus == [] && frees == 0
      ensures allocOk ==> frees == 1
      ensures allocOk ==> kbuf == ReadBuffer(fpos, count, stream)
      ensures allocOk ==> bus == ReadTrace(shortBase, ReadIndex(fpos, count, stream) - fpos)
      ensures allocOk && copyOk ==> ret == ReadIndex(fpos, count, stream) && copied == kbuf[..ret]
      ensures allocOk && !copyOk ==> ret == -EFAULT && copied == []
    {
      var port := shortBase;
      if !allocOk {
        return -ENOMEM, [], [], [], 0;
      }
      var buf := new byte[count](_ => 0);
      var i := fpos;
      bus := [];
      ghost var stopped := false;
      while i < count
        invariant fpos <= i <= count && !stopped
        invariant NEWLINE !in stream[..i - fpos]
        invariant forall k :: 0 <= k < fpos ==> buf[k] == 0
        invariant forall k :: fpos <= k < i ==> buf[k] == stream[k - fpos]
        invariant forall k :: i <= k < count ==> buf[k] == 0
        invariant bus == ReadTrace(port, i - fpos)
      {
        buf[i] := stream[i - fpos];
        bus := bus + [Read8(port), ReadBarrier];
        i := i + 1;
        if buf[i - 1] == NEWLINE {
          stopped := true;
          break;
        }
      }
      if stopped {
        ReadIndexAtFirstNewline(fpos, count, stream, i - fpos - 1);
      } else {
        assert stream[..count - fpos] == stream[..i - fpos];
      }
      kbuf := buf[..];
      assert kbuf == ReadBuffer(fpos, count, stream);
      if copyOk {
        ret, copied := i, buf[..i];
      } else {
        ret, copied := -EFAULT, [];
      }
      frees := 1;
    }

    /**
     * `short_write`: copies the user's bytes into a kernel buffer and
     * stores them one at a time to port `short_base`, returning their
     * number. `allocOk` and `copyOk` are the outcomes of `kmalloc` and
     * `copy_from_user`. Returned besides the result: the bus log and the
     * number of `kfree` calls.
     */
    method Write(user: seq<byte>, allocOk: bool, copyOk: bool) returns (ret: int, bus: seq<BusOp>, frees: nat)
      ensures !allocOk ==> ret == -ENOMEM && bus == [] && frees == 0
      ensures allocOk && !copyOk ==> ret == -EFAULT && bus == [] && frees == 0
      ensures allocOk && copyOk ==> ret == |user| && bus == WriteTrace(shortBase, user) && frees == 1
    {
      var port := shortBase;
      var count := |user|;
      var cnt := count;
      if !allocOk {
        return -ENOMEM, [], 0;
      }
      var kbuf := new byte[cnt];
      if !copyOk {
        // the buffer is not freed on this path
        return -EFAULT, [], 0;
      }
      forall k | 0 <= k < cnt {
        kbuf[k] := user[k];
      }
      var ptr := 0;
      bus := [];
      while cnt != 0
        invariant ptr + cnt == count
        invariant kbuf[..] == user
        invariant bus == WriteTrace(port, user[..ptr])
      {
        assert user[..ptr + 1][..ptr] == user[..ptr];
        bus := bus + [Write8(port, kbuf[ptr]), WriteBarrier];
        ptr, cnt := ptr + 1, cnt - 1;
      }
      assert user[..ptr] == user;
      frees := 1;
      ret := count;
    }

    /**
     * `irq_service`: records a delivery on a line other than `short_irq` by
     * setting `short_irq` to the negated line; always reports the
     * interrupt handled.
     */
    method IrqService(irq: int) returns (r: IrqReturn)
      modifies this`shortIrq
      ensures shortIrq == (if old(shortIrq) != irq then -irq else old(shortIrq))
      ensures r == IrqHandled
    {
      if shortIrq != irq {
        shortIrq := -irq;
      }
      r := IrqHandled;
    }

    /**
     * `m_init`: claims the port region, then the IRQ (when `short_irq` is
     * not negative), then registers the character device; a failing step
     * releases what the earlier steps acquired, newest first. `regionOk`,
     * `irqResult` and `regResult` are what `request_region`, `request_irq`
     * and `register_chrdev` return.
     */
    method Init(regionOk: bool, irqResult: int, regResult: int) returns (result: int)
      requires calls == []
      modifies this
      ensures shortBase == BASE
      ensures InitOutcome(result, shortIrq, major, calls)
        == InitSpec(old(shortIrq), old(major), regionOk, irqResult, regResult)
    {
      result := 0;
      shortBase := BASE;
      var region := IoRegion(shortBase, SHORT_NR_PORTS);
      label out: {
        label unregRegion: {
          label unregIrq: {
            if !regionOk {
              result := -ENODEV;
              break out;
            }
            calls := calls + [Acquired(region)];
            if shortIrq >= 0 {
              result := irqResult;
              if result != 0 {
                shortIrq := -1;
                result := -ENODEV;
                break unregRegion;
              }
              calls := calls + [Acquired(IrqLine(shortIrq))];
            }
            result := regResult;
            if result < 0 {
              break unregIrq;
            }
            major := if major == 0 then result else major;
            calls := calls + [Acquired(CharDevice(major))];
            result := 0;
            return;
          }
          calls := calls + [Released(IrqLine(shortIrq))];
        }
        calls := calls + [Released(region)];
      }
    }

    /** `m_exit`: unregisters the device, frees the IRQ and releases the region, always all three, in that order. */
    method Exit()
      modifies this`calls
      ensures calls == old(calls) + ExitCalls(shortBase, shortIrq, major)
    {
      calls := calls + [Released(CharDevice(major))];
      calls := calls + [Released(IrqLine(shortIrq))];
      calls := calls + [Released(IoRegion(shortBase, SHORT_NR_PORTS))];
    }
  }
}
