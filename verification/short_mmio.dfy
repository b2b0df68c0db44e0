/**
 * The memory-mapped driver (17_short_mmio/main.c): a character device over a
 * 0x10-byte window of physical memory at 0xFF000000, claimed and mapped at
 * init. The module's globals `major`, `short_base` and `short_iomem` are the
 * fields of one Driver object; the kernel calls that init and exit make are
 * kept in `calls`. The mapped address is an opaque handle.
 */
module ShortMmio {
  import opened Kernel
  import opened DeviceFile
  import opened Lifecycle

  /** The physical base the module claims (`base`). */
  const BASE: nat := 0xFF00_0000
  /** Size of the claimed and mapped window. */
  const WINDOW: nat := 0x10

  /** What `m_init` leaves behind: its return value, the new `short_iomem` and `major`, and the calls it made. */
  datatype InitOutcome = InitOutcome(result: int, iomem: nat, major: int, calls: seq<Call>)

  /**
   * The resources a successful init holds, oldest first. The mapping is held
   * only when `ioremap` returned one: a NULL handle (0) maps nothing.
   */
  function Held(iomem: nat, major: int): (h: seq<Resource>)
    ensures |h| == (if iomem != 0 then 3 else 2)
    ensures h[0] == MemRegion(BASE, WINDOW) && h[|h| - 1] == CharDevice(major)
    ensures Mapping(BASE, WINDOW, iomem) in h <==> iomem != 0
  {
    [MemRegion(BASE, WINDOW)]
      + (if iomem != 0 then [Mapping(BASE, WINDOW, iomem)] else [])
      + [CharDevice(major)]
  }

  /**
   * `m_init` from globals `iomem` (`short_iomem`) and `major`, given what
   * `request_mem_region`, `ioremap` (a handle, 0 for NULL) and
   * `register_chrdev` return. `ioremap`'s result is not checked; `iounmap`
   * of NULL does nothing.
   */
  function InitSpec(iomem: nat, major: int, regionOk: bool, mapped: nat, regResult: int): (o: InitOutcome)
    ensures o.result <= 0
    ensures o.result == 0 <==> regionOk && regResult >= 0
  {
    var region, mapping := MemRegion(BASE, WINDOW), Mapping(BASE, WINDOW, mapped);
    var map_ := if mapped != 0 then [Acquired(mapping)] else [];
    var unmap := if mapped != 0 then [Released(mapping)] else [];
    if !regionOk then InitOutcome(-ENODEV, iomem, major, [])
    else if regResult < 0 then
      InitOutcome(regResult, mapped, major, [Acquired(region)] + map_ + unmap + [Released(region)])
    else
      var m := if major == 0 then regResult else major;
      InitOutcome(0, mapped, m, [Acquired(region)] + map_ + [Acquired(CharDevice(m))])
  }

  /** The calls `m_exit` makes, in order (`iounmap` of NULL makes none). */
  function ExitCalls(base: nat, iomem: nat, major: int): (c: seq<Call>)
    ensures |c| == (if iomem != 0 then 3 else 2) && forall k :: 0 <= k < |c| ==> c[k].Released?
    ensures base == BASE ==> c == Unwind(Held(iomem, major))
  {
    [Released(CharDevice(major))]
      + (if iomem != 0 then [Released(Mapping(base, WINDOW, iomem))] else [])
      + [Released(MemRegion(base, WINDOW))]
  }

  /**
   * The return value and globals after `m_init`, case by case: a missing
   * region gives -ENODEV and leaves `short_iomem` and `major` unchanged
   * (`short_base` is already set); otherwise `short_iomem` is the mapping, whatever `ioremap` returned, NULL included; a failed
   * registration passes its negative result on; success returns 0 and sets
   * `major` to the registration result only when it was 0.
   */
  lemma InitResults(iomem: nat, major: int, regionOk: bool, mapped: nat, regResult: int)
    ensures var o := InitSpec(iomem, major, regionOk, mapped, regResult);
      && (!regionOk ==> o.result == -ENODEV && o.iomem == iomem && o.major == major && o.calls == [])
      && (regionOk ==> o.iomem == mapped)
      && (regionOk && regResult < 0 ==> o.result == regResult && o.major == major)
      && (regionOk && regResult >= 0 ==>
            o.result == 0 && o.major == (if major == 0 then regResult else major))
  {
  }

  /**
   * A failed init holds nothing afterwards: a missing region makes no call;
   * a failed registration unmaps (when something was mapped), then releases
   * the region.
   */
  lemma InitFailureReleasesAll(iomem: nat, major: int, regionOk: bool, mapped: nat, regResult: int)
    requires InitSpec(iomem, major, regionOk, mapped, regResult).result != 0
    ensures var calls := InitSpec(iomem, major, regionOk, mapped, regResult).calls;
      var acquired := [MemRegion(BASE, WINDOW)] + (if mapped != 0 then [Mapping(BASE, WINDOW, mapped)] else []);
      && (!regionOk ==> calls == [])
      && (regionOk ==> calls == Acquires(acquired) + Unwind(acquired))
    ensures Replay([], InitSpec(iomem, major, regionOk, mapped, regResult).calls) == Some([])
  {
    if regionOk {
      var acquired := [MemRegion(BASE, WINDOW)] + (if mapped != 0 then [Mapping(BASE, WINDOW, mapped)] else []);
      assert InitSpec(iomem, major, regionOk, mapped, regResult).calls
        == Acquires(acquired) + Unwind(acquired);
      Balanced([], acquired);
    }
  }

  /**
   * A NULL `ioremap` does not stop init: it succeeds with `short_iomem`
   * NULL, holding the region and the device number but no mapping.
   */
  lemma InitSucceedsWithoutMapping(iomem: nat, major: int, regResult: int)
    requires regResult >= 0
    ensures var o := InitSpec(iomem, major, true, 0, regResult);
      && o.result == 0 && o.iomem == 0
      && Replay([], o.calls) == Some([MemRegion(BASE, WINDOW), CharDevice(o.major)])
  {
    InitSuccessHoldsAll(iomem, major, true, 0, regResult);
    var o := InitSpec(iomem, major, true, 0, regResult);
    assert Held(0, o.major) == [MemRegion(BASE, WINDOW), CharDevice(o.major)];
  }

  /** A successful init holds the region, the mapping and the device number, acquired in that order. */
  lemma InitSuccessHoldsAll(iomem: nat, major: int, regionOk: bool, mapped: nat, regResult: int)
    requires InitSpec(iomem, major, regionOk, mapped, regResult).result == 0
    ensures var o := InitSpec(iomem, major, regionOk, mapped, regResult);
      Replay([], o.calls) == Some(Held(o.iomem, o.major))
  {
    var o := InitSpec(iomem, major, regionOk, mapped, regResult);
    assert o.calls == Acquires(Held(o.iomem, o.major));
    AcquireAll([], Held(o.iomem, o.major));
    assert [] + Held(o.iomem, o.major) == Held(o.iomem, o.major);
  }

  /** Exit releases exactly what a successful init holds, in the reverse of the order init acquired it. */
  lemma ExitUnwindsInit(iomem: nat, major: int, regionOk: bool, mapped: nat, regResult: int)
    requires InitSpec(iomem, major, regionOk, mapped, regResult).result == 0
    ensures var o := InitSpec(iomem, major, regionOk, mapped, regResult);
      && ExitCalls(BASE, o.iomem, o.major) == Unwind(Held(o.iomem, o.major))
      && Replay([], o.calls + ExitCalls(BASE, o.iomem, o.major)) == Some([])
  {
    var o := InitSpec(iomem, major, regionOk, mapped, regResult);
    InitSuccessHoldsAll(iomem, major, regionOk, mapped, regResult);
    assert ExitCalls(BASE, o.iomem, o.major) == Unwind(Held(o.iomem, o.major));
    ReplayAppend([], o.calls, ExitCalls(BASE, o.iomem, o.major));
    UnwindAll([], Held(o.iomem, o.major));
    assert [] + Held(o.iomem, o.major) == Held(o.iomem, o.major);
  }

  class Driver {
    var major: int
    var shortBase: nat
    /** The mapped window (`short_iomem`), an opaque handle; 0 is NULL. */
    var shortIomem: nat
    /** Resource acquisitions and releases made by init and exit, in order. */
    var calls: seq<Call>

    /** The module as loaded: the globals at their static initial values. */
    constructor ()
      ensures major == 0 && shortBase == 0 && shortIomem == 0 && calls == []
    {
      major, shortBase, shortIomem, calls := 0, 0, 0, [];
    }

    /** `short_open`: nothing to set up. */
    method Open() returns (r: int)
      ensures r == 0
    {
      r := 0;
    }

    /** `short_release`: nothing to tear down. */
    method Release() returns (r: int)
      ensures r == 0
    {
      r := 0;
    }

    /**
     * `short_read`: fetches bytes with `ioread8` from `short_iomem` into a zeroed buffer
     * from index `fpos` until a newline or `count`, copies the first `i`
     * bytes out and returns `i`. `stream` is what the device yields;
     * `allocOk` and `copyOk` are the outcomes of `kzalloc` and
     * `copy_to_user`. Returned besides the result: the buffer's final
     * contents, the bytes the caller receives, the bus log and the number of
     * `kfree` calls.
     */
    method Read(count: nat, fpos: nat, stream: seq<byte>, allocOk: bool, copyOk: bool)
      returns (ret: int, kbuf: seq<byte>, copied: seq<byte>, bus: seq<BusOp>, frees: nat)
      requires fpos <= count <= INT_MAX
      requires count - fpos <= |stream|
      ensures !allocOk ==> ret == -ENOMEM && kbuf == [] && copied == [] && bus == [] && frees == 0
      ensures allocOk ==> frees == 1
      ensures allocOk ==> kbuf == ReadBuffer(fpos, count, stream)
      ensures allocOk ==> bus == ReadTrace(shortIomem, ReadIndex(fpos, count, stream) - fpos)
      ensures allocOk && copyOk ==> ret == ReadIndex(fpos, count, stream) && copied == kbuf[..ret]
      ensures allocOk && !copyOk ==> ret == -EFAULT && copied == []
    {
      var port := shortIomem;
      if !allocOk {
        return -ENOMEM, [], [], [], 0;
      }
      var buf := new byte[count](_ => 0);
      var i := fpos;
      bus := [];
      ghost var stopped := false;
      while i < count
        invariant fpos <= i <= count && !stopped
        invariant NEWLINE !in stream[..i - fpos]
        invariant forall k :: 0 <= k < fpos ==> buf[k] == 0
        invariant forall k :: fpos <= k < i ==> buf[k] == stream[k - fpos]
        invariant forall k :: i <= k < count ==> buf[k] == 0
        invariant bus == ReadTrace(port, i - fpos)
      {
        buf[i] := stream[i - fpos];
        bus := bus + [Read8(port), ReadBarrier];
        i := i + 1;
        if buf[i - 1] == NEWLINE {
          stopped := true;
          break;
        }
      }
      if stopped {
        ReadIndexAtFirstNewline(fpos, count, stream, i - fpos - 1);
      } else {
        assert stream[..count - fpos] == stream[..i - fpos];
      }
      kbuf := buf[..];
      assert kbuf == ReadBuffer(fpos, count, stream);
      if copyOk {
        ret, copied := i, buf[..i];
      } else {
        ret, copied := -EFAULT, [];
      }
      frees := 1;
    }

    /**
     * `short_write`: copies the user's bytes into a kernel buffer and
     * stores them one at a time with `iowrite8` to `short_iomem`, returning their
     * number. `allocOk` and `copyOk` are the outcomes of `kmalloc` and
     * `copy_from_user`. Returned besides the result: the bus log and the
     * number of `kfree` calls.
     */
    method Write(user: seq<byte>, allocOk: bool, copyOk: bool) returns (ret: int, bus: seq<BusOp>, frees: nat)
      ensures !allocOk ==> ret == -ENOMEM && bus == [] && frees == 0
      ensures allocOk && !copyOk ==> ret == -EFAULT && bus == [] && frees == 0
      ensures allocOk && copyOk ==> ret == |user| && bus == WriteTrace(shortIomem, user) && frees == 1
    {
      var port := shortIomem;
      var count := |user|;
      var cnt := count;
      if !allocOk {
        return -ENOMEM, [], 0;
      }
      var kbuf := new byte[cnt];
      if !copyOk {
        // the buffer is not freed on this path
        return -EFAULT, [], 0;
      }
      forall k | 0 <= k < cnt {
        kbuf[k] := user[k];
      }
      var ptr := 0;
      bus := [];
      while cnt != 0
        invariant ptr + cnt == count
        invariant kbuf[..] == user
        invariant bus == WriteTrace(port, user[..ptr])
      {
        assert user[..ptr + 1][..ptr] == user[..ptr];
        bus := bus + [Write8(port, kbuf[ptr]), WriteBarrier];
        ptr, cnt := ptr + 1, cnt - 1;
      }
      assert user[..ptr] == user;
      frees := 1;
      ret := count;
    }

    /**
     * `m_init`: claims the memory region, maps it (the mapping is not
     * checked), then registers the character device; a failed registration
     * unmaps and then releases the region. `regionOk`, `mapped` and
     * `regResult` are what `request_mem_region`, `ioremap` and
     * `register_chrdev` return.
     */
    method Init(regionOk: bool, mapped: nat, regResult: int) returns (result: int)
      requires calls == []
      modifies this
      ensures shortBase == BASE
      ensures InitOutcome(result, shortIomem, major, calls)
        == InitSpec(old(shortIomem), old(major), regionOk, mapped, regResult)
    {
      result := 0;
      shortBase := BASE;
      var region := MemRegion(shortBase, WINDOW);
      label out: {
        label unregRegion: {
          if !regionOk {
            result := -ENODEV;
            break out;
          }
          calls := calls + [Acquired(region)];
          shortIomem := mapped;
          if shortIomem != 0 {
            // ioremap returned a mapping; its result is not checked otherwise
            calls := calls + [Acquired(Mapping(shortBase, WINDOW, shortIomem))];
          }
          result := regResult;
          if result < 0 {
            break unregRegion;
          }
          major := if major == 0 then result else major;
          calls := calls + [Acquired(CharDevice(major))];
          result := 0;
          return;
        }
        if shortIomem != 0 {
          // iounmap of NULL does nothing
          calls := calls + [Released(Mapping(shortBase, WINDOW, shortIomem))];
        }
        calls := calls + [Released(region)];
      }
    }

    /** `m_exit`: unregisters the device, unmaps the window and releases the region, always all three, in that order. */
    method Exit()
      modifies this`calls
      ensures calls == old(calls) + ExitCalls(shortBase, shortIomem, major)
    {
      calls := calls + [Released(CharDevice(major))];
      if shortIomem != 0 {
        // iounmap of NULL does nothing
        calls := calls + [Released(Mapping(shortBase, WINDOW, shortIomem))];
      }
      calls := calls + [Released(MemRegion(shortBase, WINDOW))];
    }
  }
}
