# short: a byte-stream character device over port I/O and MMIO

This project models the two "short" example drivers of a Linux device-driver tutorial
repository (`15_short_ioport` and `17_short_mmio`). Both expose a
character device whose `read` pulls bytes from a hardware register until a newline or
the requested count. Their `write` pushes the user's bytes to the register one at a
time. Their module init claims the hardware in a fixed order and unwinds on failure;
their module exit releases everything in reverse.

- `15_short_ioport/main.c` drives `SHORT_NR_PORTS` I/O ports at 0x200 with `inb`/`outb`
  (the header defining that constant is not part of this model; it is assumed to be 8). It also
  holds interrupt line 6 with a handler, `irq_service`.
- `17_short_mmio/main.c` claims a 0x10-byte physical window at 0xFF000000, maps it
  with `ioremap` and uses `ioread8`/`iowrite8` on the mapping.

## Structure

- `kernel.dfy` (module `Kernel`): bytes, the newline byte, errno values, `INT_MAX`, `irqreturn_t`.
- `device_file.dfy` (module `DeviceFile`): the read/write contract shared by both drivers.
  A device is "the bytes it yields" (`stream`); the bus is a log of `BusOp`s, where each
  one-byte transfer is followed by the barrier the driver issues (`rmb`/`wmb`).
  - `ReadIndex`: where the read loop stops.
  - `ReadBuffer`: the kernel buffer after the loop.
  - `ReadTrace` and `WriteTrace`: the bus logs.
  - `Fetches` and `Stored`: recover the fetch count and the stored bytes from a log.
- `lifecycle.dfy` (module `Lifecycle`): kernel resources and a log of acquisitions and
  releases. `Replay` replays a log against a stack of held resources. It fails on any
  release that is not of the most recently acquired resource still held, so "nothing
  leaks, released in reverse order" becomes `Replay([], log) == Some([])`.
- `short_ioport.dfy` (module `ShortIoport`) and `short_mmio.dfy` (module `ShortMmio`):
  each driver is a class `Driver`. The module's globals are its fields, and `calls`
  logs its init/exit kernel calls.
  - `Read` and `Write` are loops over a local kernel buffer (an `array`), proved
    against `DeviceFile`.
  - `Init` mirrors the C `goto` unwinding with labelled blocks and `break`. Its new
    state is tied to a pure `InitSpec`, and the lemmas beside `InitSpec` state the
    ordering and no-leak properties.

Foreign calls are parameters of the operation that makes them:
- `kzalloc`/`kmalloc` succeed or not (`allocOk`).
- `copy_to_user`/`copy_from_user` succeed or not (`copyOk`).
- `request_region`/`request_mem_region` succeed or not (`regionOk`).
- `request_irq` and `register_chrdev` return an integer (`irqResult`, `regResult`).
- `ioremap` returns a handle (`mapped`, where 0 is NULL).

Points where the code behaves differently from what a reader of the interface might
expect, modelled as the code has them:
- A read whose offset equals the count returns the offset, not 0.
- A read whose offset exceeds the count copies out of bounds (see `ReadPastEndOverruns`).
- Exit releases all three resources unconditionally. It does not skip resources that
  were never acquired.
- A failed copy-in in `write` leaks the buffer, so `Write` reports zero `kfree` calls
  on that path.
- The MMIO init does not check `ioremap`. A NULL mapping still gives a successful init
  with `short_iomem` NULL and no mapping held (`InitSucceedsWithoutMapping`). Every
  later `ioread8`/`iowrite8` then goes to handle 0. `iounmap` of NULL does nothing, so
  neither the failure path nor exit logs an unmap in that case.

## Model

| member | source | states |
|---|---|---|
| `DeviceFile.FirstNewline` | 15_short_ioport/main.c:42-46 | None exactly when the bytes hold no newline. Otherwise the index of a newline with no newline before it. |
| `DeviceFile.ReadIndex` | 15_short_ioport/main.c:40-47 | The loop's final index. It equals `fpos` when `fpos >= count`. Otherwise `fpos <= i <= count`: `i == count` when the window `[fpos, count)` holds no newline, else the byte before `i` is a newline with no newline earlier in the window. |
| `DeviceFile.ReadBuffer` | 15_short_ioport/main.c:36-47 | The buffer has `count` bytes. `[0, fpos)` and `[i, count)` are zero (kzalloc). `[fpos, i)` holds the fetched bytes in fetch order. |
| `DeviceFile.ReadIndexAtFirstNewline` | 15_short_ioport/main.c:42-46 | If the first newline in the window is fetched byte `j` (0-based), the read returns `fpos + j + 1`. |
| `DeviceFile.ReadPastEndOverruns` | 15_short_ioport/main.c:40-49 | With `fpos > count` no byte is fetched and the index stays `fpos`, more than the buffer holds, so the copy-out overruns it. |
| `DeviceFile.ReadStopsAfterNewlineExample` | 15_short_ioport/main.c:40-49 | Reading 3 from offset 0 over 'X', newline, 'Y' returns 2, and the buffer is 'X', newline, 0. |
| `DeviceFile.ReadFromOffsetExample` | 15_short_ioport/main.c:36-47 | Reading 5 from offset 2 fills indices 2 to 4 only; 0 and 1 stay zero. |
| `DeviceFile.WriteTwoBytesExample` | 15_short_ioport/main.c:74-78 | Writing 'A','B' to port 0x200 stores 'A' then 'B' there, each followed by a write barrier. |
| `DeviceFile.ReadTrace` | 15_short_ioport/main.c:42-44 | The bus log of `n` loop steps, each `inb` followed by `rmb`: its length is `2 * n`. What it fetches and where is stated by `ReadTraceShape`. |
| `DeviceFile.WriteTrace` | 15_short_ioport/main.c:74-77 | The bus log of the write loop, one `outb` of each byte followed by `wmb`: its length is twice that of `data`. `WriteTraceShape` proves that `Stored` recovers `data` from it. |
| `DeviceFile.ReadTraceShape` | 15_short_ioport/main.c:42-47 | `n` loop steps fetch exactly `n` bytes, all from the one port, alternating fetch and read barrier. |
| `DeviceFile.WriteTraceShape` | 15_short_ioport/main.c:72-78 | Writing `data` stores exactly `data` in order (`Stored` inverts `WriteTrace`), all to the one port, store `k` carrying `data[k]` and followed by a write barrier. |
| `DeviceFile.FetchesAppend` | 15_short_ioport/main.c:42-47 | Fetch counts add up over concatenated bus logs. |
| `DeviceFile.StoredAppend` | 15_short_ioport/main.c:74-78 | Stored bytes concatenate over concatenated bus logs. |
| `Lifecycle.ReplayAppend` | 15_short_ioport/main.c:104-154 | Replaying a log in two pieces equals replaying it whole. |
| `Lifecycle.AcquireAll` | 15_short_ioport/main.c:112-134 | Acquiring resources pushes them onto the held stack in acquisition order. |
| `Lifecycle.UnwindAll` | 15_short_ioport/main.c:151-153 | Releasing resources newest first pops exactly them off the stack. |
| `Lifecycle.Balanced` | 15_short_ioport/main.c:138-145 | Acquiring a prefix of steps and then unwinding it in reverse leaves exactly what was held before. |
| `Lifecycle.OutOfOrderReleaseRejected` | 15_short_ioport/main.c:138-145 | Releasing anything other than the most recently acquired resource is rejected. |
| `ShortIoport.Held` | 15_short_ioport/main.c:112-134 | What a successful init holds, oldest first: the region first, the IRQ line exactly when `short_irq` is not negative, the device number last. |
| `ShortIoport.InitSpec` | 15_short_ioport/main.c:104-146 | `m_init` as a function of the globals and the kernel's answers. It returns 0 or a negative value, and 0 exactly when the region is granted, the IRQ is granted or skipped, and registration returns a non-negative value. |
| `ShortIoport.ExitCalls` | 15_short_ioport/main.c:151-153 | `m_exit`'s three calls are all releases. For the module's base and a non-negative IRQ they are exactly `Held` released newest first. |
| `ShortIoport.InitResults` | 15_short_ioport/main.c:104-146 | A missing region returns -ENODEV with no call made; `short_irq` and `major` are unchanged (`short_base` is already set at line 108). A refused IRQ returns -ENODEV and sets `short_irq` to -1. A failed registration returns its negative result. Success returns 0 and sets `major` to the registration result only when `major` was 0. |
| `ShortIoport.InitFailureReleasesAll` | 15_short_ioport/main.c:112-145 | For `short_irq >= 0`: a missing region makes no call; a refused IRQ acquires and releases the region; a failed registration acquires region then IRQ and releases IRQ then region. Each failure holds nothing afterwards. |
| `ShortIoport.InitSuccessHoldsAll` | 15_short_ioport/main.c:112-136 | A successful init holds region, IRQ (none when `short_irq` is negative) and device number, acquired in that order. |
| `ShortIoport.InitFreesUnrequestedIrq` | 15_short_ioport/main.c:118-142 | With `short_irq` negative, a failed registration still frees the never-requested IRQ, so the unwinding releases something not held. |
| `ShortIoport.ExitUnwindsInit` | 15_short_ioport/main.c:148-154 | Exit's calls are exactly the reverse of what a successful init acquired. Init followed by exit leaves nothing held. |
| `ShortIoport.Driver.constructor` | 15_short_ioport/main.c:14-18 | Load-time globals: `major` 0, `short_irq` 6, `short_base` 0, no kernel calls yet. |
| `ShortIoport.Driver.Open` | 15_short_ioport/main.c:20-23 | Open always succeeds (returns 0) and changes nothing. |
| `ShortIoport.Driver.Release` | 15_short_ioport/main.c:25-28 | Release always succeeds (returns 0) and changes nothing. |
| `ShortIoport.Driver.Read` | 15_short_ioport/main.c:30-56 | A failed allocation returns -ENOMEM with no port access and nothing freed. Otherwise the buffer is `ReadBuffer` and the port is read `ReadIndex - fpos` times, each read followed by a barrier. Success returns `ReadIndex` and hands the caller the buffer's first `ReadIndex` bytes. A failed copy returns -EFAULT. The buffer is freed exactly once. |
| `ShortIoport.Driver.Write` | 15_short_ioport/main.c:58-83 | A failed allocation returns -ENOMEM and a failed copy-in returns -EFAULT, both before any `outb`; the buffer leaks on -EFAULT. Success makes one `outb` per user byte, in order, to `short_base`, each followed by a barrier, returns the count and frees once. |
| `ShortIoport.Driver.IrqService` | 15_short_ioport/main.c:94-102 | `short_irq` becomes `-irq` exactly when the delivered line differs from it. The handler always returns IRQ_HANDLED. |
| `ShortIoport.Driver.Init` | 15_short_ioport/main.c:104-146 | `short_base` becomes 0x200. The return value, `short_irq`, `major` and the kernel calls are those of `InitSpec`: region, then IRQ, then registration, unwinding the acquired prefix newest first on failure. |
| `ShortIoport.Driver.Exit` | 15_short_ioport/main.c:148-154 | Appends `ExitCalls`: unregister, then free IRQ, then release region, unconditionally. |
| `ShortMmio.Held` | 17_short_mmio/main.c:98-112 | What a successful init holds, oldest first: the region first, the mapping exactly when `ioremap` returned a non-NULL handle, the device number last. |
| `ShortMmio.InitSpec` | 17_short_mmio/main.c:91-122 | `m_init` as a function of the globals and the kernel's answers. It returns 0 or a negative value, and 0 exactly when the region is granted and registration returns a non-negative value (the mapping is not checked). |
| `ShortMmio.ExitCalls` | 17_short_mmio/main.c:127-129 | `m_exit`'s calls are all releases (no unmap for a NULL handle). For the module's base they are exactly `Held` released newest first. |
| `ShortMmio.InitResults` | 17_short_mmio/main.c:91-122 | A missing region returns -ENODEV with no call made; `short_iomem` and `major` are unchanged (`short_base` is already set at line 95). Otherwise `short_iomem` is whatever `ioremap` returned (NULL included, unchecked). A failed registration returns its negative result. Success returns 0 and sets `major` only when it was 0. |
| `ShortMmio.InitFailureReleasesAll` | 17_short_mmio/main.c:98-121 | A missing region makes no call. A failed registration acquires the region and the mapping (when non-NULL), then unmaps and then releases the region. Either failure holds nothing afterwards. |
| `ShortMmio.InitSucceedsWithoutMapping` | 17_short_mmio/main.c:104-114 | With `ioremap` returning NULL, init still returns 0 with `short_iomem` NULL, holding only the region and the device number. |
| `ShortMmio.InitSuccessHoldsAll` | 17_short_mmio/main.c:98-114 | A successful init holds region, mapping (none when `ioremap` returned NULL) and device number, acquired in that order. |
| `ShortMmio.ExitUnwindsInit` | 17_short_mmio/main.c:124-130 | Exit's calls (unregister, `iounmap`, `release_mem_region`) are exactly the reverse of what a successful init acquired. Init followed by exit leaves nothing held. |
| `ShortMmio.Driver.constructor` | 17_short_mmio/main.c:14-18 | Load-time globals: `major` 0, `short_base` 0, `short_iomem` NULL, no kernel calls yet. |
| `ShortMmio.Driver.Open` | 17_short_mmio/main.c:20-23 | Open always succeeds (returns 0) and changes nothing. |
| `ShortMmio.Driver.Release` | 17_short_mmio/main.c:25-28 | Release always succeeds (returns 0) and changes nothing. |
| `ShortMmio.Driver.Read` | 17_short_mmio/main.c:30-55 | The same contract as the port-I/O read. Each fetch is one `ioread8` of `short_iomem` followed by a barrier. |
| `ShortMmio.Driver.Write` | 17_short_mmio/main.c:57-81 | The same contract as the port-I/O write. One `iowrite8` per user byte goes to `short_iomem`, in order. |
| `ShortMmio.Driver.Init` | 17_short_mmio/main.c:91-122 | `short_base` becomes 0xFF000000. The return value, `short_iomem`, `major` and the kernel calls are those of `InitSpec`: region, then mapping (unchecked), then registration; on a failed registration, unmap (a no-op for NULL) then release. |
| `ShortMmio.Driver.Exit` | 17_short_mmio/main.c:124-130 | Appends `ExitCalls`: unregister, then unmap (a no-op for NULL), then release region, unconditionally. |

## Left out

- The kernel's exclusivity rules for `request_region`, `request_mem_region` and `request_irq` are not modelled. Each is an outcome supplied by the caller, and what is held is tracked in the call log.
- `register_chrdev`, `unregister_chrdev` and the `file_operations` binding are not modelled; only the integer result of registration is an input.
- `rmb()` and `wmb()` are bus-log entries after each transfer. Their memory-ordering effect on a real bus is not modelled.
- `irq_service` runs only as a sequential update of `short_irq`. Its asynchronous, preemptive delivery is not modelled.
- `copy_to_user`/`copy_from_user` are a success flag plus a whole-buffer copy. A failed copy-out is modelled as handing the caller nothing; the partial copy the kernel may make is not modelled.
- The `ioremap` address arithmetic is not modelled; `short_iomem` is an opaque natural number.
- Logging (`pr_err`, `pr_info`, `pr_debug`, `PDEBUG`) and module metadata are not modelled.
- The drivers' header `main.h` is not part of this model. `SHORT_NR_PORTS` is assumed to be 8, and `MODULE_NAME` is not used.
- ShortIoport.Driver.Read: requires `fpos <= count`. For a larger `fpos` the source copies `fpos` bytes out of a `count`-byte buffer, past its end, which has no value in the model. `ReadPastEndOverruns` states the index that causes it.
- ShortMmio.Driver.Read: requires `fpos <= count`, for the same reason.
- ShortIoport.Driver.Read: requires `count <= INT_MAX` and a non-negative `fpos`. The C `int`/`size_t`/`loff_t` conversions outside that range are not modelled.
- ShortMmio.Driver.Read: the same `count <= INT_MAX` and non-negative `fpos` restriction.
- ShortIoport.Driver.Read: `stream` must cover the window `[fpos, count)`. The hardware yields a byte on every fetch, so this restricts only the environment, not the driver.
- ShortMmio.Driver.Read: `stream` must cover the window `[fpos, count)`, for the same reason.
- ShortIoport.Driver.Init: requires an empty call log. `m_init` runs once, right after load.
- ShortMmio.Driver.Init: requires an empty call log, for the same reason.
- ShortIoport.InitFailureReleasesAll: stated for `short_irq >= 0`, its value at load. With a negative `short_irq` the unwinding frees an IRQ that was never requested (`InitFreesUnrequestedIrq`).
- ShortIoport.ExitUnwindsInit: stated for `short_irq >= 0`. If `irq_service` had seen a foreign line and negated `short_irq`, exit would free the wrong line. The handler is registered unshared on that one line, so this is not modelled further.
