/**
 * The resources the drivers' `m_init` acquires and `m_exit` releases, and the
 * discipline both follow: resources are released in exactly the reverse of
 * the order they were acquired in, whether on an init failure path or at exit.
 *
 * Each kernel service is reduced to the resource it grants; a log of calls
 * records only acquisitions that succeeded and releases.
 */
module Lifecycle {
  import opened Kernel

  datatype Resource =
    | IoRegion(start: nat, len: nat)             // request_region / release_region
    | MemRegion(start: nat, len: nat)            // request_mem_region / release_mem_region
    | Mapping(phys: nat, size: nat, handle: nat) // ioremap / iounmap
    | IrqLine(line: int)                         // request_irq / free_irq
    | CharDevice(major: int)                     // register_chrdev / unregister_chrdev

  datatype Call = Acquired(r: Resource) | Released(r: Resource)

  /**
   * The stack of resources held after `log`, starting from `held` (oldest
   * first). None when the log releases something other than the most
   * recently acquired resource still held: an out-of-order release, a double
   * release, or a release of something never acquired.
   */
  function Replay(held: seq<Resource>, log: seq<Call>): Option<seq<Resource>>
    decreases |log|
  {
    if log == [] then Some(held)
    else match log[0]
      case Acquired(r) => Replay(held + [r], log[1..])
      case Released(r) =>
        if held != [] && held[|held| - 1] == r then Replay(held[..|held| - 1], log[1..]) else None
  }

  /** Acquisitions of `rs`, in order. */
  function Acquires(rs: seq<Resource>): (log: seq<Call>)
    ensures |log| == |rs| && forall k :: 0 <= k < |rs| ==> log[k] == Acquired(rs[k])
  {
    seq(|rs|, k requires 0 <= k < |rs| => Acquired(rs[k]))
  }

  /** Releases of `rs` in reverse order: the most recently acquired first. */
  function Unwind(rs: seq<Resource>): (log: seq<Call>)
    ensures |log| == |rs| && forall k :: 0 <= k < |rs| ==> log[k] == Released(rs[|rs| - 1 - k])
  {
    if rs == [] then [] else [Released(rs[|rs| - 1])] + Unwind(rs[..|rs| - 1])
  }

  /** Replaying a log in two pieces is replaying it whole. */
  lemma {:induction false} ReplayAppend(held: seq<Resource>, a: seq<Call>, b: seq<Call>)
    ensures Replay(held, a + b) ==
      match Replay(held, a)
      case None => None
      case Some(rest) => Replay(rest, b)
    decreases |a|
  {
    if a == [] {
      assert a + b == b;
    } else {
      assert (a + b)[1..] == a[1..] + b;
      match a[0]
      case Acquired(r) => ReplayAppend(held + [r], a[1..], b);
      case Released(r) =>
        if held != [] && held[|held| - 1] == r {
          ReplayAppend(held[..|held| - 1], a[1..], b);
        }
    }
  }

  /** Acquiring `rs` pushes them onto the stack in order. */
  lemma {:induction false} AcquireAll(held: seq<Resource>, rs: seq<Resource>)
    ensures Replay(held, Acquires(rs)) == Some(held + rs)
    decreases |rs|
  {
    if rs == [] {
      assert held + rs == held;
    } else {
      assert Acquires(rs)[1..] == Acquires(rs[1..]);
      AcquireAll(held + [rs[0]], rs[1..]);
      assert held + [rs[0]] + rs[1..] == held + rs;
    }
  }

  /** Releasing `rs` in reverse order pops exactly them off the stack. */
  lemma {:induction false} UnwindAll(held: seq<Resource>, rs: seq<Resource>)
    ensures Replay(held + rs, Unwind(rs)) == Some(held)
    decreases |rs|
  {
    if rs == [] {
      assert held + rs == held;
    } else {
      var init := rs[..|rs| - 1];
      assert (held + rs)[..|held + rs| - 1] == held + init;
      UnwindAll(held, init);
    }
  }

  /** Acquiring a prefix of steps and unwinding it leaves exactly what was held before: nothing leaks. */
  lemma Balanced(held: seq<Resource>, rs: seq<Resource>)
    ensures Replay(held, Acquires(rs) + Unwind(rs)) == Some(held)
  {
    ReplayAppend(held, Acquires(rs), Unwind(rs));
    AcquireAll(held, rs);
    UnwindAll(held, rs);
  }

  /** Only the most recently acquired resource may be released next. */
  lemma OutOfOrderReleaseRejected(held: seq<Resource>, r: Resource, rest: seq<Call>)
    requires held == [] || held[|held| - 1] != r
    ensures Replay(held, [Released(r)] + rest) == None
  {
  }
}
