/** The capture state `plugin_state` as a value, and what each callback
    does to it: the toggle on the magic instruction, the recorder on a
    memory access, and the header patch at exit. */
module Capture {
  import opened Wrappers
  import opened Words
  import DumpFile

  /** `enum qemu_plugin_mem_rw`; `Unset` is the all-zero value of the static
      `plugin_state` before installation, which is none of the enumerators. */
  datatype Access = Unset | MemR | MemW | MemRW

  /** What the host reports for one memory access: no hardware address
      (`qemu_plugin_get_hwaddr` gives NULL), an I/O address
      (`qemu_plugin_hwaddr_is_io`), or a physical RAM address. */
  datatype HwAddr = Unresolved | Io | Phys(addr: u64)

  /** One callback fired while the guest runs: the magic instruction
      executing, or a memory access of any other instruction. */
  datatype Event = Magic | MemAccess(hw: HwAddr)

  /** `plugin_state`: the dump file (`None` for NULL), the capturing flag,
      the access kind memory callbacks ask for, and `trans_captured`. */
  datatype State = State(dumpFile: Option<DumpFile.Stream>, capturing: bool, rw: Access, captured: u64)

  /** The zero-initialised static state before `qemu_plugin_install` runs. */
  const Loaded: State := State(None, false, Unset, 0)

  /** The state after a successful installation with the dump file at `path`:
      not capturing, nothing captured, and a zero header word written. */
  function Started(path: string): State
  {
    State(Some(DumpFile.Write(DumpFile.Open(path), 0)), false, MemRW, 0)
  }

  /** The invariant of an installed plugin: the dump file is open with the
      header word followed by one word per captured transaction, positioned
      at its end, and `trans_captured` is the number of those words modulo 2^64. */
  predicate Running(s: State)
  {
    && s.dumpFile.Some?
    && s.dumpFile.value.isOpen
    && |s.dumpFile.value.words| >= 1
    && s.dumpFile.value.pos == |s.dumpFile.value.words|
    && s.captured as int == (|s.dumpFile.value.words| - 1) % U64_MODULUS
    && s.rw == MemRW
  }

  /** The word at offset 0 of the dump file. */
  function Header(s: State): u64
    requires Running(s)
  {
    s.dumpFile.value.words[0]
  }

  /** The captured addresses: every word after the header. */
  function Body(s: State): seq<u64>
    requires Running(s)
  {
    s.dumpFile.value.words[1..]
  }

  lemma StartedIsRunning(path: string)
    ensures Running(Started(path))
    ensures Header(Started(path)) == 0 && Body(Started(path)) == []
    ensures !Started(path).capturing && Started(path).captured == 0
  {
  }

  /** `cb_vcpu_magic_insn_exec`: flip the capturing flag. */
  function Toggle(s: State): (r: State)
    ensures r.capturing == !s.capturing
    ensures Running(r) == Running(s)
    ensures Running(s) ==> Body(r) == Body(s) && Header(r) == Header(s) && r.captured == s.captured
  {
    s.(capturing := !s.capturing)
  }

  /** `cb_vcpu_mem_access`: while capturing, a physical RAM address is
      written at the end of the dump file and counted; anything else is
      dropped. */
  function Record(s: State, hw: HwAddr): (r: State)
    requires Running(s)
    ensures Running(r) && r.capturing == s.capturing && Header(r) == Header(s)
    ensures !s.capturing ==> r == s
    ensures !hw.Phys? ==> r == s
    ensures s.capturing && hw.Phys? ==> Body(r) == Body(s) + [hw.addr]
    ensures s.capturing && hw.Phys? ==> r.captured as int == (s.captured as int + 1) % U64_MODULUS
  {
    if !s.capturing then s
    else
      match hw
      case Unresolved => s
      case Io => s
      case Phys(a) =>
        var f := DumpFile.Write(s.dumpFile.value, a);
        assert f.words == s.dumpFile.value.words + [a];
        assert f.words[1..] == s.dumpFile.value.words[1..] + [a];
        s.(dumpFile := Some(f), captured := Inc64(s.captured))
  }

  /** `cb_plugin_exit`: seek to offset 0, overwrite the header word with
      `trans_captured`, and close the file. */
  function Finish(s: State): (r: State)
    requires Running(s)
    ensures r.dumpFile.Some? && !r.dumpFile.value.isOpen
    ensures r.dumpFile.value.path == s.dumpFile.value.path
    ensures r.dumpFile.value.words == [s.captured] + Body(s)
    ensures r.dumpFile.value.words[0] as int == |Body(s)| % U64_MODULUS
  {
    var f := DumpFile.Write(DumpFile.Seek(s.dumpFile.value, 0), s.captured);
    s.(dumpFile := Some(DumpFile.Close(f)))
  }

  /** The callback an event fires. */
  function Step(s: State, e: Event): (r: State)
    requires Running(s)
    ensures Running(r)
  {
    match e
    case Magic => Toggle(s)
    case MemAccess(hw) => Record(s, hw)
  }

  /** The state after the callbacks of `es` have fired in order. */
  function Run(s: State, es: seq<Event>): (r: State)
    requires Running(s)
    ensures Running(r)
    decreases |es|
  {
    if es == [] then s else Run(Step(s, es[0]), es[1..])
  }

  lemma {:induction false} RunSnoc(s: State, es: seq<Event>, e: Event)
    requires Running(s)
    ensures Run(s, es + [e]) == Step(Run(s, es), e)
    decreases |es|
  {
    if es == [] {
      assert [e][1..] == [];
    } else {
      assert (es + [e])[0] == es[0];
      assert (es + [e])[1..] == es[1..] + [e];
      RunSnoc(Step(s, es[0]), es[1..], e);
    }
  }

  /** How many times the magic instruction executed in `es`. */
  function Toggles(es: seq<Event>): nat
  {
    multiset(es)[Magic]
  }

  predicate Odd(n: nat)
  {
    n % 2 == 1
  }

  /** Toggle parity: the plugin is capturing iff it started capturing and
      the magic instruction executed an even number of times, or it did not
      and the magic instruction executed an odd number of times. Memory
      accesses never change the flag. */
  lemma {:induction false} RunParity(s: State, es: seq<Event>)
    requires Running(s)
    ensures Run(s, es).capturing == (s.capturing != Odd(Toggles(es)))
    decreases |es|
  {
    if es != [] {
      var init, e := es[..|es| - 1], es[|es| - 1];
      assert es == init + [e];
      RunSnoc(s, init, e);
      RunParity(s, init);
      assert multiset(es) == multiset(init) + multiset{e};
    }
  }

  /** Reference definition of the trace body: the physical RAM addresses of
      the memory accesses in `es`, in order, that happened while capturing,
      that is after an odd number of magic executions when starting idle
      (even when starting `active`). */
  function Recorded(active: bool, es: seq<Event>): seq<u64>
    decreases |es|
  {
    if es == [] then []
    else
      var init, e := es[..|es| - 1], es[|es| - 1];
      var capturing := active != Odd(Toggles(init));
      Recorded(active, init) + (if capturing && e.MemAccess? && e.hw.Phys? then [e.hw.addr] else [])
  }

  /** The recorder appends exactly the recorded addresses, in execution
      order, and never touches the header word. */
  lemma {:induction false} RunRecords(s: State, es: seq<Event>)
    requires Running(s)
    ensures Body(Run(s, es)) == Body(s) + Recorded(s.capturing, es)
    ensures Header(Run(s, es)) == Header(s)
    decreases |es|
  {
    if es == [] {
      assert Body(s) + [] == Body(s);
    } else {
      var init, e := es[..|es| - 1], es[|es| - 1];
      assert es == init + [e];
      RunSnoc(s, init, e);
      RunRecords(s, init);
      RunParity(s, init);
      var mid := Run(s, init);
      if e.MemAccess? && mid.capturing && e.hw.Phys? {
        assert Body(Step(mid, e)) == Body(mid) + [e.hw.addr];
      }
    }
  }

  /** The trace file format: after any run from a fresh installation and
      the exit callback, the file is the count of recorded addresses
      (modulo 2^64, the width of `trans_captured`) followed by exactly those
      addresses in execution order. */
  lemma TraceFileAtExit(path: string, es: seq<Event>)
    ensures Finish(Run(Started(path), es)).dumpFile.value.words
      == [Trunc64(|Recorded(false, es)|)] + Recorded(false, es)
    ensures Finish(Run(Started(path), es)).dumpFile.value.path == path
  {
    StartedIsRunning(path);
    RunRecords(Started(path), es);
    RunPath(Started(path), es);
    var r := Run(Started(path), es);
    assert Body(r) == Recorded(false, es);
    assert Trunc64(|Body(r)|) == r.captured;
  }

  /** Until the exit callback runs, the header word of the stream's contents
      is still 0 while its body holds every recorded address. These are the
      contents as written through the stream; what has reached the disk is
      not modelled. */
  lemma HeaderZeroUntilExit(path: string, es: seq<Event>)
    ensures Header(Run(Started(path), es)) == 0
    ensures Body(Run(Started(path), es)) == Recorded(false, es)
  {
    StartedIsRunning(path);
    RunRecords(Started(path), es);
  }

  /** No callback changes which file is written. */
  lemma {:induction false} RunPath(s: State, es: seq<Event>)
    requires Running(s)
    ensures Run(s, es).dumpFile.value.path == s.dumpFile.value.path
    decreases |es|
  {
    if es != [] {
      RunPath(Step(s, es[0]), es[1..]);
    }
  }

  /** A capture window: the magic instruction, three RAM accesses, the
      magic instruction again, then exit, leaves the file `[3, a, b, c]`. */
  lemma CaptureWindowScenario(path: string, a: u64, b: u64, c: u64)
    ensures
      var es := [Magic, MemAccess(Phys(a)), MemAccess(Phys(b)), MemAccess(Phys(c)), Magic];
      Finish(Run(Started(path), es)).dumpFile.value.words == [3, a, b, c]
  {
    var es := [Magic, MemAccess(Phys(a)), MemAccess(Phys(b)), MemAccess(Phys(c)), Magic];
    TraceFileAtExit(path, es);
    assert Toggles([]) == 0;
    assert Toggles(es[..1]) == 1 by { assert es[..1] == [Magic]; }
    assert Toggles(es[..2]) == 1 by { assert es[..2] == [Magic, MemAccess(Phys(a))]; }
    assert Toggles(es[..3]) == 1 by { assert es[..3] == [Magic, MemAccess(Phys(a)), MemAccess(Phys(b))]; }
    assert Toggles(es[..4]) == 1 by { assert es[..4] == [Magic, MemAccess(Phys(a)), MemAccess(Phys(b)), MemAccess(Phys(c))]; }
    assert Recorded(false, es) == [a, b, c] by {
      assert es[..4][..3] == es[..3] && es[..3][..2] == es[..2] && es[..2][..1] == es[..1] && es[..1][..0] == [];
      assert Recorded(false, es[..1]) == [];
      assert Recorded(false, es[..2]) == [a];
      assert Recorded(false, es[..3]) == [a, b];
      assert Recorded(false, es[..4]) == [a, b, c];
    }
  }

  /** Accesses before the first magic instruction are not captured: the
      file is the zero header alone. */
  lemma NoSentinelScenario(path: string, a: u64, b: u64)
    ensures Finish(Run(Started(path), [MemAccess(Phys(a)), MemAccess(Phys(b))])).dumpFile.value.words == [0]
  {
    var es := [MemAccess(Phys(a)), MemAccess(Phys(b))];
    TraceFileAtExit(path, es);
    assert es[..1] == [MemAccess(Phys(a))] && es[..1][..0] == [];
    assert Toggles(es[..1]) == 0 && Toggles([]) == 0;
    assert Recorded(false, es[..1]) == [];
    assert Recorded(false, es) == [];
  }

  /** Two magic executions back to back cancel: capturing is off again,
      nothing is counted and the file is the zero header alone. */
  lemma DoubleToggleScenario(path: string)
    ensures !Run(Started(path), [Magic, Magic]).capturing
    ensures Run(Started(path), [Magic, Magic]).captured == 0
    ensures Finish(Run(Started(path), [Magic, Magic])).dumpFile.value.words == [0]
  {
    var es := [Magic, Magic];
    StartedIsRunning(path);
    RunParity(Started(path), es);
    assert multiset(es)[Magic] == 2;
    TraceFileAtExit(path, es);
    assert es[..1] == [Magic] && es[..1][..0] == [];
    assert Recorded(false, es[..1]) == [];
    assert Recorded(false, es) == [];
  }
}
