/** The cache-trace plugin's callbacks acting on its global `plugin_state`,
    modelled as an object whose fields the callbacks update in place. Each
    method is tied to the function of module Capture that says what it does. */
module CacheTrace {
  import opened Wrappers
  import opened Words
  import DumpFile
  import Sentinel
  import Config
  import opened Capture

  /** The callback the planner registers on one instruction: the execution
      callback that toggles capturing, or the memory callback for accesses
      of the given kind. */
  datatype Hook = ExecToggle | MemRecord(rw: Access)

  /** The callback event a registered hook produces when the runtime fires
      it: the toggle hook fires on each execution of its instruction, the
      memory hook on each memory access of its instruction, carrying the
      host's answer `hw` about that access's hardware address. */
  function Fire(h: Hook, hw: HwAddr): (e: Event)
    ensures e.Magic? <==> h.ExecToggle?
    ensures e.MemAccess? ==> e.hw == hw
  {
    match h
    case ExecToggle => Magic
    case MemRecord(_) => MemAccess(hw)
  }

  class Engine {
    var dumpFile: Option<DumpFile.Stream>
    var capturing: bool
    var rw: Access
    var captured: u64

    /** The fields as one `plugin_state` value. */
    function Snapshot(): State
      reads this
    {
      State(dumpFile, capturing, rw, captured)
    }

    /** The zero-initialised static `plugin_state`. */
    constructor ()
      ensures Snapshot() == Loaded
    {
      dumpFile, capturing, rw, captured := None, false, Unset, 0;
    }

    /** `qemu_plugin_install`: the argument loop opens the dump file, the
        host is checked, and only when everything passes is the state set
        up and the zero header word written. Returns 0 or -1. */
    method Install(argv: seq<string>, info: Config.HostInfo, writable: set<string>) returns (ret: int)
      requires Snapshot() == Loaded
      modifies this
      ensures ret == 0 || ret == -1
      ensures ret == 0 <==> Config.Configure(argv, info, writable).Ok?
      ensures ret == 0 ==> Snapshot() == Started(Config.Configure(argv, info, writable).value)
      ensures ret == -1 ==> Snapshot() == Loaded.(dumpFile := LeftOpen(Config.ScanOptions(argv, writable, None).dump))
    {
      var i := 0;
      while i < |argv|
        invariant 0 <= i <= |argv|
        invariant capturing == false && rw == Unset && captured == 0
        invariant dumpFile.Some? ==> dumpFile == LeftOpen(Some(dumpFile.value.path))
        invariant Config.ScanOptions(argv, writable, None) == Config.ScanOptions(argv[i..], writable, PathOf(dumpFile))
      {
        var parts := Config.Split(argv[i]);
        if parts.key == Some(Config.DUMP_KEY) {
          dumpFile := DumpFile.FOpen(parts.value, writable);
          if dumpFile.None? {
            return -1;
          }
        } else {
          return -1;
        }
        assert argv[i..][1..] == argv[i + 1..];
        i := i + 1;
      }
      assert argv[i..] == [];
      if dumpFile.None? {
        return -1;
      }
      if !info.systemEmulation {
        return -1;
      }
      if info.maxVcpus > 1 {
        return -1;
      }
      if info.targetName != "x86_64" {
        return -1;
      }
      capturing := false;
      rw := MemRW;
      captured := 0;
      dumpFile := Some(DumpFile.Write(dumpFile.value, 0));
      return 0;
    }

    /** `cb_vcpu_magic_insn_exec`. */
    method OnMagic()
      modifies this`capturing
      ensures Snapshot() == Toggle(old(Snapshot()))
    {
      capturing := !capturing;
    }

    /** `cb_vcpu_mem_access`, with the host's answer for the access's
        hardware address as its input. */
    method OnMem(hw: HwAddr)
      requires Running(Snapshot())
      modifies this`dumpFile, this`captured
      ensures Snapshot() == Record(old(Snapshot()), hw)
    {
      if !capturing {
        return;
      }
      if !hw.Phys? {
        return;
      }
      dumpFile := Some(DumpFile.Write(dumpFile.value, hw.addr));
      captured := Inc64(captured);
    }

    /** `cb_vcpu_tb_trans`: walks the instructions of a translation block
        in order and registers one callback on each: the toggle on a magic
        instruction, and on every other instruction a memory callback for
        the access kind in `rw`. */
    method PlanBlock(insns: seq<seq<u8>>) returns (hooks: seq<Hook>)
      ensures |hooks| == |insns|
      ensures forall i | 0 <= i < |insns| :: hooks[i].ExecToggle? <==> insns[i] == Sentinel.MAGIC_INST
      ensures forall i | 0 <= i < |insns| :: hooks[i].MemRecord? ==> hooks[i].rw == rw
      ensures rw == MemRW ==> forall i | 0 <= i < |insns| :: insns[i] != Sentinel.MAGIC_INST ==> hooks[i] == MemRecord(MemRW)
    {
      hooks := [];
      for i := 0 to |insns|
        invariant |hooks| == i
        invariant forall k | 0 <= k < i :: hooks[k].ExecToggle? <==> insns[k] == Sentinel.MAGIC_INST
        invariant forall k | 0 <= k < i :: hooks[k].MemRecord? ==> hooks[k].rw == rw
      {
        Sentinel.IsMagicExactly(insns[i]);
        if Sentinel.IsMagic(insns[i]) {
          hooks := hooks + [ExecToggle];
          continue;
        }
        hooks := hooks + [MemRecord(rw)];
      }
    }

    /** `cb_plugin_exit`. */
    method Exit()
      requires Running(Snapshot())
      modifies this`dumpFile
      ensures Snapshot() == Finish(old(Snapshot()))
    {
      dumpFile := Some(DumpFile.Write(DumpFile.Seek(dumpFile.value, 0), captured));
      dumpFile := Some(DumpFile.Close(dumpFile.value));
    }
  }

  /** The stream `plugin_state.dump_file` holds once the path was opened
      and nothing written yet (`None` for NULL). */
  function LeftOpen(path: Option<string>): Option<DumpFile.Stream>
  {
    if path.Some? then Some(DumpFile.Open(path.value)) else None
  }

  function PathOf(f: Option<DumpFile.Stream>): Option<string>
  {
    if f.Some? then Some(f.value.path) else None
  }
}
