/** The start-up half of `qemu_plugin_install`: the loop over the plugin's
    `key=value` arguments, which opens the dump file, and the checks on the
    host that follow it. */
module Config {
  import opened Wrappers
  import DumpFile

  /** The one option the plugin knows. */
  const DUMP_KEY: string := "dump"

  /** What `qemu_info_t` tells the plugin about the host. */
  datatype HostInfo = HostInfo(systemEmulation: bool, maxVcpus: int, targetName: string)

  /** Why `qemu_plugin_install` returns -1; the plugin itself reports each
      only as a line on stderr. */
  datatype InstallError =
    | UnknownOption(option: string)
    | CannotOpen(path: Option<string>)
    | MissingDump
    | NotSystemEmulation
    | TooManyVcpus(maxVcpus: int)
    | UnsupportedTarget(targetName: string)

  /** `parts[0]` and `parts[1]` of `g_strsplit(opt, "=", 2)`; a NULL entry is `None`. */
  datatype Parts = Parts(key: Option<string>, value: Option<string>)

  /** The index of the first `c` in `s`, or `|s|` when there is none. */
  function FirstIndex(s: string, c: char): (i: nat)
    ensures i <= |s| && c !in s[..i]
    ensures i < |s| ==> s[i] == c
  {
    if s == [] || s[0] == c then 0
    else
      var j := FirstIndex(s[1..], c);
      assert s[..j + 1] == [s[0]] + s[1..][..j];
      j + 1
  }

  /** `g_strsplit(opt, "=", 2)`: split at the first '=' into at most two
      parts; the empty string gives the empty vector. */
  function Split(opt: string): (p: Parts)
    ensures p.key.None? <==> opt == []
    ensures p.key.None? ==> p.value.None?
    ensures p.key.Some? && p.value.None? ==> p.key.value == opt && '=' !in opt
    ensures p.value.Some? ==> p.key.Some? && opt == p.key.value + "=" + p.value.value && '=' !in p.key.value
  {
    if opt == [] then Parts(None, None)
    else
      var i := FirstIndex(opt, '=');
      assert opt[..|opt|] == opt;
      if i == |opt| then Parts(Some(opt), None)
      else
        assert opt == opt[..i] + "=" + opt[i + 1..];
        Parts(Some(opt[..i]), Some(opt[i + 1..]))
  }

  /** An argument `dump=<path>`, whatever `<path>` is (it may contain '='). */
  predicate IsDumpOption(opt: string)
  {
    |opt| >= 5 && opt[..5] == "dump="
  }

  /** The key is exactly `dump` and there is a value iff the argument starts
      with `dump=`; the value is then everything after that prefix. */
  lemma SplitDumpOption(opt: string)
    ensures (Split(opt).key == Some(DUMP_KEY) && Split(opt).value.Some?) <==> IsDumpOption(opt)
    ensures IsDumpOption(opt) ==> Split(opt).value == Some(opt[5..])
  {
    var p := Split(opt);
    if IsDumpOption(opt) {
      assert opt == "dump" + "=" + opt[5..];
      var i := FirstIndex(opt, '=');
      assert opt[..4] == "dump";
      assert opt[4] == '=';
    }
    if p.key == Some(DUMP_KEY) && p.value.Some? {
      assert opt == "dump" + "=" + p.value.value;
      assert opt[..5] == "dump=";
    }
  }

  /** What the argument loop leaves behind: the path of the dump file
      `plugin_state.dump_file` was last opened on (`None` for NULL), and
      the error that made it return early, if any. */
  datatype Scan = Scan(dump: Option<string>, failure: Option<InstallError>)

  /** The argument loop, from argument `argv[0]` on, with `dump` the path
      opened so far: every argument must be `dump=<path>` with a path that
      opens; each one opens (and truncates) its file and replaces the
      previous one, and the first bad argument stops the loop. */
  function ScanOptions(argv: seq<string>, writable: set<string>, dump: Option<string>): Scan
    decreases |argv|
  {
    if argv == [] then Scan(dump, None)
    else
      var parts := Split(argv[0]);
      if parts.key == Some(DUMP_KEY) then
        if DumpFile.FOpen(parts.value, writable).Some? then ScanOptions(argv[1..], writable, parts.value)
        else Scan(None, Some(CannotOpen(parts.value)))
      else Scan(dump, Some(UnknownOption(argv[0])))
  }

  /** The loop succeeds iff every argument is `dump=<path>` with a writable
      path, and then the last such path is the one left open. */
  lemma {:induction false} ScanOptionsAccepts(argv: seq<string>, writable: set<string>, dump: Option<string>)
    ensures ScanOptions(argv, writable, dump).failure.None? <==>
      forall i | 0 <= i < |argv| :: IsDumpOption(argv[i]) && argv[i][5..] in writable
    ensures ScanOptions(argv, writable, dump).failure.None? ==>
      ScanOptions(argv, writable, dump).dump == if argv == [] then dump else Some(argv[|argv| - 1][5..])
    decreases |argv|
  {
    if argv != [] {
      SplitDumpOption(argv[0]);
      ScanOptionsAccepts(argv[1..], writable, Split(argv[0]).value);
      var ok := forall i | 0 <= i < |argv| :: IsDumpOption(argv[i]) && argv[i][5..] in writable;
      if ok {
        assert forall i | 0 <= i < |argv| - 1 :: argv[1..][i] == argv[i + 1];
      } else {
        var k :| 0 <= k < |argv| && !(IsDumpOption(argv[k]) && argv[k][5..] in writable);
        if k > 0 { assert argv[1..][k - 1] == argv[k]; }
      }
    }
  }

  /** Everything `qemu_plugin_install` checks before it sets up the plugin
      state, in the order it checks them; the path of the dump file on success. */
  function Configure(argv: seq<string>, info: HostInfo, writable: set<string>): Result<string, InstallError>
  {
    var scan := ScanOptions(argv, writable, None);
    if scan.failure.Some? then Err(scan.failure.value)
    else if scan.dump.None? then Err(MissingDump)
    else if !info.systemEmulation then Err(NotSystemEmulation)
    else if info.maxVcpus > 1 then Err(TooManyVcpus(info.maxVcpus))
    else if info.targetName != "x86_64" then Err(UnsupportedTarget(info.targetName))
    else Ok(scan.dump.value)
  }

  /** Installation is accepted exactly when there is at least one argument,
      every argument is `dump=<path>` naming a file that can be opened for
      writing, the host does full-system emulation of at most one vCPU, and
      the target is x86_64; the trace then goes to the last path given. */
  lemma ConfigureAccepts(argv: seq<string>, info: HostInfo, writable: set<string>)
    ensures Configure(argv, info, writable).Ok? <==>
      && |argv| > 0
      && (forall i | 0 <= i < |argv| :: IsDumpOption(argv[i]) && argv[i][5..] in writable)
      && info.systemEmulation
      && info.maxVcpus <= 1
      && info.targetName == "x86_64"
    ensures Configure(argv, info, writable).Ok? ==> Configure(argv, info, writable).value == argv[|argv| - 1][5..]
  {
    ScanOptionsAccepts(argv, writable, None);
  }

  /** An argument other than `dump` or `dump=<path>` is an unknown option,
      and it is reported before any check on the host is made: it
      decides the error even when the host is unsupported too. */
  lemma OptionErrorsComeFirst(argv: seq<string>, info: HostInfo, writable: set<string>, k: nat)
    requires k < |argv| && !IsDumpOption(argv[k]) && argv[k] != DUMP_KEY
    requires forall i | 0 <= i < k :: IsDumpOption(argv[i]) && argv[i][5..] in writable
    ensures Configure(argv, info, writable).Err?
    ensures Configure(argv, info, writable).error == UnknownOption(argv[k])
  {
    ScanPrefix(argv, writable, None, k);
  }

  /** Arguments that all open leave the loop at argument `k` with nothing reported yet. */
  lemma {:induction false} ScanPrefix(argv: seq<string>, writable: set<string>, dump: Option<string>, k: nat)
    requires k < |argv| && !IsDumpOption(argv[k]) && argv[k] != DUMP_KEY
    requires forall i | 0 <= i < k :: IsDumpOption(argv[i]) && argv[i][5..] in writable
    ensures ScanOptions(argv, writable, dump).failure == Some(UnknownOption(argv[k]))
    decreases k
  {
    SplitDumpOption(argv[0]);
    if k > 0 {
      assert forall i | 0 <= i < k - 1 :: argv[1..][i] == argv[i + 1];
      ScanPrefix(argv[1..], writable, Split(argv[0]).value, k - 1);
    }
  }
}
