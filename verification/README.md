# cachetrace — a Dafny model of QEMU's cache-trace plugin

This project models the cache-trace TCG plugin (`contrib/plugins/cachetrace.c`).
The plugin watches one x86_64 vCPU under full-system emulation. The magic
instruction `movabsq rax, 0xcafebabedeadbeef` turns capturing on and off. While
capturing, the plugin writes the physical address of every memory access to RAM
into a dump file, as 64-bit words. The file starts with one header word. At
install the header is zero; at exit it is overwritten with the number of
addresses captured.

Modules:

- `Words` (`words.dfy`): the byte and `uint64_t` types, and the 64-bit wrap-around of `trans_captured++`.
- `Sentinel` (`sentinel.dfy`): `is_magic_inst`, with `memcmp(…) == 0` written out as `MemEq`.
- `DumpFile` (`dumpfile.dfy`): the dump file as a stdio stream. `fopen(…, "wb")`, `fwrite` of one word at the current position, `fseek` and `fclose`.
- `Config` (`config.dfy`): the argument loop of `qemu_plugin_install` and the host checks after it. It includes `g_strsplit(opt, "=", 2)`.
- `Capture` (`capture.dfy`): `plugin_state` as a value. It defines what each callback does to that value, the invariant an installed plugin keeps, and lemmas about any sequence of callbacks.
- `CacheTrace` (`engine.dfy`): class `Engine`, whose fields are those of `plugin_state`. Its methods are the callbacks. `OnMagic`, `OnMem` and `Exit` are proved to do what `Capture.Toggle`, `Capture.Record` and `Capture.Finish` say. `Install` is proved against `Config.Configure`, and on success it leaves the state `Capture.Started`. `PlanBlock` is proved against the magic encoding `Sentinel.MAGIC_INST`. `Fire` gives the `Capture` event a registered hook produces.

The host's services are inputs to the model:

- the instruction bytes of a translation block;
- the hardware address of each access, as `Unresolved`, `Io` or `Phys(addr)`;
- the `qemu_info_t` fields;
- the set of paths `fopen` can open for writing.

## Model

| member | source | states |
|---|---|---|
| `Sentinel.MemEqIsPrefixEquality` | contrib/plugins/cachetrace.c:30-33 | the byte-by-byte comparison is true exactly when the first n bytes of both buffers are equal |
| `Sentinel.IsMagicExactly` | contrib/plugins/cachetrace.c:25-33 | an instruction is the magic one iff its bytes are exactly the 10-byte encoding of `movabsq rax, 0xcafebabedeadbeef` |
| `Sentinel.PrefixRejected` | contrib/plugins/cachetrace.c:30-33 | no proper prefix of the encoding is the magic instruction |
| `Sentinel.ExtensionRejected` | contrib/plugins/cachetrace.c:30-33 | no non-empty extension of the encoding is the magic instruction |
| `Sentinel.MutationRejected` | contrib/plugins/cachetrace.c:30-33 | changing any one byte of the encoding gives a non-magic instruction |
| `Sentinel.SentinelExamples` | contrib/plugins/cachetrace.c:26-33 | the encoding matches; its 9-byte prefix and the copy whose last byte is 0xcb do not |
| `Words.Inc64` | contrib/plugins/cachetrace.c:80 | incrementing the `uint64_t` counter adds one modulo 2^64 |
| `DumpFile.FOpen` | contrib/plugins/cachetrace.c:135-139 | opening succeeds iff a path is given and it can be opened for writing; the new stream is empty and positioned at offset 0 |
| `DumpFile.Write` | contrib/plugins/cachetrace.c:79 | writing a word puts it at the current position and advances by one; other words are unchanged; at end-of-file it appends, and at offset 0 it replaces the header |
| `Config.FirstIndex` | contrib/plugins/cachetrace.c:133 | the split point is the first '=' in the argument, or its end if there is none |
| `Config.Split` | contrib/plugins/cachetrace.c:133 | the empty argument gives no parts; one without '=' gives itself as the key; otherwise key + "=" + value is the argument and the key holds no '=' |
| `Config.SplitDumpOption` | contrib/plugins/cachetrace.c:133-135 | the key is `dump` with a value iff the argument starts with `dump=`, and the value is the rest |
| `Config.ScanOptionsAccepts` | contrib/plugins/cachetrace.c:131-144 | the argument loop finishes iff every argument is `dump=<path>` with an openable path; the last such path is the one left open |
| `Config.ScanPrefix` | contrib/plugins/cachetrace.c:131-144 | if every earlier argument opened, the first argument that is not `dump`/`dump=…` stops the loop as an unknown option |
| `Config.ConfigureAccepts` | contrib/plugins/cachetrace.c:131-163 | install's checks pass iff: there is at least one argument; all arguments are openable `dump=` options; the host is full-system; `max_vcpus <= 1`; the target is `x86_64`. The trace then goes to the last path |
| `Config.OptionErrorsComeFirst` | contrib/plugins/cachetrace.c:131-163 | an unknown option is the reported error whatever the host reports |
| `Capture.StartedIsRunning` | contrib/plugins/cachetrace.c:165-176 | after setup the plugin is not capturing, the count is 0, and the file holds only a zero header, so the invariant holds |
| `Capture.Toggle` | contrib/plugins/cachetrace.c:50-52 | the magic callback flips capturing; the count, the file and the invariant are unchanged |
| `Capture.Record` | contrib/plugins/cachetrace.c:65-81 | no change when not capturing, and none for an unresolved or I/O address. Otherwise the address is appended after the existing body and the count grows by one (mod 2^64). The header is untouched and the invariant is kept |
| `Capture.Finish` | contrib/plugins/cachetrace.c:108-117 | at exit the file is the count followed by the unchanged body; the header equals the body length mod 2^64; the file is closed |
| `Capture.Step` | contrib/plugins/cachetrace.c:50-81 | either callback keeps the invariant |
| `Capture.Run` | contrib/plugins/cachetrace.c:50-81 | any sequence of callbacks keeps the invariant |
| `Capture.RunParity` | contrib/plugins/cachetrace.c:52 | after any run, capturing equals the start value XOR "the magic instruction ran an odd number of times"; from install that is `n mod 2 == 1` |
| `Capture.RunRecords` | contrib/plugins/cachetrace.c:70-80 | the body grows by exactly the RAM addresses accessed inside capture windows, in execution order; the header never changes |
| `Capture.TraceFileAtExit` | contrib/plugins/cachetrace.c:171-176 | after install, any run and exit, the file is `[count] ++ addresses`: the captured addresses in order, with count their number mod 2^64 |
| `Capture.HeaderZeroUntilExit` | contrib/plugins/cachetrace.c:171-176 | before exit, the stream's header word is still 0 while its body holds every captured address |
| `Capture.CaptureWindowScenario` | contrib/plugins/cachetrace.c:50-117 | magic, accesses at a, b, c, magic, exit gives the file `[3, a, b, c]` |
| `Capture.NoSentinelScenario` | contrib/plugins/cachetrace.c:65-81 | accesses before any magic instruction leave the file `[0]` |
| `Capture.DoubleToggleScenario` | contrib/plugins/cachetrace.c:50-62 | two magic executions in a row leave capturing off, the count at 0 and the file `[0]` |
| `CacheTrace.Fire` | contrib/plugins/cachetrace.c:95-103 | a fired hook gives the toggle event exactly when it is the exec hook of a magic instruction; a memory hook gives the access event carrying the host's hardware-address answer |
| `CacheTrace.Engine.constructor` | contrib/plugins/cachetrace.c:14-23 | the static state starts zeroed: no file, not capturing, no access kind, count 0 |
| `CacheTrace.Engine.Install` | contrib/plugins/cachetrace.c:127-184 | returns 0 iff the checks pass, and then the state is the set-up state with the zero header written; returns -1 otherwise, with the capture fields untouched and the dump file as the argument loop left it |
| `CacheTrace.Engine.OnMagic` | contrib/plugins/cachetrace.c:50-62 | the new state is `Toggle` of the old one |
| `CacheTrace.Engine.OnMem` | contrib/plugins/cachetrace.c:65-81 | the new state is `Record` of the old one for the host's answer about the address |
| `CacheTrace.Engine.PlanBlock` | contrib/plugins/cachetrace.c:84-105 | each instruction of the block gets exactly one hook, in order. A magic instruction gets the toggle hook and never a memory hook. Every other instruction gets a memory hook with the state's access kind, which is read+write once installed |
| `CacheTrace.Engine.Exit` | contrib/plugins/cachetrace.c:108-117 | the new state is `Finish` of the old one |

## Left out

- The file's byte order and size: the file is a sequence of 64-bit words, and `fwrite` is assumed never to fail.
- `fopen` is modelled by whether the path is in a set of writable paths. A `dump` argument with no '=' makes the plugin call `fopen(NULL, "wb")`; the model treats that as a failed open.
- Extra files: every `dump=` argument opens and truncates its file, and only the last one stays in use. The earlier, leaked handles and the empty files they leave are not modelled.
- Diagnostics: the messages written with `qemu_plugin_outs` and `fprintf(stderr, …)` are advisory and not modelled. The error datatype `Config.InstallError` only names which check failed.
- The plugin runtime is not modelled: callback registration and dispatch, `qemu_plugin_get_hwaddr`, and the `qemu_plugin_tb_*`/`qemu_plugin_insn_*` accessors. Their results are inputs, and registering hooks is modelled as returning them.
- `cb_vcpu_init` is empty and has nothing to model. `qemu_plugin_version` is a constant export.
- `hw/arm/stm32l4x5_soc.c` and `include/hw/arm/stm32l4x5_soc.h` are not part of this model. They build the board's devices through QEMU object APIs that are not visible here.
- `Capture.HeaderZeroUntilExit`: the file is the stream's logical contents. Stdio buffering is not modelled, so after an abnormal end the file on disk can be a shorter prefix, possibly without even the zero header.

Behaviour of the plugin worth knowing, which the model keeps:

- The plugin does not reject a repeated `dump=`; the last one wins.
- The plugin rejects `max_vcpus` only when it is above 1, so 0 is accepted.
- The plugin registers the memory callback on every instruction that is not the magic one, not only on those that access memory. The runtime fires it only for instructions that do.
- The plugin treats the empty argument as an unknown option, since `g_strsplit` gives it no key.
