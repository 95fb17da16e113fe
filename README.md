# vyper-rs in Dafny

A verified model of the core of **vyper-rs**, a Rust wrapper around the Vyper
smart-contract compiler. It covers three parts.

- **The ERC-5202 blueprint decoder** (`parse_blueprint`), module `Utils` in `utils.dfy`. A blueprint is:
  - the magic bytes `FE 71`;
  - one byte holding a 6-bit version and a 2-bit count of length bytes;
  - 0 to 2 big-endian length bytes;
  - optional preamble data;
  - non-empty initcode.

  The decoder is modelled bit for bit, as written, including the way it reads the length field. It hex-encodes the length bytes and re-reads them with `u32::from_str_radix` in radix `8 * count`. It also includes the slices that panic on short input. A repaired decoder sits beside it.
- **Contract descriptors and batch compilation** (`Vyper`, `Vypers`, `Evm`), module `Vyper` in `vyper.dfy`. It covers:
  - compiler and pip path resolution from an optional venv;
  - ABI paths derived with `Path::with_extension(".json")`;
  - the `with_all` length check;
  - single compiles and how they update the cached bytecode, including the two-character trim of compiler output;
  - the batch compiles and ABI queries, which collect results in index order and report the lowest failing index;
  - the `From<Vec<Vyper>>` conversion;
  - the `Evm` flag strings.
- **The toolchain typestate machine** (`Venv`), module `Venv` in `venv.dfy`:
  - the five states NotInitialized, Initialized, Skip, Ready and Complete;
  - the transitions between them, which run `mkdir`, `python3 -m venv`, `pip3 install` or `vyper -h`, or test a file for existence;
  - the descriptor factories offered by Ready and Complete.

Processes and the filesystem are oracles:
- `Process.Shell` maps a command line (`Invocation`) to `SpawnFailed` or to an exit status with stdout and stderr;
- `Path::exists` is a predicate `present: string -> bool`;
- `cfg!(target_os = "windows")` is a `windows: bool` parameter.

Each `Venv` transition returns the commands it ran. This makes "nothing is run" and "the second command is skipped" statable.

Panics are explicit outcomes rather than preconditions:
- the slice panics of `parse_blueprint` are `Failure(SlicePanic)`;
- the panic of `Vypers::with_all` is `Failure("Mismatched Vector Lengths")`.

The batch operations spawn tokio tasks and then await them in order. Each one is modelled as two loops:
- one loop computes the outcome of every index;
- the other joins them in order, stopping at the first error.

## Model

| member | source | states |
|---|---|---|
| Utils.ParseBlueprint | src/utils.rs:24-67 | a success implies: input of at least 3 + n bytes, the `FE 71` magic, the version taken from the third byte, a present preamble is non-empty, initcode non-empty, and header ++ preamble ++ initcode is exactly the input |
| Utils.VersionOf | src/utils.rs:32 | the version field of the third byte is below 64 |
| Utils.TopSixBits | src/utils.rs:32 | `(b & 0xFC) >> 2` is the byte divided by 4 |
| Utils.EmptyBytecodeRejected | src/utils.rs:25-27 | the empty input fails with EmptyBytecode ("Empty Bytecode") |
| Utils.NotMagicRejected | src/utils.rs:28-30 | any input of 2+ bytes not opening with `FE 71` fails with NotABlueprint |
| Utils.VersionIsTopSixBits | src/utils.rs:32 | the decoded version is the third byte divided by 4, so below 64 |
| Utils.ReservedBitsRejected | src/utils.rs:33-37 | low bits `0x3` fail with ReservedBitsSet whatever bytes follow |
| Utils.LengthBytes | src/utils.rs:33 | the number of length bytes is the third byte modulo 4 |
| Utils.DataLength | src/utils.rs:39-49 | an empty length field gives 0; a non-empty one never fails with Empty, and any length it gives fits in u32 |
| Utils.BlueprintError.Message | src/utils.rs:24-67 | every error carries a non-empty message: the `bail!` texts "Empty Bytecode", "Not a blueprint!", "Reserved bits are set" and "Empty Initcode!", or the integer error's text |
| Utils.HexEncode | src/utils.rs:43 | `hex::encode` writes two characters per byte |
| Utils.HexDigit | src/utils.rs:43 | every digit `hex::encode` writes is `0-9` or lower-case `a-f` |
| Utils.HexEncodeOneByte | src/utils.rs:43 | the encoding of one byte is its two nibbles' digits, high first |
| Utils.HexEncodeTwoBytes | src/utils.rs:43 | the encoding of two bytes is their four nibbles' digits, high first |
| Utils.ByteFromNibbles | src/utils.rs:43 | a byte is its high nibble times 16 plus its low nibble |
| Utils.FourDigitText | src/utils.rs:44 | four hex digits read in radix 16 give their big-endian value |
| Utils.ToDigit | src/utils.rs:44 | `char::to_digit` yields only digits below the radix |
| Utils.HexDigitValue | src/utils.rs:43-44 | a written hex digit reads back as its nibble exactly when the nibble is below the radix |
| Utils.AccumulateDigits | src/utils.rs:44 | the digit loop of `from_str_radix` returns a value within u32 and never the Empty error |
| Utils.FromStrRadix | src/utils.rs:44 | a parsed value fits in u32, and the Empty error occurs exactly for the empty text |
| Utils.OneLengthByte | src/utils.rs:39-49 | with one length byte (radix 8) the length fails iff a nibble is 8 or more, and equals the byte iff the byte is below 8 |
| Utils.TwoLengthBytes | src/utils.rs:39-49 | with two length bytes (radix 16) the length is `b3 * 256 + b4` |
| Utils.PreambleAndInitcodeLayout | src/utils.rs:39-65 | on success the preamble is None iff the declared length is 0, else exactly the bytes at `3+n .. 3+n+len`; initcode is the suffix from `3+n+len` |
| Utils.EmptyInitcodeRejected | src/utils.rs:59-64 | data that reach exactly the end of the input fail with EmptyInitcode |
| Utils.ParseBpCase1 | src/lib.rs:108-118 | `FE 71 00 00` decodes to (0, None, [00]) |
| Utils.ParseBpCase2 | src/lib.rs:109-129 | `FE 71 01 07 FF×7 00` decodes to (0, Some(FF×7), [00]) |
| Utils.ParseBpCase3 | src/lib.rs:111-164 | `FE 71 02 01 00 FF×256 00` decodes to (0, Some(FF×256), [00]) |
| Utils.ShortInputsPanic | src/utils.rs:28-32 | one-byte inputs and the bare magic panic on a slice or index |
| Utils.ShortPreamblePanicsAll | src/utils.rs:51-57 | for every version byte, length field and data: a declared non-zero length longer than the data that follow panics on the preamble slice |
| Utils.ShortLengthFieldPanics | src/utils.rs:39 | an input that ends before the length bytes the third byte announces panics on the length-field slice |
| Utils.LengthFieldHex | src/utils.rs:43-44 | a one- or two-byte length field read in radix 16 gives its big-endian value |
| Utils.RoundTripAsWritten | src/utils.rs:24-67 | every well-formed blueprint (version < 64, a length field whose big-endian value is the data length, non-empty initcode) decodes back to its version, data and initcode, provided a one-byte field is below 8 |
| Utils.OneByteLengthEightRejected | src/utils.rs:43-47 | a blueprint with one length byte `08` fails with InvalidDigit |
| Utils.OneByteLengthSixteenMisread | src/utils.rs:43-47 | a blueprint with one length byte `10` (16 data bytes) decodes with only 8 data bytes, the other 8 moved into the initcode |
| Utils.ParseBlueprintIntended | src/utils.rs:24-67 | the repaired decoder never panics and keeps every layout guarantee of a success |
| Utils.RoundTripIntended | src/utils.rs:24-67 | the repaired decoder gives every well-formed blueprint back its parts |
| Utils.ShortInputsRejectedIntended | src/utils.rs:28-57 | the repaired decoder answers every short input with an error instead of a panic: NotABlueprint for one byte, Truncated for the bare magic, for a length field cut short and for fewer data bytes than declared |
| Vyper.LastIndexOf | src/vyper.rs:44 | the last occurrence of a character: it is there, and none follows |
| Vyper.LastIndexOfUnique | src/vyper.rs:44 | those two facts determine the index |
| Vyper.FileStem | src/vyper.rs:44 | the stem is a prefix of the name and empty only for the empty name; a name other than `..` whose last `.` is after position 0 is cut exactly at that `.`; any other name is its own stem |
| Vyper.WithExtension | src/vyper.rs:44 | a path without a file name is unchanged; otherwise, for an extension without `/`, the result is in the same directory and its file name is the stem + `.` + the extension (the bare stem for an empty extension) |
| Vyper.AbiPathOf | src/vyper.rs:64 | a path without a file name is unchanged; otherwise the derived ABI path keeps the directory and names the file stem + "." + ".json" |
| Vyper.AbiPaths | src/vyper.rs:439 | one derived ABI path per source path, index by index |
| Vyper.AbiPathOfMultisig | src/vyper.rs:44 | `./multisig.vy` gives `./multisig..json` |
| Vyper.ToolPath | src/vyper.rs:83-105 | no venv gives the bare tool name; a venv `v` gives `v/bin/<tool>` (`v/scripts/<tool>` on Windows), never the bare name |
| Vyper.ToolPathRecoversVenv | src/vyper.rs:83-105 | the venv can be read back from the resolved path |
| Vyper.ToolPathInjective | src/vyper.rs:83-105 | different venvs resolve to different binaries |
| Vyper.VyperAndPipDiffer | src/vyper.rs:83-105 | compiler and pip of one venv are different paths |
| Vyper.Vyper.GetVyper | src/vyper.rs:83-93 | `vyper` without a venv; `v/bin/vyper` (`v/scripts/vyper` on Windows) inside venv `v` |
| Vyper.Vyper.GetPip | src/vyper.rs:95-105 | `pip3` without a venv; `v/bin/pip3` (`v/scripts/pip3` on Windows) inside venv `v` |
| Vyper.Vyper.New | src/vyper.rs:43-52 | no bytecode, no venv, ABI path derived from the source path |
| Vyper.Vyper.WithAbi | src/vyper.rs:54-61 | no bytecode, no venv, the given ABI path unchanged |
| Vyper.Vyper.WithVenv | src/vyper.rs:63-72 | no bytecode, the venv, ABI path derived |
| Vyper.Vyper.WithVenvAndAbi | src/vyper.rs:74-81 | no bytecode, the venv, the given ABI path unchanged |
| Vyper.Trimmed | src/vyper.rs:129-132 | the input less its last two characters (empty when shorter), a prefix of it |
| Vyper.PopTwice | src/vyper.rs:129-132 | the result is the input without its last two characters (all of them if shorter), a prefix of it |
| Vyper.CompileResult | src/vyper.rs:123-179 | spawn failure gives IoError; non-zero exit gives CompilerError(stderr); success gives stdout, with its last two characters removed when trimmed, whole when not |
| Vyper.RunCompiler | src/vyper.rs:123-179 | runs one command line and post-processes it as CompileResult says |
| Vyper.Vyper.Compile | src/vyper.rs:123-139 | runs `<vyper> <path>`; success stores the trimmed stdout, failure returns the error and leaves bytecode unchanged |
| Vyper.Vyper.CompileBlueprint | src/vyper.rs:141-156 | runs `<vyper> -f blueprint_bytecode <path>`; success stores stdout untrimmed; failure leaves bytecode unchanged |
| Vyper.Vyper.CompileVer | src/vyper.rs:159-179 | runs `<vyper> <path> --evm-version <flag>`; trimmed on success, bytecode unchanged on failure |
| Vyper.Vyper.Store | src/vyper.rs:133-138 | writes the bytecode exactly on success |
| Vyper.Evm.ToString | src/vyper.rs:678-693 | every flag is a non-empty lower-case word |
| Vyper.EvmToStringInjective | src/vyper.rs:665-693 | no two targets share a flag |
| Vyper.JoinInOrder | src/vyper.rs:528-531 | Ok iff every index is Ok; then the values are index-aligned with the inputs; otherwise the error is that of the lowest failing index |
| Vyper.Join | src/vyper.rs:528-531 | the await loop computes JoinInOrder |
| Vyper.CompileResults | src/vyper.rs:510-526 | one outcome per path |
| Vyper.SpawnCompiles | src/vyper.rs:510-526 | the spawn loop gives slot `i` the outcome of compiling `path[i]` |
| Vyper.AbiResult | src/vyper.rs:620-634 | Ok iff zero exit and stdout parses; unparsable output gives SerializationError; non-zero exit gives CompilerError(stderr); a spawn failure gives IoError |
| Vyper.AbiResults | src/vyper.rs:617-638 | one ABI outcome per path |
| Vyper.SpawnAbiQueries | src/vyper.rs:617-638 | slot `i` holds the outcome of `<vyper> -f abi <path[i]>` |
| Vyper.Vypers.GetAbiMany | src/vyper.rs:613-642 | the ABIs in index order, or the lowest failing index's error |
| Vyper.Vypers.Literal | src/vyper.rs:430-435 | the struct literal stores its arguments with no bytecode |
| Vyper.Vypers.WithAll | src/vyper.rs:421-436 | fails with "Mismatched Vector Lengths" iff the lengths differ; otherwise both vectors are stored unchanged with no bytecode |
| Vyper.Vypers.New | src/vyper.rs:438-447 | ABI `i` is derived from path `i`, same length, no venv, no bytecode |
| Vyper.Vypers.WithVenv | src/vyper.rs:465-474 | as New, with the given venv |
| Vyper.Vypers.InDir | src/vyper.rs:449-455 | None iff the directory listing fails, else `Vypers::new` of the listing |
| Vyper.Vypers.InWorkspace | src/vyper.rs:457-463 | always Some, `Vypers::new` of what the scan found |
| Vyper.Vypers.SetVenv | src/vyper.rs:476-479 | only the venv changes, so aligned sequences stay aligned |
| Vyper.Vypers.GetVyper | src/vyper.rs:480-490 | `vyper` without a venv; `v/bin/vyper` (`v/scripts/vyper` on Windows) inside venv `v` |
| Vyper.Vypers.GetPip | src/vyper.rs:492-502 | `pip3` without a venv; `v/bin/pip3` (`v/scripts/pip3` on Windows) inside venv `v` |
| Vyper.Vypers.CompileMany | src/vyper.rs:505-536 | success stores one trimmed output per path in index order; failure returns the lowest failing index's error and leaves bytecode unchanged; aligned sequences stay aligned |
| Vyper.Vypers.CompileManyVer | src/vyper.rs:538-576 | as CompileMany, with `--evm-version <flag>` after each path; aligned sequences stay aligned |
| Vyper.Vypers.Store | src/vyper.rs:532-535 | writes the bytecode vector exactly on success |
| Vyper.BatchSlotIsSingleCompile | src/vyper.rs:505-576 | after a successful batch, slot `i` is what compiling `path[i]` alone yields |
| Vyper.BatchFailsAtFirstFailure | src/vyper.rs:505-576 | if unit `k` fails and all before it succeed, the batch fails with unit `k`'s error |
| Vyper.Vypers.FromVypers | src/vyper.rs:645-662 | paths in order, ABI paths derived afresh (inputs' ABIs dropped), venv of the last element only, none for empty input |
| Venv.CommandOutcome | src/venv.rs:123-126 | passes iff the command spawned and exited zero; a non-zero exit fails with its stderr; a spawn failure fails with SpawnError |
| Venv.RunChain | src/venv.rs:123-135 | the commands run are a prefix of those given, all but the last passed; pass iff all ran and passed; a failure is the last one's |
| Venv.TwoCommandChain | src/venv.rs:123-135 | of two commands the second runs only if the first passed; the outcome is that of the last one run |
| Venv.Finish | src/venv.rs:133-140 | a passing chain gives the next state, a failing one its error |
| Venv.Default | src/venv.rs:96-103 | NotInitialized at `./venv` |
| Venv.New | src/venv.rs:107-112 | NotInitialized at the given path |
| Venv.Init | src/venv.rs:116-143 | an existing path: Initialized, nothing run; otherwise mkdir, then python3 -m venv exactly when mkdir passed; success iff both pass; else the failing step's error; the path is kept |
| Venv.SkipVenv | src/venv.rs:145-150 | Skip at `./venv`, whatever path the caller had |
| Venv.VenvPip | src/venv.rs:159-196 | the hard-coded pip is the `pip3` that tool resolution gives for the venv `./venv` |
| Venv.VenvVyper | src/venv.rs:212-224 | the hard-coded compiler is the `vyper` that tool resolution gives for the venv `./venv` |
| Venv.PackageSpec | src/venv.rs:161-196 | the argument starts with `vyper`; it is exactly `vyper` iff no version is asked for; a requested version is `vyper==` followed by that version |
| Venv.IvyperVenv | src/venv.rs:155-209 | runs `./venv/{bin,scripts}/pip3 install vyper[==ver]`; Ready on the same path iff it passes, else its error |
| Venv.IvyperVenvIgnoresPath | src/venv.rs:155-209 | what `ivyper_venv` runs does not depend on the venv path |
| Venv.PackageSpecRoundTrip | src/venv.rs:161-196 | the requested version reads back from the pip package argument |
| Venv.TryReadyVenv | src/venv.rs:212-234 | Ready iff `./venv/bin/vyper` (Windows: `scripts`) exists, else "Vyper was not installed in venv"; nothing run |
| Venv.IvyperPip | src/venv.rs:240-264 | runs `pip3 install vyper[==ver]`; Complete iff it passes, else its error |
| Venv.GlobalExists | src/venv.rs:267-269 | true iff `vyper -h` could be spawned |
| Venv.TryReadyGlobal | src/venv.rs:272-282 | runs the probe; Complete iff it spawned, else "Vyper not installed" |
| Venv.FailingProbeCountsAsInstalled | src/venv.rs:267-282 | a probe that exits non-zero still yields Complete |
| Venv.Edge | src/venv.rs:105-283 | no transition stays in its state, and none leaves Ready or Complete |
| Venv.Available | src/venv.rs:105-331 | Ready and Complete offer no transition method |
| Venv.Apply | src/venv.rs:105-283 | a call is answered iff the state's `impl` block offers the method; one call runs at most two commands |
| Venv.ApplyFollowsEdges | src/venv.rs:105-283 | every successful transition follows an allowed edge and keeps the venv path (skip resets it to `./venv`) |
| Venv.TerminalStates | src/venv.rs:285-331 | Ready and Complete offer no transition |
| Venv.RunReaches | src/venv.rs:105-331 | any sequence of calls only moves forward; Ready is never reached from Skip or Complete |
| Venv.InstallIntoNewVenv | src/venv.rs:107-209 | `new(p).init()` on an existing `p` and then a passing install end Ready at `p` |
| Venv.DescriptorVenv | src/venv.rs:285-331 | the venv of a handed-out descriptor is the venv path from Ready and none from Complete |
| Venv.MakeVyper | src/venv.rs:286-310 | `Vyper::with_venv` from Ready, `Vyper::new` from Complete |
| Venv.MakeVypers | src/venv.rs:290-314 | `Vypers::with_venv` from Ready, `Vypers::new` from Complete |
| Venv.MakeVyperWithAbi | src/venv.rs:294-318 | the given ABI, with the venv from Ready and none from Complete |
| Venv.MakeVypersFromDir | src/venv.rs:298-324 | `in_dir`, and from Ready `set_venv` with the venv path |
| Venv.MakeVypersFromWorkspace | src/venv.rs:302-330 | `in_workspace`, and from Ready `set_venv` with the venv path |
| Venv.DescriptorCompiler | src/venv.rs:285-331 | descriptors from Ready use the venv's compiler, those from Complete the global `vyper` |

## Left out

- Process spawning, `Path::exists` and the filesystem are oracles. This covers `mkdir`, `python3`, `pip3` and `vyper` runs, and directory listing.
- The remaining single-contract and batch operations are outside the modelled core:
  - `gen_abi`, `storage_layout`, `ast`, `interface`, `opcodes`, `opcodes_runtime`, `userdoc`, `devdoc` and `gen_abi_many` run the compiler with another output format and write what it prints to a file;
  - `get_abi` returns the parsed JSON the compiler prints and writes nothing;
  - `exists` returns whether `vyper -h` could be spawned;
  - `get_version` returns the stdout of `vyper --version`.
- `VyperStack` is left out: it is thread plumbing that discards the per-thread results.
- `scan_workspace` and `get_contracts_in_dir` (src/utils.rs:69-100) are not modelled. Their outcome is the input of `InDir` and `InWorkspace`.
- Concurrency is modelled as sequential execution.
  - Tokio tasks run in index order.
  - A task that panics or is cancelled (`JoinError`) is not modelled. In `compile_many` and `compile_many_ver` (src/vyper.rs:530, 571) and in `Vypers::gen_abi_many` (:608) `unwrap` turns it into a panic.
- Vyper.Vypers.GetAbiMany: `child_thread.await??` (src/vyper.rs:639) returns a `JoinError` as an ordinary `Err` value. The model does not have this error path: its error is always the failing unit's `VyperError`.
- `get_abi_many`'s JSON values are an opaque type `J`. The JSON parser is a parameter `parse: string -> Option<J>`.
- `String::from_utf8_lossy` is not modelled: output is already a string.
- Vyper.WithExtension: paths are strings split at the last `/`. It does not model Rust's component normalisation (trailing slashes, `.` components) or non-UTF-8 paths.
- Vyper.CompileResult: the single compiles' boxed `CompilerError` and the batches' `anyhow` message are one tag, `CompilerError(stderr)`.
- Vyper.Vypers.FromVypers: Rust moves the consumed descriptors. The model leaves them allocated.
- The `SpawnError` / `IoError` tags stand for every `io::Error` from `output()?`, without distinguishing kinds.
- `skip` (src/venv.rs:145) and the descriptor factories of Ready and Complete (src/venv.rs:285-331) are private `fn`s. Outside src/venv.rs only the public transitions can be called. The model exposes `SkipVenv`, the `DoSkip` action and the `Make*` methods as ordinary members and does not model that visibility.
- `println!` messages after installs, the macros in src/macros.rs and the examples are not modelled.
- src/vyper_errors.rs is reduced to the error tags of `VyperError`.
- `Display for Vyper` is not part of this model.
- Utils.FromStrRadix: it is modelled for the lower-case hex text `hex::encode` produces. Its sign handling (a leading `+` followed by digits is accepted, a lone `+` or `-` gives InvalidDigit, a leading `-` is invalid for an unsigned type) and the other `ParseIntError` kinds are modelled, but that text never starts with a sign, so the length decoder cannot reach them.

## Findings

| source | as written | input that shows it | evidently intended | confidence | as-written member | corrected member |
|---|---|---|---|---|---|---|
| src/utils.rs:43-44 | the hex text of the length bytes is parsed with radix `len * 8`, which is 8 for one length byte | `FE 71 01 10` followed by 16 data bytes and initcode: the length reads as 8, so 8 data bytes end up in the initcode; a length byte `08` fails with "invalid digit found in string" | the ERC-5202 length is big-endian, i.e. radix 16 for every hex text | high, not executed | Utils.OneByteLengthSixteenMisread | Utils.RoundTripIntended |
| src/utils.rs:28-57 | `&bytecode[0..2]` and `bytecode[2]` (:28-32), the length-field slice (:39) and the preamble slice (:55) are taken before the input length is checked | the one-byte input `FE`, or the bare magic `FE 71`, panics instead of returning an error; so do `FE 71 02 01` (length field cut short, `Utils.ShortLengthFieldPanics`) and `FE 71 01 05 AA` (5 data bytes declared, 1 present, `Utils.ShortPreamblePanicsAll`) | short input is rejected with an error like the others | high, not executed | Utils.ShortInputsPanic | Utils.ShortInputsRejectedIntended |
