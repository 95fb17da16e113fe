/**
 * Contract descriptors and batch compilation of `src/vyper.rs`.
 *
 * The compiler is the `Shell` oracle: each operation builds the exact command
 * line the source builds and reacts to the oracle's answer the way the source
 * reacts to `Command::output()`. Concurrent fan-out is a loop over indices that
 * records one result per index, followed by the in-order join the source
 * performs with its `await` loop.
 */
module Vyper {
  import opened Wrappers
  import opened Process

  // ---------------------------------------------------------------------------
  // Paths

  /** The index of the last `c` in `s`, or -1. */
  function LastIndexOf(s: string, c: char): (k: int)
    ensures -1 <= k < |s|
    ensures k >= 0 ==> s[k] == c
    ensures forall j :: k < j < |s| ==> s[j] != c
  {
    if |s| == 0 then -1
    else if s[|s| - 1] == c then |s| - 1
    else LastIndexOf(s[..|s| - 1], c)
  }

  /** The ensures of `LastIndexOf` pin it down. */
  lemma LastIndexOfUnique(s: string, c: char, k: int)
    requires -1 <= k < |s| && (k >= 0 ==> s[k] == c)
    requires forall j :: k < j < |s| ==> s[j] != c
    ensures LastIndexOf(s, c) == k
  {
  }

  /** Everything up to and including the last `/` (empty when there is none). */
  function DirPrefix(p: string): string {
    p[..LastIndexOf(p, '/') + 1]
  }

  /** The last path component: everything after the last `/`. */
  function FileName(p: string): string {
    p[LastIndexOf(p, '/') + 1..]
  }

  /** `Path::file_stem`: the name without its last `.ext`; a leading dot is part of the stem. */
  function FileStem(name: string): (r: string)
    ensures |r| <= |name| && r == name[..|r|]
    ensures |r| == 0 ==> name == ""
    ensures |r| < |name| ==> name[|r|] == '.' && |r| == LastIndexOf(name, '.')
    ensures name != ".." && LastIndexOf(name, '.') > 0 ==> |r| == LastIndexOf(name, '.')
    ensures (name == ".." || LastIndexOf(name, '.') <= 0) ==> r == name
  {
    var k := LastIndexOf(name, '.');
    if name == ".." || k <= 0 then name else name[..k]
  }

  /** `s` holds no path separator. */
  predicate NoSlash(s: string) {
    forall j :: 0 <= j < |s| ==> s[j] != '/'
  }

  /**
   * `Path::with_extension`: a path without a file name is returned unchanged;
   * otherwise the result lies in the same directory and its file name is the
   * stem followed by `.` and the new extension (the bare stem when the
   * extension is empty).
   */
  function WithExtension(p: string, ext: string): (r: string)
    ensures FileName(p) in {"", ".", ".."} ==> r == p
    ensures FileName(p) !in {"", ".", ".."} && NoSlash(ext) ==>
      && DirPrefix(r) == DirPrefix(p)
      && FileName(r) == FileStem(FileName(p)) + (if ext == "" then "" else "." + ext)
  {
    var name := FileName(p);
    if name in {"", ".", ".."} then p
    else
      var t := FileStem(name) + (if ext == "" then "" else "." + ext);
      if NoSlash(ext) then
        FileNameHasNoSlash(p);
        StemHasNoSlash(name);
        NameHasNoSlash(FileStem(name), if ext == "" then "" else "." + ext);
        DirPrefixEndsAtSlash(p);
        SplitAtLastSlash(DirPrefix(p), t);
        DirPrefix(p) + t
      else DirPrefix(p) + t
  }

  /**
   * The ABI path the constructors derive: `path.with_extension(".json")`. It is
   * a sibling of the source: same directory, and the file name is the stem
   * followed by `.` and `.json`, so `multisig.vy` gives `multisig..json`.
   */
  function AbiPathOf(path: string): (r: string)
    ensures FileName(path) in {"", ".", ".."} ==> r == path
    ensures FileName(path) !in {"", ".", ".."} ==>
      DirPrefix(r) == DirPrefix(path) && FileName(r) == FileStem(FileName(path)) + "..json"
  {
    assert NoSlash(".json") && "." + ".json" == "..json";
    WithExtension(path, ".json")
  }

  /** `paths.iter().map(|e| e.with_extension(".json")).collect()`. */
  function AbiPaths(paths: seq<string>): (r: seq<string>)
    ensures |r| == |paths|
    ensures forall i :: 0 <= i < |paths| ==> r[i] == AbiPathOf(paths[i])
  {
    seq(|paths|, i requires 0 <= i < |paths| => AbiPathOf(paths[i]))
  }

  lemma NameHasNoSlash(stem: string, suffix: string)
    requires NoSlash(stem) && NoSlash(suffix)
    ensures NoSlash(stem + suffix)
  {
    var t := stem + suffix;
    assert forall j :: |stem| <= j < |t| ==> t[j] == suffix[j - |stem|];
  }

  /** Appending a slash-free name to a directory prefix splits back into the two. */
  lemma SplitAtLastSlash(d: string, t: string)
    requires LastIndexOf(d, '/') == |d| - 1
    requires NoSlash(t)
    ensures DirPrefix(d + t) == d && FileName(d + t) == t
  {
    AppendWithoutSlash(d, t);
    assert (d + t)[..|d|] == d && (d + t)[|d|..] == t;
  }

  lemma FileNameHasNoSlash(p: string)
    ensures NoSlash(FileName(p))
  {
    var k := LastIndexOf(p, '/');
    assert forall j :: 0 <= j < |FileName(p)| ==> FileName(p)[j] == p[k + 1 + j];
  }

  lemma StemHasNoSlash(name: string)
    requires NoSlash(name)
    ensures NoSlash(FileStem(name))
  {
  }

  /** A directory prefix is empty or ends at its own last slash. */
  lemma DirPrefixEndsAtSlash(p: string)
    ensures LastIndexOf(DirPrefix(p), '/') == |DirPrefix(p)| - 1
  {
    var k := LastIndexOf(p, '/');
    LastIndexOfUnique(DirPrefix(p), '/', k);
  }

  lemma AppendWithoutSlash(d: string, t: string)
    requires NoSlash(t)
    ensures LastIndexOf(d + t, '/') == LastIndexOf(d, '/')
  {
    var k := LastIndexOf(d, '/');
    var r := d + t;
    assert forall j :: |d| <= j < |r| ==> r[j] == t[j - |d|];
    LastIndexOfUnique(r, '/', k);
  }

  /** The path the crate's tests use. */
  lemma AbiPathOfMultisig()
    ensures AbiPathOf("./multisig.vy") == "./multisig..json"
  {
    MultisigParts();
    var r := AbiPathOf("./multisig.vy");
    DirPrefixThenFileName(r);
  }

  lemma MultisigParts()
    ensures DirPrefix("./multisig.vy") == "./" && FileName("./multisig.vy") == "multisig.vy"
    ensures FileStem("multisig.vy") == "multisig"
  {
    LastIndexOfUnique("./multisig.vy", '/', 1);
    LastIndexOfUnique("multisig.vy", '.', 8);
  }

  /** A path is its directory prefix followed by its file name. */
  lemma DirPrefixThenFileName(p: string)
    ensures p == DirPrefix(p) + FileName(p)
  {
  }

  // ---------------------------------------------------------------------------
  // Binary resolution, shared by Vyper and Vypers

  /** The directory of executables inside a venv: `scripts` on Windows, `bin` elsewhere. */
  function BinDir(windows: bool): string {
    if windows then "/scripts/" else "/bin/"
  }

  /** `get_vyper` / `get_pip`: the bare tool name without a venv, else inside the venv's bin directory. */
  function ToolPath(venv: Option<string>, windows: bool, tool: string): (r: string)
    ensures venv.None? ==> r == tool
    ensures venv.Some? ==> r == venv.value + BinDir(windows) + tool && r != tool
  {
    match venv
    case None => tool
    case Some(v) => v + BinDir(windows) + tool
  }

  /** Reads the venv back from a resolved tool path. */
  function VenvOf(path: string, windows: bool, tool: string): Option<string> {
    var suffix := BinDir(windows) + tool;
    if path == tool then None
    else if |path| >= |suffix| && path[|path| - |suffix|..] == suffix then Some(path[..|path| - |suffix|])
    else None
  }

  /** Resolution loses nothing: the venv can be read back from the path. */
  lemma ToolPathRecoversVenv(venv: Option<string>, windows: bool, tool: string)
    ensures VenvOf(ToolPath(venv, windows, tool), windows, tool) == venv
  {
    if venv.Some? {
      var r := ToolPath(venv, windows, tool);
      var suffix := BinDir(windows) + tool;
      assert r == venv.value + suffix;
      assert r[|r| - |suffix|..] == suffix && r[..|r| - |suffix|] == venv.value;
    }
  }

  /** Distinct venvs resolve to distinct binaries. */
  lemma ToolPathInjective(a: Option<string>, b: Option<string>, windows: bool, tool: string)
    requires ToolPath(a, windows, tool) == ToolPath(b, windows, tool)
    ensures a == b
  {
    ToolPathRecoversVenv(a, windows, tool);
    ToolPathRecoversVenv(b, windows, tool);
  }

  /** The compiler and pip of one venv are different files. */
  lemma VyperAndPipDiffer(venv: Option<string>, windows: bool)
    ensures ToolPath(venv, windows, "vyper") != ToolPath(venv, windows, "pip3")
  {
    var v, p := ToolPath(venv, windows, "vyper"), ToolPath(venv, windows, "pip3");
    assert v[|v| - 1] == 'r' && p[|p| - 1] == '3';
  }

  // ---------------------------------------------------------------------------
  // EVM targets

  datatype Evm =
    | Byzantium | Constantinople | Petersberg | Istanbul | Berlin
    | Paris | Shanghai | Cancun | Atlantis | Agharta
  {
    /** `Display for Evm`: the value passed after `--evm-version`. */
    function ToString(): (s: string)
      ensures |s| > 0 && forall c | c in s :: 'a' <= c <= 'z'
    {
      match this
      case Byzantium => "byzantium"
      case Constantinople => "constantinople"
      case Petersberg => "petersberg"
      case Istanbul => "istanbul"
      case Berlin => "berlin"
      case Paris => "paris"
      case Shanghai => "shanghai"
      case Cancun => "cancun"
      case Atlantis => "atlantis"
      case Agharta => "agharta"
    }
  }

  /** No two targets share a flag. */
  lemma EvmToStringInjective(a: Evm, b: Evm)
    requires a.ToString() == b.ToString()
    ensures a == b
  {
  }

  // ---------------------------------------------------------------------------
  // Compiler output

  datatype VyperError =
    | IoError
    | CompilerError(stderr: string)
    | SerializationError

  /** The output with its last two characters dropped (fewer when it is shorter). */
  function Trimmed(s: string): (r: string)
    ensures |r| == if |s| < 2 then 0 else |s| - 2
    ensures r == s[..|r|]
  {
    if |s| <= 2 then [] else s[..|s| - 2]
  }

  /** `for _ in 0..2 { out.pop(); }`: `pop` on an empty string does nothing. */
  method PopTwice(s: string) returns (out: string)
    ensures out == Trimmed(s)
    ensures out == s[..|out|] && |s| - |out| == if |s| < 2 then |s| else 2
  {
    out := s;
    for k := 0 to 2
      invariant |out| == if k <= |s| then |s| - k else 0
      invariant out == s[..|out|]
    {
      if |out| > 0 {
        out := out[..|out| - 1];
      }
    }
  }

  /** What a compile stores: trimmed (or raw) stdout on a zero exit, else the error. */
  function CompileResult(o: Output, trim: bool): (r: Result<string, VyperError>)
    ensures o.SpawnFailed? ==> r == Failure(IoError)
    ensures o.Exited? && !o.success ==> r == Failure(CompilerError(o.stderr))
    ensures o.Exited? && o.success ==> r.Success? && |r.value| <= |o.stdout| && r.value == o.stdout[..|r.value|]
    ensures o.Exited? && o.success && trim ==> |o.stdout| - |r.value| == if |o.stdout| < 2 then |o.stdout| else 2
    ensures o.Exited? && o.success && !trim ==> r.value == o.stdout
  {
    match o
    case SpawnFailed => Failure(IoError)
    case Exited(ok, stdout, stderr) =>
      if ok then Success(if trim then Trimmed(stdout) else stdout) else Failure(CompilerError(stderr))
  }

  /** What an ABI query returns: the parsed stdout on a zero exit, else the error. */
  function AbiResult<J>(o: Output, parse: string -> Option<J>): (r: Result<J, VyperError>)
    ensures r.Success? <==> o.Exited? && o.success && parse(o.stdout).Some?
    ensures r.Success? ==> r.value == parse(o.stdout).value
    ensures o.Exited? && o.success && parse(o.stdout).None? ==> r == Failure(SerializationError)
    ensures o.Exited? && !o.success ==> r == Failure(CompilerError(o.stderr))
    ensures o.SpawnFailed? ==> r == Failure(IoError)
  {
    match o
    case SpawnFailed => Failure(IoError)
    case Exited(ok, stdout, stderr) =>
      if !ok then Failure(CompilerError(stderr))
      else match parse(stdout)
        case None => Failure(SerializationError)
        case Some(j) => Success(j)
  }

  /** Runs one compiler command and post-processes its output. */
  method RunCompiler(bin: string, args: seq<string>, trim: bool, shell: Shell) returns (res: Result<string, VyperError>)
    ensures res == CompileResult(shell(Invocation(bin, args)), trim)
  {
    match shell(Invocation(bin, args))
    case SpawnFailed =>
      res := Failure(IoError);
    case Exited(ok, stdout, stderr) =>
      if ok {
        var out := stdout;
        if trim {
          out := PopTwice(stdout);
        }
        res := Success(out);
      } else {
        res := Failure(CompilerError(stderr));
      }
  }

  /**
   * How a compile settles the cached bytecode: on success the new value is
   * stored and `Ok(())` returned; on failure the error is returned and the
   * cache keeps its old value.
   */
  predicate Settles<T(==)>(res: Result<T, VyperError>, r: Outcome<VyperError>, before: Option<T>, after: Option<T>) {
    match res
    case Success(v) => r == Pass && after == Some(v)
    case Failure(e) => r == Fail(e) && after == before
  }

  // ---------------------------------------------------------------------------
  // Joining per-index results

  /**
   * The `for child_thread in threads { ...? }` loop as a value: all results in
   * index order, or the error of the lowest failing index.
   */
  function JoinInOrder<T(==), E(==)>(rs: seq<Result<T, E>>): (r: Result<seq<T>, E>)
    ensures r.Success? <==> forall i | 0 <= i < |rs| :: rs[i].Success?
    ensures r.Success? ==> |r.value| == |rs| && forall i | 0 <= i < |rs| :: r.value[i] == rs[i].value
    ensures r.Failure? ==>
      exists k | 0 <= k < |rs| :: rs[k] == Failure(r.error) && forall j | 0 <= j < k :: rs[j].Success?
  {
    if rs == [] then Success([])
    else
      match rs[0]
      case Failure(e) => Failure(e)
      case Success(v) =>
        var rest := JoinInOrder(rs[1..]);
        assert forall i | 1 <= i < |rs| :: rs[i] == rs[1..][i - 1];
        match rest
        case Failure(e) =>
          var k :| 0 <= k < |rs[1..]| && rs[1..][k] == Failure(e) && forall j | 0 <= j < k :: rs[1..][j].Success?;
          assert rs[k + 1] == Failure(e) && forall j | 0 <= j < k + 1 :: rs[j].Success?;
          Failure(e)
        case Success(vs) => Success([v] + vs)
  }

  /** Awaits the per-index results in order and stops at the first error. */
  method Join<T(==)>(tasks: seq<Result<T, VyperError>>) returns (r: Result<seq<T>, VyperError>)
    ensures r == JoinInOrder(tasks)
  {
    var outVec: seq<T> := [];
    for i := 0 to |tasks|
      invariant |outVec| == i
      invariant forall j | 0 <= j < i :: tasks[j].Success? && outVec[j] == tasks[j].value
    {
      match tasks[i]
      case Failure(e) =>
        var whole := JoinInOrder(tasks);
        assert !tasks[i].Success?;
        assert whole.Failure?;
        var k :| 0 <= k < |tasks| && tasks[k] == Failure(whole.error) && forall j | 0 <= j < k :: tasks[j].Success?;
        assert k == i;
        assert whole == Failure(e);
        return Failure(e);
      case Success(x) =>
        outVec := outVec + [x];
    }
    var whole := JoinInOrder(tasks);
    assert whole.Success? && |whole.value| == |outVec|;
    assert forall j | 0 <= j < |tasks| :: outVec[j] == whole.value[j];
    assert outVec == whole.value;
    r := Success(outVec);
  }

  /** The per-index outcomes of compiling each path with `[path] + extra` as arguments. */
  function CompileResults(bin: string, paths: seq<string>, extra: seq<string>, shell: Shell): (rs: seq<Result<string, VyperError>>)
    ensures |rs| == |paths|
  {
    seq(|paths|, i requires 0 <= i < |paths| => CompileResult(shell(Invocation(bin, [paths[i]] + extra)), true))
  }

  /** The per-index outcomes of `vyper -f abi <path>` for each path. */
  function AbiResults<J(==)>(bin: string, paths: seq<string>, shell: Shell, parse: string -> Option<J>): (rs: seq<Result<J, VyperError>>)
    ensures |rs| == |paths|
  {
    seq(|paths|, i requires 0 <= i < |paths| => AbiResult(shell(Invocation(bin, ["-f", "abi", paths[i]])), parse))
  }

  /** The spawn loop of `compile_many` / `compile_many_ver`: one task per index, each with its own slot. */
  method SpawnCompiles(bin: string, paths: seq<string>, extra: seq<string>, shell: Shell)
    returns (tasks: seq<Result<string, VyperError>>)
    ensures tasks == CompileResults(bin, paths, extra, shell)
  {
    tasks := [];
    for i := 0 to |paths|
      invariant tasks == CompileResults(bin, paths[..i], extra, shell)
    {
      var res := RunCompiler(bin, [paths[i]] + extra, true, shell);
      assert paths[..i + 1][..i] == paths[..i];
      tasks := tasks + [res];
    }
    assert paths[..|paths|] == paths;
  }

  /** The spawn loop of `get_abi_many`. */
  method SpawnAbiQueries<J(==)>(bin: string, paths: seq<string>, shell: Shell, parse: string -> Option<J>)
    returns (tasks: seq<Result<J, VyperError>>)
    ensures tasks == AbiResults(bin, paths, shell, parse)
  {
    tasks := [];
    for i := 0 to |paths|
      invariant tasks == AbiResults(bin, paths[..i], shell, parse)
    {
      var res := AbiResult(shell(Invocation(bin, ["-f", "abi", paths[i]])), parse);
      assert paths[..i + 1][..i] == paths[..i];
      tasks := tasks + [res];
    }
    assert paths[..|paths|] == paths;
  }

  // ---------------------------------------------------------------------------
  // One contract

  /** `struct Vyper`: a source path, its ABI path, the cached bytecode and an optional venv. */
  class Vyper {
    var pathToCode: string
    var bytecode: Option<string>
    var abi: string
    var venv: Option<string>

    /** `Vyper::new`: ABI path derived from the source, no venv. */
    constructor New(path: string)
      ensures pathToCode == path && bytecode == None && abi == AbiPathOf(path) && venv == None
    {
      pathToCode, bytecode, abi, venv := path, None, AbiPathOf(path), None;
    }

    /** `Vyper::with_abi`: the given ABI path, no venv. */
    constructor WithAbi(root: string, abiPath: string)
      ensures pathToCode == root && bytecode == None && abi == abiPath && venv == None
    {
      pathToCode, bytecode, abi, venv := root, None, abiPath, None;
    }

    /** `Vyper::with_venv`: ABI path derived from the source, inside a venv. */
    constructor WithVenv(path: string, venv: string)
      ensures pathToCode == path && bytecode == None && abi == AbiPathOf(path) && this.venv == Some(venv)
    {
      pathToCode, bytecode, abi, this.venv := path, None, AbiPathOf(path), Some(venv);
    }

    /** `Vyper::with_venv_and_abi`: the given ABI path, inside a venv. */
    constructor WithVenvAndAbi(path: string, venv: string, abi: string)
      ensures pathToCode == path && bytecode == None && this.abi == abi && this.venv == Some(venv)
    {
      pathToCode, bytecode, this.abi, this.venv := path, None, abi, Some(venv);
    }

    function GetVyper(windows: bool): (r: string)
      reads this
      ensures venv.None? ==> r == "vyper"
      ensures venv.Some? ==> r == venv.value + BinDir(windows) + "vyper"
    {
      ToolPath(venv, windows, "vyper")
    }

    function GetPip(windows: bool): (r: string)
      reads this
      ensures venv.None? ==> r == "pip3"
      ensures venv.Some? ==> r == venv.value + BinDir(windows) + "pip3"
    {
      ToolPath(venv, windows, "pip3")
    }

    /** `compile`: `<vyper> <path>`; stores stdout without its last two characters. */
    method Compile(windows: bool, shell: Shell) returns (r: Outcome<VyperError>)
      modifies this`bytecode
      ensures Settles(CompileResult(shell(Invocation(GetVyper(windows), [pathToCode])), true), r, old(bytecode), bytecode)
    {
      var res := RunCompiler(GetVyper(windows), [pathToCode], true, shell);
      r := Store(res);
    }

    /** `compile_blueprint`: `<vyper> -f blueprint_bytecode <path>`; stores stdout untrimmed. */
    method CompileBlueprint(windows: bool, shell: Shell) returns (r: Outcome<VyperError>)
      modifies this`bytecode
      ensures Settles(CompileResult(shell(Invocation(GetVyper(windows), ["-f", "blueprint_bytecode", pathToCode])), false),
                      r, old(bytecode), bytecode)
    {
      var res := RunCompiler(GetVyper(windows), ["-f", "blueprint_bytecode", pathToCode], false, shell);
      r := Store(res);
    }

    /** `compile_ver`: `<vyper> <path> --evm-version <target>`; stores trimmed stdout. */
    method CompileVer(ver: Evm, windows: bool, shell: Shell) returns (r: Outcome<VyperError>)
      modifies this`bytecode
      ensures Settles(CompileResult(shell(Invocation(GetVyper(windows), [pathToCode, "--evm-version", ver.ToString()])), true),
                      r, old(bytecode), bytecode)
    {
      var res := RunCompiler(GetVyper(windows), [pathToCode, "--evm-version", ver.ToString()], true, shell);
      r := Store(res);
    }

    method Store(res: Result<string, VyperError>) returns (r: Outcome<VyperError>)
      modifies this`bytecode
      ensures Settles(res, r, old(bytecode), bytecode)
    {
      match res
      case Success(code) =>
        bytecode := Some(code);
        r := Pass;
      case Failure(e) =>
        r := Fail(e);
    }
  }

  // ---------------------------------------------------------------------------
  // Many contracts

  /** `struct Vypers`: index-aligned source paths, ABI paths and (after compiling) bytecodes. */
  class Vypers {
    var pathToCode: seq<string>
    var bytecode: Option<seq<string>>
    var abi: seq<string>
    var venv: Option<string>

    /** Index `i` denotes the same contract in every sequence. */
    predicate Aligned()
      reads this
    {
      |abi| == |pathToCode| && (bytecode.Some? ==> |bytecode.value| == |pathToCode|)
    }

    /** The struct literal `Self { .. }`. */
    constructor Literal(paths: seq<string>, abiPaths: seq<string>, venv: Option<string>)
      ensures pathToCode == paths && bytecode == None && abi == abiPaths && this.venv == venv
    {
      pathToCode, bytecode, abi, this.venv := paths, None, abiPaths, venv;
    }

    /** `Vypers::new`: one derived ABI path per source path, no venv. */
    constructor New(paths: seq<string>)
      ensures pathToCode == paths && bytecode == None && venv == None && Aligned()
      ensures forall i | 0 <= i < |paths| :: abi[i] == AbiPathOf(paths[i])
    {
      pathToCode, bytecode, abi, venv := paths, None, AbiPaths(paths), None;
    }

    /** `Vypers::with_venv`: as `new`, inside a venv. */
    constructor WithVenv(paths: seq<string>, venv: string)
      ensures pathToCode == paths && bytecode == None && this.venv == Some(venv) && Aligned()
      ensures forall i | 0 <= i < |paths| :: abi[i] == AbiPathOf(paths[i])
    {
      pathToCode, bytecode, abi, this.venv := paths, None, AbiPaths(paths), Some(venv);
    }

    /** `Vypers::with_all`: panics ("Mismatched Vector Lengths") unless the two sequences align. */
    static method WithAll(paths: seq<string>, abiPaths: seq<string>, venv: Option<string>) returns (r: Result<Vypers, string>)
      ensures r.Failure? <==> |paths| != |abiPaths|
      ensures r.Failure? ==> r.error == "Mismatched Vector Lengths"
      ensures r.Success? ==> fresh(r.value) && r.value.Aligned()
      ensures r.Success? ==>
        r.value.pathToCode == paths && r.value.abi == abiPaths && r.value.venv == venv && r.value.bytecode == None
    {
      if |paths| != |abiPaths| {
        return Failure("Mismatched Vector Lengths");
      }
      var v := new Vypers.Literal(paths, abiPaths, venv);
      r := Success(v);
    }

    /** `Vypers::in_dir`, given the outcome of listing the directory's `.vy` files. */
    static method InDir(listing: Option<seq<string>>) returns (r: Option<Vypers>)
      ensures r.None? <==> listing.None?
      ensures r.Some? ==> fresh(r.value) && r.value.pathToCode == listing.value && r.value.venv == None
      ensures r.Some? ==> r.value.bytecode == None && r.value.abi == AbiPaths(listing.value)
    {
      if listing.None? {
        return None;
      }
      var v := new Vypers.New(listing.value);
      r := Some(v);
    }

    /** `Vypers::in_workspace`, given the paths the workspace scan found (the scan never fails). */
    static method InWorkspace(found: seq<string>) returns (r: Option<Vypers>)
      ensures r.Some? && fresh(r.value) && r.value.pathToCode == found && r.value.venv == None
      ensures r.value.bytecode == None && r.value.abi == AbiPaths(found)
    {
      var v := new Vypers.New(found);
      r := Some(v);
    }

    /** `set_venv`: only the venv changes. */
    method SetVenv(venv: string)
      modifies this`venv
      ensures this.venv == Some(venv)
      ensures old(Aligned()) ==> Aligned()
    {
      this.venv := Some(venv);
    }

    function GetVyper(windows: bool): (r: string)
      reads this
      ensures venv.None? ==> r == "vyper"
      ensures venv.Some? ==> r == venv.value + BinDir(windows) + "vyper"
    {
      ToolPath(venv, windows, "vyper")
    }

    function GetPip(windows: bool): (r: string)
      reads this
      ensures venv.None? ==> r == "pip3"
      ensures venv.Some? ==> r == venv.value + BinDir(windows) + "pip3"
    {
      ToolPath(venv, windows, "pip3")
    }

    /**
     * `compile_many`: `<vyper> <path[i]>` for every index; on success `bytecode[i]`
     * is the trimmed output for `path[i]`; otherwise the lowest failing index's
     * error and the cache is untouched.
     */
    method CompileMany(windows: bool, shell: Shell) returns (r: Outcome<VyperError>)
      modifies this`bytecode
      ensures Settles(JoinInOrder(CompileResults(GetVyper(windows), pathToCode, [], shell)), r, old(bytecode), bytecode)
      ensures r.Pass? ==> bytecode.Some? && |bytecode.value| == |pathToCode|
      ensures old(Aligned()) ==> Aligned()
    {
      var tasks := SpawnCompiles(GetVyper(windows), pathToCode, [], shell);
      var joined := Join(tasks);
      r := Store(joined);
    }

    /** `compile_many_ver`: as `compile_many` with `--evm-version <target>` after each path. */
    method CompileManyVer(ver: Evm, windows: bool, shell: Shell) returns (r: Outcome<VyperError>)
      modifies this`bytecode
      ensures Settles(JoinInOrder(CompileResults(GetVyper(windows), pathToCode, ["--evm-version", ver.ToString()], shell)),
                      r, old(bytecode), bytecode)
      ensures r.Pass? ==> bytecode.Some? && |bytecode.value| == |pathToCode|
      ensures old(Aligned()) ==> Aligned()
    {
      var tasks := SpawnCompiles(GetVyper(windows), pathToCode, ["--evm-version", ver.ToString()], shell);
      var joined := Join(tasks);
      r := Store(joined);
    }

    /** `get_abi_many`: one parsed ABI per index, in index order, or the lowest failing index's error. */
    method GetAbiMany<J(==)>(windows: bool, shell: Shell, parse: string -> Option<J>) returns (r: Result<seq<J>, VyperError>)
      ensures r == JoinInOrder(AbiResults(GetVyper(windows), pathToCode, shell, parse))
    {
      var tasks := SpawnAbiQueries(GetVyper(windows), pathToCode, shell, parse);
      r := Join(tasks);
    }

    method Store(res: Result<seq<string>, VyperError>) returns (r: Outcome<VyperError>)
      modifies this`bytecode
      ensures Settles(res, r, old(bytecode), bytecode)
    {
      match res
      case Success(codes) =>
        bytecode := Some(codes);
        r := Pass;
      case Failure(e) =>
        r := Fail(e);
    }

    /**
     * `From<Vec<Vyper>> for Vypers`: the source paths in order, ABI paths derived
     * afresh (the given ones are collected and dropped), and the venv of the last
     * element.
     */
    static method FromVypers(value: seq<Vyper>) returns (r: Vypers)
      ensures fresh(r) && r.bytecode == None && r.Aligned()
      ensures |r.pathToCode| == |value|
      ensures forall i | 0 <= i < |value| :: r.pathToCode[i] == value[i].pathToCode && r.abi[i] == AbiPathOf(value[i].pathToCode)
      ensures r.venv == if |value| == 0 then None else value[|value| - 1].venv
    {
      var paths: seq<string> := [];
      var abis: seq<string> := [];
      var venv: Option<string> := None;
      for i := 0 to |value|
        invariant |paths| == i && forall j | 0 <= j < i :: paths[j] == value[j].pathToCode
        invariant venv == if i == 0 then None else value[i - 1].venv
      {
        paths := paths + [value[i].pathToCode];
        abis := abis + [value[i].abi];
        venv := value[i].venv;
      }
      if venv.Some? {
        r := new Vypers.WithVenv(paths, venv.value);
      } else {
        r := new Vypers.New(paths);
      }
    }
  }

  /** Index alignment of a batch compile: slot `i` holds exactly what compiling `paths[i]` alone would store. */
  lemma BatchSlotIsSingleCompile(bin: string, paths: seq<string>, extra: seq<string>, shell: Shell, i: int)
    requires JoinInOrder(CompileResults(bin, paths, extra, shell)).Success?
    requires 0 <= i < |paths|
    ensures CompileResult(shell(Invocation(bin, [paths[i]] + extra)), true).Success?
    ensures JoinInOrder(CompileResults(bin, paths, extra, shell)).value[i]
      == CompileResult(shell(Invocation(bin, [paths[i]] + extra)), true).value
  {
    var rs := CompileResults(bin, paths, extra, shell);
    assert rs[i].Success?;
  }

  /** A batch fails exactly when some unit fails, with the lowest failing unit's error. */
  lemma BatchFailsAtFirstFailure(bin: string, paths: seq<string>, extra: seq<string>, shell: Shell, k: int)
    requires 0 <= k < |paths|
    requires CompileResult(shell(Invocation(bin, [paths[k]] + extra)), true).Failure?
    requires forall j | 0 <= j < k :: CompileResult(shell(Invocation(bin, [paths[j]] + extra)), true).Success?
    ensures JoinInOrder(CompileResults(bin, paths, extra, shell))
      == Failure(CompileResult(shell(Invocation(bin, [paths[k]] + extra)), true).error)
  {
    var rs := CompileResults(bin, paths, extra, shell);
    assert rs[k].Failure?;
    var e := JoinInOrder(rs).error;
    var m :| 0 <= m < |rs| && rs[m] == Failure(e) && forall j | 0 <= j < m :: rs[j].Success?;
    assert m == k;
  }
}
