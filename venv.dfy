/**
 * The toolchain typestate of `src/venv.rs`.
 *
 * The source carries the state in a phantom type parameter, so a call in the
 * wrong state does not compile; here the state is a tag and every transition
 * requires its source state. Each transition consumes the value and returns a
 * fresh one (or an error) together with the commands it ran, so that "no
 * command is run" and "the second step is skipped" can be stated.
 */
module Venv {
  import opened Wrappers
  import opened Process
  import Vyper

  datatype State = NotInitialized | Initialized | Skip | Ready | Complete

  /** `Venv<'a, State>`: a venv directory tagged with its typestate. */
  datatype Venv = Venv(venvPath: string, state: State)

  /** `output()?` failing to spawn, or `bail!` with a message. */
  datatype VenvError = SpawnError | Bail(message: string)

  /** The result of a transition and the commands it ran, in order. */
  datatype Step = Step(result: Result<Venv, VenvError>, ran: seq<Invocation>)

  /** The result of running a list of commands. */
  datatype Chain = Chain(outcome: Outcome<VenvError>, ran: seq<Invocation>)

  const DefaultPath: string := "./venv"

  /** The transitions the type parameter allows. */
  predicate Edge(from: State, to: State): (b: bool)
    ensures b ==> from != to && !Provides(from)
  {
    || (from == NotInitialized && to == Initialized)
    || (from == NotInitialized && to == Skip)
    || (from == Initialized && to == Ready)
    || (from == Skip && to == Complete)
  }

  /** The states that hand out `Vyper` / `Vypers` descriptors. */
  predicate Provides(s: State) {
    s == Ready || s == Complete
  }

  // ---------------------------------------------------------------------------
  // Running commands

  /** `output()?` followed by `if !status.success() { bail!(stderr) }`. */
  function CommandOutcome(o: Output): (r: Outcome<VenvError>)
    ensures r.Pass? <==> o.Exited? && o.success
    ensures o.Exited? && !o.success ==> r == Fail(Bail(o.stderr))
    ensures o.SpawnFailed? ==> r == Fail(SpawnError)
  {
    match o
    case SpawnFailed => Fail(SpawnError)
    case Exited(ok, _, stderr) => if ok then Pass else Fail(Bail(stderr))
  }

  /** Runs commands in order, stopping after the first one that fails. */
  function RunChain(cmds: seq<Invocation>, shell: Shell): (c: Chain)
    ensures |c.ran| <= |cmds| && c.ran == cmds[..|c.ran|]
    ensures forall i | 0 <= i < |c.ran| - 1 :: CommandOutcome(shell(c.ran[i])).Pass?
    ensures c.outcome.Pass? <==> c.ran == cmds && forall i | 0 <= i < |cmds| :: CommandOutcome(shell(cmds[i])).Pass?
    ensures c.outcome.Fail? ==> |c.ran| > 0 && c.outcome == CommandOutcome(shell(c.ran[|c.ran| - 1]))
  {
    if cmds == [] then Chain(Pass, [])
    else
      var first := CommandOutcome(shell(cmds[0]));
      if first.Fail? then Chain(first, [cmds[0]])
      else
        var rest := RunChain(cmds[1..], shell);
        assert forall i | 1 <= i < |cmds| :: cmds[i] == cmds[1..][i - 1];
        Chain(rest.outcome, [cmds[0]] + rest.ran)
  }

  /** Two commands: the second runs only if the first passed, and the outcome is the last one run. */
  lemma TwoCommandChain(a: Invocation, b: Invocation, shell: Shell)
    ensures CommandOutcome(shell(a)).Fail? ==> RunChain([a, b], shell) == Chain(CommandOutcome(shell(a)), [a])
    ensures CommandOutcome(shell(a)).Pass? ==> RunChain([a, b], shell) == Chain(CommandOutcome(shell(b)), [a, b])
  {
    assert [a, b][1..] == [b] && [b][1..] == [];
  }

  /** Turns a chain into a transition to `next`. */
  function Finish(c: Chain, next: Venv): (s: Step)
    ensures s.ran == c.ran
    ensures s.result.Success? <==> c.outcome.Pass?
    ensures s.result.Success? ==> s.result.value == next
    ensures s.result.Failure? ==> Fail(s.result.error) == c.outcome
  {
    Step(if c.outcome.Pass? then Success(next) else Failure(c.outcome.error), c.ran)
  }

  /** The package argument of `pip3 install`. */
  function PackageSpec(ver: Option<string>): (r: string)
    ensures |r| >= 5 && r[..5] == "vyper"
    ensures ver.None? <==> r == "vyper"
    ensures ver.Some? ==> |r| >= 7 && r[..7] == "vyper==" && r[7..] == ver.value
  {
    match ver
    case Some(version) => "vyper==" + version
    case None => "vyper"
  }

  /** Reads the requested version back from a package argument. */
  function RequestedVersion(spec: string): Option<string> {
    if |spec| >= 7 && spec[..7] == "vyper==" then Some(spec[7..]) else None
  }

  /** Pinned and unpinned installs are told apart, and the version survives. */
  lemma PackageSpecRoundTrip(ver: Option<string>)
    ensures RequestedVersion(PackageSpec(ver)) == ver
  {
    if ver.Some? {
      assert PackageSpec(ver)[..7] == "vyper==" && PackageSpec(ver)[7..] == ver.value;
    }
  }

  // ---------------------------------------------------------------------------
  // NotInitialized

  /** `Venv::default`. */
  function Default(): (v: Venv)
    ensures v.state == NotInitialized && v.venvPath == "./venv"
  {
    Venv(DefaultPath, NotInitialized)
  }

  /** `Venv::new`. */
  function New(venvPath: string): (v: Venv)
    ensures v.state == NotInitialized && v.venvPath == venvPath
  {
    Venv(venvPath, NotInitialized)
  }

  /** `init`: an existing directory is taken as is; otherwise `mkdir <p>`, then `python3 -m venv <p>`. */
  function Init(v: Venv, present: string -> bool, shell: Shell): (s: Step)
    requires v.state == NotInitialized
    ensures present(v.venvPath) ==> s == Step(Success(Venv(v.venvPath, Initialized)), [])
    ensures !present(v.venvPath) ==>
      s.ran == [Invocation("mkdir", [v.venvPath])]
      || s.ran == [Invocation("mkdir", [v.venvPath]), Invocation("python3", ["-m", "venv", v.venvPath])]
    ensures |s.ran| == 2 ==> CommandOutcome(shell(s.ran[0])).Pass?
    ensures !present(v.venvPath) && CommandOutcome(shell(Invocation("mkdir", [v.venvPath]))).Pass? ==> |s.ran| == 2
    ensures s.result.Success? <==>
      present(v.venvPath)
      || (CommandOutcome(shell(Invocation("mkdir", [v.venvPath]))).Pass?
          && CommandOutcome(shell(Invocation("python3", ["-m", "venv", v.venvPath]))).Pass?)
    ensures s.result.Success? ==> s.result.value == Venv(v.venvPath, Initialized)
    ensures s.result.Failure? ==> |s.ran| > 0 && Fail(s.result.error) == CommandOutcome(shell(s.ran[|s.ran| - 1]))
  {
    if present(v.venvPath) then Step(Success(Venv(v.venvPath, Initialized)), [])
    else
      var cmds := [Invocation("mkdir", [v.venvPath]), Invocation("python3", ["-m", "venv", v.venvPath])];
      TwoCommandChain(cmds[0], cmds[1], shell);
      Finish(RunChain(cmds, shell), Venv(v.venvPath, Initialized))
  }

  /** `skip`: no receiver, so the path is always `./venv`. */
  function SkipVenv(): (v: Venv)
    ensures v.state == Skip && v.venvPath == "./venv"
  {
    Venv(DefaultPath, Skip)
  }

  // ---------------------------------------------------------------------------
  // Initialized

  /** The pip of the venv, hard-coded to `./venv` whatever the venv path is. */
  function VenvPip(windows: bool): (r: string)
    ensures r == Vyper.ToolPath(Some(DefaultPath), windows, "pip3")
  {
    if windows then "./venv/scripts/pip3" else "./venv/bin/pip3"
  }

  /** The compiler whose presence `try_ready` tests, hard-coded the same way. */
  function VenvVyper(windows: bool): (r: string)
    ensures r == Vyper.ToolPath(Some(DefaultPath), windows, "vyper")
  {
    if windows then "./venv/scripts/vyper" else "./venv/bin/vyper"
  }

  /** `ivyper_venv`: `<venv pip> install vyper[==ver]`; Ready on a zero exit. */
  function IvyperVenv(v: Venv, ver: Option<string>, windows: bool, shell: Shell): (s: Step)
    requires v.state == Initialized
    ensures s.ran == [Invocation(VenvPip(windows), ["install", PackageSpec(ver)])]
    ensures s.result.Success? <==> CommandOutcome(shell(s.ran[0])).Pass?
    ensures s.result.Success? ==> s.result.value == Venv(v.venvPath, Ready)
    ensures s.result.Failure? ==> Fail(s.result.error) == CommandOutcome(shell(s.ran[0]))
  {
    var c := RunChain([Invocation(VenvPip(windows), ["install", PackageSpec(ver)])], shell);
    Finish(c, Venv(v.venvPath, Ready))
  }

  /** `Initialized::try_ready`: Ready iff the venv's compiler exists; runs nothing. */
  function TryReadyVenv(v: Venv, windows: bool, present: string -> bool): (s: Step)
    requires v.state == Initialized
    ensures s.ran == []
    ensures s.result.Success? <==> present(VenvVyper(windows))
    ensures s.result.Success? ==> s.result.value == Venv(v.venvPath, Ready)
    ensures s.result.Failure? ==> s.result.error == Bail("Vyper was not installed in venv")
  {
    if present(VenvVyper(windows)) then Step(Success(Venv(v.venvPath, Ready)), [])
    else Step(Failure(Bail("Vyper was not installed in venv")), [])
  }

  /** What `ivyper_venv` runs does not depend on the venv path. */
  lemma IvyperVenvIgnoresPath(a: Venv, b: Venv, ver: Option<string>, windows: bool, shell: Shell)
    requires a.state == Initialized && b.state == Initialized
    ensures IvyperVenv(a, ver, windows, shell).ran == IvyperVenv(b, ver, windows, shell).ran
    ensures IvyperVenv(a, ver, windows, shell).result.Success? == IvyperVenv(b, ver, windows, shell).result.Success?
  {
  }

  // ---------------------------------------------------------------------------
  // Skip

  /** `ivyper_pip`: `pip3 install vyper[==ver]`; Complete on a zero exit. */
  function IvyperPip(v: Venv, ver: Option<string>, shell: Shell): (s: Step)
    requires v.state == Skip
    ensures s.ran == [Invocation("pip3", ["install", PackageSpec(ver)])]
    ensures s.result.Success? <==> CommandOutcome(shell(s.ran[0])).Pass?
    ensures s.result.Success? ==> s.result.value == Venv(v.venvPath, Complete)
    ensures s.result.Failure? ==> Fail(s.result.error) == CommandOutcome(shell(s.ran[0]))
  {
    var c := RunChain([Invocation("pip3", ["install", PackageSpec(ver)])], shell);
    Finish(c, Venv(v.venvPath, Complete))
  }

  /** The probe `global_exists` runs. */
  const HelpProbe: Invocation := Invocation("vyper", ["-h"])

  /** `global_exists`: the probe could be spawned, whatever its exit status. */
  function GlobalExists(shell: Shell): (b: bool)
    ensures b <==> shell(HelpProbe) != SpawnFailed
  {
    shell(HelpProbe).Exited?
  }

  /** `Skip::try_ready`: runs the probe; Complete iff `global_exists`. */
  function TryReadyGlobal(v: Venv, shell: Shell): (s: Step)
    requires v.state == Skip
    ensures s.ran == [HelpProbe]
    ensures s.result.Success? <==> GlobalExists(shell)
    ensures s.result.Success? ==> s.result.value == Venv(v.venvPath, Complete)
    ensures s.result.Failure? ==> s.result.error == Bail("Vyper not installed")
  {
    if GlobalExists(shell) then Step(Success(Venv(v.venvPath, Complete)), [HelpProbe])
    else Step(Failure(Bail("Vyper not installed")), [HelpProbe])
  }

  /** A compiler that exits non-zero on `-h` still counts as installed. */
  lemma FailingProbeCountsAsInstalled(v: Venv, shell: Shell)
    requires v.state == Skip
    requires shell(HelpProbe).Exited? && !shell(HelpProbe).success
    ensures TryReadyGlobal(v, shell).result == Success(Venv(v.venvPath, Complete))
  {
  }

  // ---------------------------------------------------------------------------
  // The machine as a whole

  datatype Action =
    | DoInit
    | DoSkip
    | DoIvyperVenv(ver: Option<string>)
    | DoTryReady
    | DoIvyperPip(pipVer: Option<string>)

  /** The methods each state's `impl` block offers. */
  predicate Available(s: State, a: Action): (b: bool)
    ensures b ==> !Provides(s)
  {
    match a
    case DoInit => s == NotInitialized
    case DoSkip => s == NotInitialized
    case DoIvyperVenv(_) => s == Initialized
    case DoTryReady => s == Initialized || s == Skip
    case DoIvyperPip(_) => s == Skip
  }

  /** Calls the method `a` names on `v`, or None when `v`'s state has no such method. */
  function Apply(v: Venv, a: Action, windows: bool, present: string -> bool, shell: Shell): (r: Option<Step>)
    ensures r.Some? <==> Available(v.state, a)
    ensures r.Some? ==> |r.value.ran| <= 2
  {
    if !Available(v.state, a) then None
    else
      match a
      case DoInit => Some(Init(v, present, shell))
      case DoSkip => Some(Step(Success(SkipVenv()), []))
      case DoIvyperVenv(ver) => Some(IvyperVenv(v, ver, windows, shell))
      case DoTryReady =>
        if v.state == Initialized then Some(TryReadyVenv(v, windows, present)) else Some(TryReadyGlobal(v, shell))
      case DoIvyperPip(ver) => Some(IvyperPip(v, ver, shell))
  }

  /** Every successful call moves along an allowed edge and keeps the venv path (`skip` resets it to `./venv`). */
  lemma {:induction false} ApplyFollowsEdges(v: Venv, a: Action, windows: bool, present: string -> bool, shell: Shell)
    requires Apply(v, a, windows, present, shell).Some?
    requires Apply(v, a, windows, present, shell).value.result.Success?
    ensures Edge(v.state, Apply(v, a, windows, present, shell).value.result.value.state)
    ensures Apply(v, a, windows, present, shell).value.result.value.venvPath == if a == DoSkip then DefaultPath else v.venvPath
  {
    match a
    case DoInit =>
      var s := Init(v, present, shell);
    case DoSkip =>
    case DoIvyperVenv(ver) =>
      var s := IvyperVenv(v, ver, windows, shell);
    case DoTryReady =>
      if v.state == Initialized {
        var s := TryReadyVenv(v, windows, present);
      } else {
        var s := TryReadyGlobal(v, shell);
      }
    case DoIvyperPip(ver) =>
      var s := IvyperPip(v, ver, shell);
  }

  /** Ready and Complete are final: no method moves them on. */
  lemma TerminalStates(v: Venv, a: Action, windows: bool, present: string -> bool, shell: Shell)
    requires Provides(v.state)
    ensures Apply(v, a, windows, present, shell).None?
  {
  }

  /** Running actions one after another, stopping at the first that is unavailable or fails. */
  function Run(v: Venv, actions: seq<Action>, windows: bool, present: string -> bool, shell: Shell): Result<Venv, VenvError>
    decreases |actions|
  {
    if actions == [] then Success(v)
    else
      match Apply(v, actions[0], windows, present, shell)
      case None => Success(v)
      case Some(s) =>
        if s.result.Failure? then s.result else Run(s.result.value, actions[1..], windows, present, shell)
  }

  /** The reflexive-transitive closure of `Edge`. */
  predicate Reaches(from: State, to: State) {
    from == to || Edge(from, to)
    || (from == NotInitialized && (to == Ready || to == Complete))
  }

  /**
   * Whatever sequence of calls is made, the machine only moves forward along
   * the edges; a default-constructed venv reaches Ready only through
   * Initialized and Complete only through Skip.
   */
  lemma {:induction false} RunReaches(v: Venv, actions: seq<Action>, windows: bool, present: string -> bool, shell: Shell)
    requires Run(v, actions, windows, present, shell).Success?
    ensures Reaches(v.state, Run(v, actions, windows, present, shell).value.state)
    ensures Run(v, actions, windows, present, shell).value.state == Ready ==> v.state != Skip && v.state != Complete
    decreases |actions|
  {
    if actions != [] {
      match Apply(v, actions[0], windows, present, shell)
      case None =>
      case Some(s) =>
        if s.result.Success? {
          ApplyFollowsEdges(v, actions[0], windows, present, shell);
          RunReaches(s.result.value, actions[1..], windows, present, shell);
        }
    }
  }

  /** The documented route to a usable venv: `new(p).init()?.ivyper_venv(ver)?` ends Ready on `p`. */
  lemma InstallIntoNewVenv(p: string, ver: Option<string>, windows: bool, present: string -> bool, shell: Shell)
    requires present(p)
    requires CommandOutcome(shell(Invocation(VenvPip(windows), ["install", PackageSpec(ver)]))).Pass?
    ensures Run(New(p), [DoInit, DoIvyperVenv(ver)], windows, present, shell) == Success(Venv(p, Ready))
  {
    var w := Venv(p, Initialized);
    assert Apply(New(p), DoInit, windows, present, shell) == Some(Init(New(p), present, shell));
    assert Init(New(p), present, shell).result == Success(w);
    assert Apply(w, DoIvyperVenv(ver), windows, present, shell) == Some(IvyperVenv(w, ver, windows, shell));
    assert IvyperVenv(w, ver, windows, shell).result == Success(Venv(p, Ready));
    assert [DoInit, DoIvyperVenv(ver)][1..] == [DoIvyperVenv(ver)];
    assert [DoIvyperVenv(ver)][1..] == [];
    assert Run(w, [DoIvyperVenv(ver)], windows, present, shell) == Run(Venv(p, Ready), [], windows, present, shell);
  }

  // ---------------------------------------------------------------------------
  // Descriptors handed out by Ready and Complete

  /** The venv a descriptor carries: the venv path from Ready, none from Complete. */
  function DescriptorVenv(v: Venv): (r: Option<string>)
    requires Provides(v.state)
    ensures r.Some? <==> v.state == Ready
    ensures r.Some? ==> r.value == v.venvPath
  {
    if v.state == Ready then Some(v.venvPath) else None
  }

  /** `vyper`: `Vyper::with_venv` from Ready, `Vyper::new` from Complete. */
  method MakeVyper(v: Venv, pathToContract: string) returns (c: Vyper.Vyper)
    requires Provides(v.state)
    ensures fresh(c) && c.pathToCode == pathToContract && c.bytecode == None
    ensures c.abi == Vyper.AbiPathOf(pathToContract) && c.venv == DescriptorVenv(v)
  {
    if v.state == Ready {
      c := new Vyper.Vyper.WithVenv(pathToContract, v.venvPath);
    } else {
      c := new Vyper.Vyper.New(pathToContract);
    }
  }

  /** `vypers`: `Vypers::with_venv` from Ready, `Vypers::new` from Complete. */
  method MakeVypers(v: Venv, paths: seq<string>) returns (c: Vyper.Vypers)
    requires Provides(v.state)
    ensures fresh(c) && c.pathToCode == paths && c.bytecode == None && c.Aligned()
    ensures forall i | 0 <= i < |paths| :: c.abi[i] == Vyper.AbiPathOf(paths[i])
    ensures c.venv == DescriptorVenv(v)
  {
    if v.state == Ready {
      c := new Vyper.Vypers.WithVenv(paths, v.venvPath);
    } else {
      c := new Vyper.Vypers.New(paths);
    }
  }

  /** `vyper_with_abi`: `Vyper::with_venv_and_abi` from Ready, `Vyper::with_abi` from Complete. */
  method MakeVyperWithAbi(v: Venv, path: string, abi: string) returns (c: Vyper.Vyper)
    requires Provides(v.state)
    ensures fresh(c) && c.pathToCode == path && c.bytecode == None && c.abi == abi
    ensures c.venv == DescriptorVenv(v)
  {
    if v.state == Ready {
      c := new Vyper.Vyper.WithVenvAndAbi(path, v.venvPath, abi);
    } else {
      c := new Vyper.Vyper.WithAbi(path, abi);
    }
  }

  /** `vypers_from_dir`: `Vypers::in_dir`, then `set_venv` from Ready. */
  method MakeVypersFromDir(v: Venv, listing: Option<seq<string>>) returns (r: Option<Vyper.Vypers>)
    requires Provides(v.state)
    ensures r.None? <==> listing.None?
    ensures r.Some? ==> fresh(r.value) && r.value.pathToCode == listing.value && r.value.bytecode == None
    ensures r.Some? ==> r.value.abi == Vyper.AbiPaths(listing.value) && r.value.venv == DescriptorVenv(v)
  {
    r := Vyper.Vypers.InDir(listing);
    if r.Some? && v.state == Ready {
      r.value.SetVenv(v.venvPath);
    }
  }

  /** `vypers_from_workspace`: `Vypers::in_workspace`, then `set_venv` from Ready. */
  method MakeVypersFromWorkspace(v: Venv, found: seq<string>) returns (r: Option<Vyper.Vypers>)
    requires Provides(v.state)
    ensures r.Some? && fresh(r.value) && r.value.pathToCode == found && r.value.bytecode == None
    ensures r.value.abi == Vyper.AbiPaths(found) && r.value.venv == DescriptorVenv(v)
  {
    r := Vyper.Vypers.InWorkspace(found);
    if v.state == Ready {
      r.value.SetVenv(v.venvPath);
    }
  }

  /** A descriptor from Ready compiles with the venv's own compiler; one from Complete with `vyper` on the PATH. */
  lemma DescriptorCompiler(v: Venv, windows: bool)
    requires Provides(v.state)
    ensures v.state == Ready ==> Vyper.ToolPath(DescriptorVenv(v), windows, "vyper") == v.venvPath + Vyper.BinDir(windows) + "vyper"
    ensures v.state == Complete ==> Vyper.ToolPath(DescriptorVenv(v), windows, "vyper") == "vyper"
  {
  }
}
