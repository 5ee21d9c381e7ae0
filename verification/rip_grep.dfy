/**
 * `ripGrep(args, target)`: what the wrapper hands to `execFile` (the
 * executable, the argument vector and the two fixed limits).
 */
module RipGrep {
  import opened Wrappers
  import opened RipGrepBinary

  /** `maxBuffer`: the most bytes of output buffered before the process is stopped. */
  const MaxBufferBytes: nat := 10_000_000

  /** `timeout`: milliseconds before the process is killed. */
  const TimeoutMillis: nat := 60_000

  /** The environment facts the wrapper reads. */
  datatype Host = Host(isBun: bool, nodeEnv: Option<string>, platform: string, arch: string, moduleDir: Path)

  /** One `execFile` call. */
  datatype Invocation = Invocation(binary: BinaryLocation, argv: seq<string>, maxBuffer: nat, timeoutMillis: nat)

  /**
   * The call `ripGrep` makes: the resolved binary, the caller's arguments
   * followed by the target, and the fixed limits. `probe` is the result of
   * the search-path lookup.
   */
  function PlanInvocation(host: Host, probe: string, args: seq<string>, target: string): (inv: Invocation)
    ensures |inv.argv| == |args| + 1 && inv.argv[..|args|] == args && inv.argv[|args|] == target
    ensures inv.maxBuffer == 10_000_000 && inv.timeoutMillis == 60_000
    ensures inv.binary.SearchPath? <==> probe != "rg"
    ensures inv.binary == RipgrepPath(probe, RootDir(host.moduleDir, IsDevOrTest(host.isBun, host.nodeEnv)), host.platform, host.arch)
  {
    var root := RootDir(host.moduleDir, IsDevOrTest(host.isBun, host.nodeEnv));
    Invocation(RipgrepPath(probe, root, host.platform, host.arch), args + [target], MaxBufferBytes, TimeoutMillis)
  }

  /**
   * The bundle sits two levels above the module's directory, rather than
   * one, exactly when running under Bun or with `NODE_ENV` set to `test`.
   */
  lemma BundleDepthFollowsEnvironment(host: Host, args: seq<string>, target: string)
    requires |host.moduleDir| >= 2
    ensures var path := PlanInvocation(host, "rg", args, target).binary.path;
            && path[..|host.moduleDir| - 2] == host.moduleDir[..|host.moduleDir| - 2]
            && (|path| == |host.moduleDir| + 2 <==> host.isBun || host.nodeEnv == Some("test"))
            && (|path| == |host.moduleDir| + 3 <==> !host.isBun && host.nodeEnv != Some("test"))
  {
    var dev := IsDevOrTest(host.isBun, host.nodeEnv);
    var root := RootDir(host.moduleDir, dev);
    var path := PlanInvocation(host, "rg", args, target).binary.path;
    assert path[..|root|] == root;
    assert root[..|host.moduleDir| - 2] == host.moduleDir[..|host.moduleDir| - 2];
  }

  /**
   * A build on x64 Linux without `rg` on the search path runs the bundle
   * next to `dist/`.
   */
  lemma ScenarioBuildOnLinux()
    ensures PlanInvocation(Host(false, Some("production"), "linux", "x64", ["opt", "app", "dist"]), "rg", ["-n"], "TODO")
            == Invocation(Bundled(["opt", "app", "vendor", "ripgrep", "x64-linux", "rg"]), ["-n", "TODO"], 10_000_000, 60_000)
  {
    assert "x64" + "-" + "linux" == "x64-linux";
  }

  /** Under Bun the module sits in `src/utils/`, so the root is two levels up. */
  lemma ScenarioDevelopmentOnWindowsArm()
    ensures PlanInvocation(Host(true, None, "win32", "arm64", ["work", "app", "src", "utils"]), "rg", [], "x")
            == Invocation(Bundled(["work", "app", "vendor", "ripgrep", "x64-win32", "rg.exe"]), ["x"], 10_000_000, 60_000)
  {
  }

  /** Whatever command the search-path lookup returned, when it is not `"rg"`, is run instead of any bundle. */
  lemma ScenarioSearchPathCommand(host: Host, args: seq<string>, target: string)
    ensures PlanInvocation(host, "/usr/bin/rg", args, target).binary == SearchPath("/usr/bin/rg")
  {
  }
}
