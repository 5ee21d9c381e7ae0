/**
 * Where the ripgrep wrapper finds the `rg` executable: the command the
 * search-path lookup returned, whenever that is not `"rg"`, or else the copy bundled under
 * `vendor/ripgrep/` below the install root. Paths are sequences of
 * segments below the filesystem root.
 */
module RipGrepBinary {
  import opened Wrappers

  /** An absolute path, as its segments below the filesystem root. */
  type Path = seq<string>

  /** `path.resolve(p, '..')`: one level up, where the root is its own parent. */
  function Parent(p: Path): (q: Path)
    ensures q <= p
    ensures |q| == if |p| == 0 then 0 else |p| - 1
  {
    if |p| == 0 then [] else p[..|p| - 1]
  }

  /**
   * `isLocal() || process.env.NODE_ENV === 'test'`: running from sources
   * under Bun, or under the test environment.
   */
  predicate IsDevOrTest(isBun: bool, nodeEnv: Option<string>) {
    isBun || nodeEnv == Some("test")
  }

  /**
   * `rootDir`: the install root above the directory of the module, two
   * levels up in development and test (sources in `src/utils/`), one level
   * up in a build (compiled files in `dist/`).
   */
  function RootDir(moduleDir: Path, devOrTest: bool): (root: Path)
    ensures root <= moduleDir
    ensures |root| == if devOrTest then Max0(|moduleDir| - 2) else Max0(|moduleDir| - 1)
  {
    if devOrTest then Parent(Parent(moduleDir)) else Parent(moduleDir)
  }

  /** `n`, or 0 when `n` is negative: a path cannot go above the filesystem root. */
  function Max0(n: int): nat {
    if n < 0 then 0 else n
  }

  /** Where `rg` is run from: a command found on the search path, or a bundled executable. */
  datatype BinaryLocation = SearchPath(cmd: string) | Bundled(path: Path)

  /**
   * `ripgrepPath()`. `probe` is the `cmd` that the search-path lookup
   * returned; whenever it is not exactly `"rg"` it is run as is.
   * Windows always gets the x64 bundle and an `.exe`; every other
   * platform gets `<arch>-<platform>/rg`.
   */
  function RipgrepPath(probe: string, root: Path, platform: string, arch: string): (loc: BinaryLocation)
    ensures loc.SearchPath? <==> probe != "rg"
    ensures loc.SearchPath? ==> loc.cmd == probe
    ensures loc.Bundled? ==> |loc.path| == |root| + 4 && loc.path[..|root|] == root
                             && loc.path[|root|] == "vendor" && loc.path[|root| + 1] == "ripgrep"
    ensures loc.Bundled? && platform == "win32" ==> loc.path[|root| + 2..] == ["x64-win32", "rg.exe"]
    ensures loc.Bundled? && platform != "win32" ==> loc.path[|root| + 2..] == [arch + "-" + platform, "rg"]
  {
    if probe != "rg" then
      SearchPath(probe)
    else
      var rgRoot := root + ["vendor", "ripgrep"];
      if platform == "win32" then
        Bundled(rgRoot + ["x64-win32", "rg.exe"])
      else
        Bundled(rgRoot + [arch + "-" + platform, "rg"])
  }

  /** On Windows the architecture plays no part in the choice. */
  lemma WindowsIgnoresArch(probe: string, root: Path, arch1: string, arch2: string)
    ensures RipgrepPath(probe, root, "win32", arch1) == RipgrepPath(probe, root, "win32", arch2)
  {
  }

  /** On every other platform, two architectures never share a bundled executable. */
  lemma OtherPlatformsSeparateArch(root: Path, platform: string, arch1: string, arch2: string)
    requires platform != "win32" && arch1 != arch2
    ensures RipgrepPath("rg", root, platform, arch1) != RipgrepPath("rg", root, platform, arch2)
  {
    var d1, d2 := arch1 + "-" + platform, arch2 + "-" + platform;
    if |arch1| == |arch2| {
      assert d1[..|arch1|] == arch1 && d2[..|arch2|] == arch2;
    }
    var p1, p2 := RipgrepPath("rg", root, platform, arch1), RipgrepPath("rg", root, platform, arch2);
    assert p1.path[|root| + 2] == d1 && p2.path[|root| + 2] == d2;
  }

  /** The development and test root is the parent of the build root. */
  lemma DevRootIsOneLevelHigher(moduleDir: Path)
    ensures RootDir(moduleDir, true) == Parent(RootDir(moduleDir, false))
  {
  }
}
