/** Path helpers of the plugin host (src/utils.rs).

    `separator` is chosen at compile time by `target_os`; `safe_path` tests
    the `cfg!` flags `windows`, `macos` and `linux` at compile time.  Both are
    modelled as functions of the target and of those flags. */
module PathUtils {

  /** The targets for which `separator` is defined. */
  datatype Platform = Linux | MacOS | Windows

  /** The values of `cfg!(windows)`, `cfg!(macos)` and `cfg!(linux)`. */
  datatype CfgFlags = CfgFlags(windows: bool, macos: bool, linux: bool)

  /** The flags rustc sets for a target: `windows` on Windows targets.  Bare
      `macos` and `linux` are not set by rustc (it sets `target_os = "..."`),
      so they are false on every target. */
  function RustcCfg(p: Platform): CfgFlags
  {
    CfgFlags(p == Windows, false, false)
  }

  const WindowsPath: char := '\\'
  const UnixPath: char := '/'

  /** The path separator of the target platform. */
  function Separator(p: Platform): (sep: string)
    ensures |sep| == 1
    ensures sep[0] == WindowsPath <==> p == Windows
    ensures sep[0] == UnixPath <==> p != Windows
  {
    if p == Windows then [WindowsPath] else [UnixPath]
  }

  /** `str::replace` with one-character patterns: every occurrence of `from`
      becomes `to`, everything else stays where it was. */
  function ReplaceChar(s: string, from: char, to: char): (r: string)
    ensures |r| == |s|
    ensures forall i :: 0 <= i < |s| ==> r[i] == (if s[i] == from then to else s[i])
  {
    if s == [] then []
    else [if s[0] == from then to else s[0]] + ReplaceChar(s[1..], from, to)
  }

  /** Normalise the separators of a path for the target the flags describe. */
  function SafePath(path: string, cfg: CfgFlags): (r: string)
    ensures |r| == |path|
    ensures forall i :: 0 <= i < |path| && path[i] != UnixPath && path[i] != WindowsPath ==> r[i] == path[i]
    ensures cfg.windows && !(cfg.macos || cfg.linux) ==> UnixPath !in r
    ensures cfg.macos || cfg.linux ==> WindowsPath !in r
  {
    var np := if cfg.windows then ReplaceChar(path, UnixPath, WindowsPath) else path;
    if cfg.macos || cfg.linux then ReplaceChar(np, WindowsPath, UnixPath) else np
  }

  /** On Windows every `/` becomes `\` and nothing else changes. */
  lemma SafePathOnWindows(path: string)
    ensures var r := SafePath(path, RustcCfg(Windows));
      && |r| == |path|
      && UnixPath !in r
      && forall i :: 0 <= i < |path| ==> r[i] == (if path[i] == UnixPath then WindowsPath else path[i])
  {
  }

  /** With rustc's flags on Linux and macOS neither substitution fires, so the
      path is returned unchanged; in particular a `\` is not turned into `/`. */
  lemma SafePathIdentityOffWindows(path: string, p: Platform)
    requires p != Windows
    ensures SafePath(path, RustcCfg(p)) == path
  {
  }

  /** Once normalised, the only separator character left on Windows is the
      platform's own separator. */
  lemma SafePathUsesSeparator(path: string, i: nat)
    requires i < |path|
    requires path[i] == UnixPath || path[i] == WindowsPath
    ensures SafePath(path, RustcCfg(Windows))[i] == Separator(Windows)[0]
  {
  }

  /** Each substitution removes the character it replaces, so normalising a
      normalised path changes nothing, whatever the flags. */
  lemma SafePathIdempotent(path: string, cfg: CfgFlags)
    ensures SafePath(SafePath(path, cfg), cfg) == SafePath(path, cfg)
  {
  }
}
