/**
 * The argument resolution of loco's `main`: the command-line options are laid
 * over the loaded configuration, the destination becomes a `localhost:` rsync
 * target with a trailing `/`, and the rsync argument list is built from the
 * fixed flags, an ssh connection directive, the conditional `--delete`, the
 * source and the target.
 */
module Loco {
  import opened Wrappers
  import opened Decimal

  /** A `u16` port number. */
  type Port = n: nat | n < 0x1_0000

  /** The command line: the source path and three optional overrides. */
  datatype Opt = Opt(path: string, dest: Option<string>, port: Option<Port>, username: Option<string>)

  /** The persisted configuration, as `LocoConfig::new` loads it. */
  datatype LocoConfig = LocoConfig(port: Port, dest: string, username: string)

  /** The three settings `main` works with once the overrides are applied. */
  datatype Settings = Settings(dest: string, port: Port, username: string)

  /** Why `main` stops before building the argument list. */
  datatype Failure =
    | SourceUnresolved                // the source path's metadata could not be read
    | ConfigUnparsed(cause: string)   // `LocoConfig::new` returned an error

  /** The context message `main` attaches to each failure. */
  function Message(f: Failure): (m: string)
    ensures f.SourceUnresolved? <==> m == "Failed to resolve source path"
    ensures f.ConfigUnparsed? <==> m == "Failed to parse config."
  {
    match f
    case SourceUnresolved => "Failed to resolve source path"
    case ConfigUnparsed(_) => "Failed to parse config."
  }

  // ---------------------------------------------------------------------------
  // Settings overlay

  /** Each setting is the command-line value when one was given, otherwise the configured one. */
  function Resolve(opt: Opt, cfg: LocoConfig): (s: Settings)
    ensures opt.dest.Some? ==> s.dest == opt.dest.value
    ensures opt.dest.None? ==> s.dest == cfg.dest
    ensures opt.port.Some? ==> s.port == opt.port.value
    ensures opt.port.None? ==> s.port == cfg.port
    ensures opt.username.Some? ==> s.username == opt.username.value
    ensures opt.username.None? ==> s.username == cfg.username
  {
    Settings(UnwrapOr(opt.dest, cfg.dest), UnwrapOr(opt.port, cfg.port), UnwrapOr(opt.username, cfg.username))
  }

  /** With every override given, the configuration has no influence on the settings. */
  lemma FullOverrideIgnoresConfig(opt: Opt, c1: LocoConfig, c2: LocoConfig)
    requires opt.dest.Some? && opt.port.Some? && opt.username.Some?
    ensures Resolve(opt, c1) == Resolve(opt, c2)
    ensures Resolve(opt, c1) == Settings(opt.dest.value, opt.port.value, opt.username.value)
  {
  }

  /** With no override given, the settings are the configuration's. */
  lemma NoOverrideKeepsConfig(opt: Opt, cfg: LocoConfig)
    requires opt.dest.None? && opt.port.None? && opt.username.None?
    ensures Resolve(opt, cfg) == Settings(cfg.dest, cfg.port, cfg.username)
  {
  }

  // ---------------------------------------------------------------------------
  // Remote target

  const Host: string := "localhost:"

  /** Rust's `str::ends_with('/')`. */
  predicate EndsWithSlash(s: string)
    ensures EndsWithSlash(s) <==> exists p: string :: s == p + "/"
  {
    if |s| > 0 && s[|s| - 1] == '/' then
      assert s == s[..|s| - 1] + "/";
      true
    else
      false
  }

  /** The directory form of a destination: itself when it ends in `/`, else with one `/` added. */
  function DirForm(dest: string): string {
    if EndsWithSlash(dest) then dest else dest + "/"
  }

  /** The rsync target for a destination: `localhost:` and the destination, with a `/` added only when missing. */
  function RemoteTarget(dest: string): (r: string)
    ensures |r| > |Host| && r[..|Host|] == Host
    ensures EndsWithSlash(r)
    ensures EndsWithSlash(dest) ==> r == Host + dest
    ensures !EndsWithSlash(dest) ==> r == Host + dest + "/"
  {
    Host + dest + (if !EndsWithSlash(dest) then "/" else "")
  }

  /** The target is the host prefix followed by the directory form. */
  lemma RemoteTargetIsDirForm(d: string)
    ensures RemoteTarget(d) == Host + DirForm(d)
  {
    if !EndsWithSlash(d) {
      assert Host + d + "/" == Host + (d + "/");
    }
  }

  /** Two destinations give the same target exactly when their directory forms agree. */
  lemma RemoteTargetIdentifies(d1: string, d2: string)
    ensures RemoteTarget(d1) == RemoteTarget(d2) <==> DirForm(d1) == DirForm(d2)
  {
    RemoteTargetIsDirForm(d1);
    RemoteTargetIsDirForm(d2);
    var t1, t2 := Host + DirForm(d1), Host + DirForm(d2);
    assert t1[|Host|..] == DirForm(d1);
    assert t2[|Host|..] == DirForm(d2);
  }

  // ---------------------------------------------------------------------------
  // Connection directive

  const ConnPrefix: string := "-e 'ssh -p"
  const UserFlag: string := " -l"

  /** A `u16` port is written with at most five digits. */
  lemma PortWidth(port: Port)
    ensures |NatToDecimal(port)| <= 5
  {
    DecimalWidth(port, 5);
  }

  /** The `-e` directive naming ssh with the port and the login user. */
  function Connection(port: Port, username: string): (c: string)
    ensures |c| > |ConnPrefix| && c[..|ConnPrefix|] == ConnPrefix && c[|c| - 1] == '\''
    ensures |c| <= |ConnPrefix| + 5 + |UserFlag| + |username| + 1
  {
    PortWidth(port);
    var c := ConnPrefix + NatToDecimal(port) + UserFlag + username + "'";
    assert c[..|ConnPrefix|] == ConnPrefix;
    c
  }

  /** The length of the run of decimal digits at the start of `s`. */
  function DigitSpan(s: string): (k: nat)
    ensures k <= |s| && AllDigits(s[..k])
    ensures k < |s| ==> !IsDigit(s[k])
  {
    if s == [] || !IsDigit(s[0]) then 0
    else
      var k := 1 + DigitSpan(s[1..]);
      assert s[..k] == [s[0]] + s[1..][..k - 1];
      k
  }

  /** A run of digits followed by a non-digit spans exactly the run. */
  lemma {:induction false} DigitSpanOfNumeral(digits: string, tail: string)
    requires AllDigits(digits)
    requires tail != [] && !IsDigit(tail[0])
    ensures DigitSpan(digits + tail) == |digits|
    decreases |digits|
  {
    var s := digits + tail;
    if digits == [] {
      assert s[0] == tail[0];
    } else {
      assert s[0] == digits[0] && IsDigit(s[0]);
      assert s[1..] == digits[1..] + tail;
      DigitSpanOfNumeral(digits[1..], tail);
    }
  }

  /**
   * Reads a connection directive back into its port and user, when it has the
   * directive's shape: the port written without leading zeros, as `{}` writes it.
   */
  function ParseConnection(s: string): Option<(Port, string)> {
    if |s| < |ConnPrefix| || s[..|ConnPrefix|] != ConnPrefix then None
    else
      var rest := s[|ConnPrefix|..];
      var k := DigitSpan(rest);
      var after := rest[k..];
      if k == 0 || (k > 1 && rest[0] == '0') || |after| < |UserFlag| + 1 || after[..|UserFlag|] != UserFlag || after[|after| - 1] != '\'' then None
      else
        var n := DecimalToNat(rest[..k]);
        if n < 0x1_0000 then Some((n, after[|UserFlag|..|after| - 1])) else None
  }

  /** The directive carries the port and the user without loss. */
  lemma ConnectionRoundTrip(port: Port, username: string)
    ensures ParseConnection(Connection(port, username)) == Some((port, username))
  {
    var digits := NatToDecimal(port);
    var tail := UserFlag + username + "'";
    var s := Connection(port, username);
    assert s == ConnPrefix + (digits + tail);
    assert s[..|ConnPrefix|] == ConnPrefix;
    var rest := s[|ConnPrefix|..];
    assert rest == digits + tail;
    DigitSpanOfNumeral(digits, tail);
    var k := DigitSpan(rest);
    assert rest[..k] == digits;
    assert rest[k..] == tail;
    DecimalRoundTrip(port);
  }

  /** The part after the port: the user flag, the user and the closing quote. */
  lemma UserPart(after: string, username: string)
    requires |after| >= |UserFlag| + 1 && after[..|UserFlag|] == UserFlag && after[|after| - 1] == '\''
    requires username == after[|UserFlag|..|after| - 1]
    ensures after == UserFlag + username + "'"
  {
    assert after == after[..|UserFlag|] + after[|UserFlag|..|after| - 1] + [after[|after| - 1]];
  }

  /** The directive as the prefix followed by the port's digits and then the user part. */
  lemma ConnectionParts(port: Port, username: string)
    ensures Connection(port, username) == ConnPrefix + (NatToDecimal(port) + (UserFlag + username + "'"))
  {
    var d := NatToDecimal(port);
    assert ConnPrefix + d + UserFlag + username + "'" == ConnPrefix + (d + (UserFlag + username + "'"));
  }

  /** Whatever the reader accepts is exactly the directive for the port and user it returns. */
  lemma {:induction false} ParseConnectionSound(c: string, port: Port, username: string)
    requires ParseConnection(c) == Some((port, username))
    ensures c == Connection(port, username)
  {
    var rest := c[|ConnPrefix|..];
    var k := DigitSpan(rest);
    var digits := rest[..k];
    var after := rest[k..];
    assert IsCanonical(digits);
    CanonicalRoundTrip(digits);
    assert NatToDecimal(port) == digits;
    UserPart(after, username);
    assert rest == digits + after;
    assert c == ConnPrefix + (digits + after);
    ConnectionParts(port, username);
  }

  /** A zero-padded port is not a directive `main` could have written. */
  lemma ParseRejectsPaddedPort()
    ensures ParseConnection("-e 'ssh -p022 -lalice'") == None
  {
    var rest := "022 -lalice'";
    assert "-e 'ssh -p022 -lalice'"[|ConnPrefix|..] == rest;
    DigitSpanOfNumeral("022", " -lalice'");
    assert rest == "022" + " -lalice'";
  }

  /** Different ports or users never produce the same directive. */
  lemma ConnectionInjective(p1: Port, u1: string, p2: Port, u2: string)
    requires Connection(p1, u1) == Connection(p2, u2)
    ensures p1 == p2 && u1 == u2
  {
    ConnectionRoundTrip(p1, u1);
    ConnectionRoundTrip(p2, u2);
  }

  // ---------------------------------------------------------------------------
  // rsync argument list

  /** `--delete` when the source names the directory itself (no trailing `/`), nothing otherwise. */
  function DeleteFlag(source: string): (f: seq<string>)
    ensures f == [] || f == ["--delete"]
    ensures "--delete" in f <==> !EndsWithSlash(source)
  {
    if EndsWithSlash(source) then [] else ["--delete"]
  }

  /** The rsync argument list: `-r -n <connection> [--delete] <source> <target>`. */
  function RsyncArgs(source: string, s: Settings): (a: seq<string>)
    ensures |a| == (if EndsWithSlash(source) then 5 else 6)
    ensures a[..3] == ["-r", "-n", Connection(s.port, s.username)]
    ensures |a| == 6 ==> a[3] == "--delete"
    ensures a[|a| - 2] == source && a[|a| - 1] == RemoteTarget(s.dest)
  {
    ["-r", "-n", Connection(s.port, s.username)] + DeleteFlag(source) + [source, RemoteTarget(s.dest)]
  }

  /** Builds the list as `main` does: three fixed tokens, then pushes. */
  method BuildArgs(source: string, s: Settings) returns (args: seq<string>)
    ensures args == RsyncArgs(source, s)
  {
    var target := RemoteTarget(s.dest);
    var connection := Connection(s.port, s.username);
    args := ["-r", "-n", connection];
    if !EndsWithSlash(source) {
      args := args + ["--delete"];
    }
    args := args + [source];
    args := args + [target];
  }

  /** `--delete` is passed exactly when the source lacks a trailing `/`; the destination plays no part. */
  lemma DeleteFlagIff(source: string, s: Settings)
    ensures "--delete" in RsyncArgs(source, s) <==> !EndsWithSlash(source)
  {
  }

  // ---------------------------------------------------------------------------
  // main

  /**
   * `main` up to spawning rsync: the source must exist (checked first), the
   * configuration must load, and then the settings are resolved and the
   * argument list built. Whether the source exists and what loading the
   * configuration returned are inputs.
   */
  method Run(opt: Opt, sourceExists: bool, loaded: Result<LocoConfig, string>) returns (r: Result<seq<string>, Failure>)
    ensures !sourceExists ==> r == Err(SourceUnresolved)
    ensures sourceExists && loaded.Err? ==> r == Err(ConfigUnparsed(loaded.error))
    ensures sourceExists && loaded.Ok? ==> r == Ok(RsyncArgs(opt.path, Resolve(opt, loaded.value)))
    ensures r.Err? ==> Message(r.error) == if sourceExists then "Failed to parse config." else "Failed to resolve source path"
  {
    if !sourceExists {
      return Err(SourceUnresolved);
    }
    if loaded.Err? {
      return Err(ConfigUnparsed(loaded.error));
    }
    var settings := Resolve(opt, loaded.value);
    var args := BuildArgs(opt.path, settings);
    return Ok(args);
  }

  /** A source without a trailing `/`, port 2222, user alice, destination /backup. */
  lemma ScenarioDirectoryItself()
    ensures RsyncArgs("/home/user/docs", Settings("/backup", 2222, "alice"))
         == ["-r", "-n", "-e 'ssh -p2222 -lalice'", "--delete", "/home/user/docs", "localhost:/backup/"]
  {
    assert NatToDecimal(2222) == "2222";
    assert Connection(2222, "alice") == "-e 'ssh -p2222 -lalice'";
    assert RemoteTarget("/backup") == "localhost:/backup/";
  }

  /** A source with a trailing `/` and the port taken from a configuration that says 22. */
  lemma ScenarioDirectoryContents()
    ensures var s := Resolve(Opt("/home/user/docs/", None, None, None), LocoConfig(22, "/backup", "alice"));
      && s.port == 22
      && RsyncArgs("/home/user/docs/", s)
         == ["-r", "-n", "-e 'ssh -p22 -lalice'", "/home/user/docs/", "localhost:/backup/"]
  {
    assert NatToDecimal(22) == "22";
    assert Connection(22, "alice") == "-e 'ssh -p22 -lalice'";
    assert RemoteTarget("/backup") == "localhost:/backup/";
  }
}
