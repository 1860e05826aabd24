# loco: argument resolution and rsync command construction

loco hands a local directory to rsync, to be copied to a destination over ssh.
The argument list always carries `-n`, rsync's dry-run flag. As written, the
program therefore runs a trial transfer that reports what would be copied and
changes nothing. The logic of its `main` is small. It lays the optional
positional arguments `dest`, `port` and `username` over the loaded `LocoConfig`. It turns the destination into an rsync
target `localhost:<dest>/`. It then builds the rsync argument list
`-r -n -e 'ssh -p<port> -l<username>' [--delete] <source> <target>`, where
`--delete` is passed only when the source has no trailing `/`.

The model has three modules:

- `Wrappers` (wrappers.dfy): Rust's `Option` and `Result`, and `Option::unwrap_or`.
- `Decimal` (decimal.dfy): the decimal text that `{}` formatting gives a port
  number, and its inverse.
- `Loco` (loco.dfy): the `Opt` and `LocoConfig` records, the settings overlay,
  the remote target, the connection directive, the argument builder and `main`
  up to the point where rsync is spawned.

The port is the subset type `Port` (`0 <= n < 65536`), the range of a Rust `u16`.
Paths and the user name are `string`.

The argument builder is a method, `BuildArgs`. It starts from the three fixed
tokens and appends to a sequence, as `main` pushes onto its `Vec`. It is proved
equal to the pure function `RsyncArgs`. The properties of the list are then
proved about `RsyncArgs`.

Two inputs come from I/O and are parameters of `Run`: whether the source path
exists, and what `LocoConfig::new` returned.

In three places the code does less, or other, than one might expect of such a tool. The model follows the code:

- Ports: both port fields are `u16`, so port 0 is accepted and passed through,
  although it is not a usable ssh port.
- Missing settings: every field of `LocoConfig` is required, and a command-line
  override does not make up for a field the configuration lacks. A configuration without, say, `dest` therefore fails
  to load, and `main` stops with "Failed to parse config." even when `dest` was
  given on the command line. `Run` states this: a failed load is an error
  whatever `opt` holds.
- Scope of a run: the code takes one source path. It has no verbosity flag, and
  it does not look at rsync's exit status.

## Model

| member | source | states |
|---|---|---|
| Wrappers.UnwrapOr | src/main.rs:49-51 | `unwrap_or` yields the carried value for `Some` and the fallback for `None` |
| Loco.Resolve | src/main.rs:49-51 | each of dest, port and username equals the command-line value when it was supplied and the configured value when it was not; the port stays a `u16` by its type |
| Loco.FullOverrideIgnoresConfig | src/main.rs:49-51 | with all three overrides given, any two configurations resolve to the same settings, namely the overrides |
| Loco.NoOverrideKeepsConfig | src/main.rs:49-51 | with no override given, the settings are exactly the configuration's fields |
| Decimal.NatToDecimal | src/main.rs:71 | the port's text is a non-empty string of decimal digits with no leading zero except for "0" itself |
| Decimal.DecimalRoundTrip | src/main.rs:71 | reading the port's decimal text back gives the port |
| Decimal.NatToDecimalInjective | src/main.rs:71 | distinct ports have distinct decimal texts |
| Loco.EndsWithSlash | src/main.rs:60 | `ends_with('/')` holds exactly when the string is some string followed by one `/`; the same test is used on the source at src/main.rs:74 |
| Loco.RemoteTarget | src/main.rs:57-65 | the target starts with `localhost:` and ends with `/`; it is `localhost:` + dest when dest ends in `/` (no doubled separator), and `localhost:` + dest + `/` otherwise (exactly one added) |
| Loco.RemoteTargetIdentifies | src/main.rs:57-65 | two destinations give the same target if and only if they agree once each carries its trailing `/` |
| Loco.Connection | src/main.rs:71 | the directive starts with `-e 'ssh -p`, ends with `'`, and is at most 19 characters longer than the user name, since a `u16` port takes at most five digits; its exact content is fixed by `ConnectionRoundTrip` together with `ParseConnectionSound`: the reader accepts only a port written without leading zeros, and every string it accepts is `Connection` of what it returns |
| Loco.PortWidth | src/main.rs:15 | a `u16` port is written with at most five decimal digits |
| Decimal.DecimalWidth | src/main.rs:71 | a number below 10^k is written with at most k digits (one when k = 0) |
| Loco.ConnectionRoundTrip | src/main.rs:71 | the connection directive `-e 'ssh -p<port> -l<username>'` can be read back into exactly the port and the user it was built from |
| Loco.ParseConnectionSound | src/main.rs:71 | any string the reader accepts as a port and user is exactly the directive `-e 'ssh -p<decimal port> -l<username>'` for them, so printing and reading the directive are inverses |
| Loco.ParseRejectsPaddedPort | src/main.rs:71 | a port written with a leading zero (`-p022`) is not read as a directive, since `{}` never writes one |
| Decimal.CanonicalRoundTrip | src/main.rs:71 | every digit string without leading zeros (or "0") is exactly the text written for its value |
| Loco.ConnectionInjective | src/main.rs:71 | different ports or users never produce the same connection directive |
| Loco.BuildArgs | src/main.rs:72-79 | starting from `-r`, `-n`, the connection, pushing `--delete` when the source lacks a trailing `/`, then the source and the target, produces exactly `RsyncArgs` |
| Loco.RsyncArgs | src/main.rs:72-79 | the list begins `-r`, `-n`, connection; it ends with the source followed by the remote target; it has 6 tokens with `--delete` fourth when the source lacks a trailing `/`, and 5 otherwise (`DeleteFlagIff` adds that no token is `--delete` when the source ends in `/`) |
| Loco.DeleteFlag | src/main.rs:74-76 | the conditional push adds either nothing or the single token `--delete`, and adds `--delete` exactly when the source does not end in `/` |
| Loco.DeleteFlagIff | src/main.rs:74-76 | `--delete` occurs in the list if and only if the source does not end in `/`; the destination plays no part |
| Loco.Run | src/main.rs:43-79 | a missing source fails with the source error first; otherwise a configuration that fails to load fails with the config error, whatever the overrides; otherwise the result is the argument list for the source and the resolved settings; a failure carries the context message of the step that failed |
| Loco.Message | src/main.rs:43-46 | the source failure, and only it, reads "Failed to resolve source path"; the configuration failure, and only it, reads "Failed to parse config." |
| Loco.ScenarioDirectoryItself | src/main.rs:57-79 | source `/home/user/docs`, dest `/backup`, port 2222, user alice give `-r -n "-e 'ssh -p2222 -lalice'" --delete /home/user/docs localhost:/backup/` |
| Loco.ScenarioDirectoryContents | src/main.rs:49-79 | with no overrides and a configured port 22, a source ending in `/` gives port 22 and a five-token list without `--delete` |

## Left out

- `LocoConfig::new` (src/main.rs:27-38): it reads the XDG configuration file and `LOCO_` environment variables through external crates whose merge rules are not visible here. The loaded configuration, or its error, is an input to `Run`.
- The source-existence check (`std::fs::metadata`, src/main.rs:43) is filesystem I/O. `Run` takes its outcome as a boolean.
- Spawning rsync, the "Failed to launch rsync command" error, and copying rsync's stdout and stderr (src/main.rs:82-85) are process and stream I/O.
- The spinner and the debug print of the argument list (src/main.rs:54, 81, 88) are terminal presentation.
- The `to_str().unwrap()` panics on paths that are not valid UTF-8 (src/main.rs:53, 69): paths are modelled as strings.
- Command-line parsing by `structopt` (src/main.rs:10-17, 42): `Opt` is modelled as an already-parsed record. `dest`, `port` and `username` are optional positional arguments, so a port can only be given after a dest, and a username only after both. `Opt` allows every combination of present and absent overrides. The contracts hold for all of them, including the ones the command line cannot produce.
