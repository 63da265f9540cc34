# headr — a verified model of the core of a Rust `head` clone

This project models the core of `headr` (`solutions/headr/src/lib.rs`), a
Rust re-implementation of the Unix `head` utility:

- `parse_positive_int`, the validator for the `-n`/`-c` option values:
  Rust's `str::parse::<usize>` followed by a check that the number is not
  zero, with the input string itself as the error message
  (`positive_int.dfy`);
- `open`, which resolves a source name to standard input (`"-"`) or a file
  (`source.dfy`);
- the emission loop of `run`: for each source name in order, a failed open is
  reported on standard error and skipped; an opened source gets a banner
  `==> name <==` before its first line (preceded by a blank line unless it is
  at position 0 of the list) and then at most `lines` of its lines; a read
  error ends the whole run with `Err` (`emission.dfy`, properties in
  `emission_properties.dfy`).

The operating system is not modelled. What opening and reading the `i`-th
name yields is an input value `sources[i]`: either `OpenError(msg)` or
`Lines(ls)`, where each line is `Text(t)` or `ReadError(msg)`. Standard output
and standard error are sequences of the lines `println!`/`eprintln!` write.
The banner `println!` with its `"\n"` prefix writes two lines, `""` and the
banner.

`Emission.Run` is an imperative method with the source's two loops: the
`for` over the names with its `fileNum` counter, and the enumerate loop over
the lines (`Emission.EmitLines`). It is proved to produce exactly
`Emission.Head(config, sources)`. That is a pure specification built from
per-source contributions: `Emission.SourceStdout` (lib.rs lines 99-117, the
banner and body an opened source prints) and `Emission.SourceStderr` (lines
97-98, the report of a failed open), joined in list order. `EmitLines` is
proved equal to `SourceStdout`, and the lemmas in `EmissionProperties` are
proved about these definitions.

Interpretations of the code:

- Line 106 of lib.rs reads `if config.lines`, which does not type-check
  because `lines` is a `usize`. The model takes the line branch whenever no
  byte count is given. clap's `conflicts_with` (line 64) makes the two options
  exclusive.
- In byte mode the code prints nothing for the body (`print!("")`, lines
  110-113), so the model prints banners only, although `head -c` is meant
  to print the first bytes of each source.
- The code prints a banner for every opened non-empty source, even when there
  is only one source, where `head` prints banners only for several sources.
  The model follows the code.
- A read error ends the run through `?` (line 105), where `head` would report
  it and go on with the next source. The model follows the code.
- The enumerate loop reads every line of a source, even past the limit. A
  read error after the last printed line therefore still ends the run.
- `usize` is taken to be 64 bits wide.

## Model

| member | source | states |
|---|---|---|
| PositiveInt.ParseUsize | solutions/headr/src/lib.rs:23 | `str::parse::<usize>`: optional `+`, at least one digit and nothing else; any accepted value is at most `usize::MAX` |
| PositiveInt.ParsePositiveInt | solutions/headr/src/lib.rs:22-27 | an accepted value lies in 1..`usize::MAX`; on rejection the error message is the input string itself |
| PositiveInt.ParsePositiveIntAccepts | solutions/headr/src/lib.rs:22-27 | `Ok(n)` if and only if the string is leading zeros plus the decimal rendering of a positive `usize` `n`, optionally after one `+`: exactly the strings `str::parse::<usize>` reads as a number above zero |
| PositiveInt.AcceptedDenotes | solutions/headr/src/lib.rs:23-24 | every accepted string has that shape for the returned number |
| PositiveInt.DenotedAccepted | solutions/headr/src/lib.rs:23-24 | every string of that shape is accepted with that number |
| PositiveInt.ParsePositiveIntRejects | solutions/headr/src/lib.rs:25 | `Err(s)` with the input as message if and only if the string denotes no positive `usize` (non-numeric, zero, overflow) |
| PositiveInt.ParsePositiveIntRoundTrip | solutions/headr/src/lib.rs:22-27 | parsing the decimal rendering of any positive `usize` gives it back |
| PositiveInt.ParsePositiveIntOverflow | solutions/headr/src/lib.rs:23-25 | `usize::MAX + 1` overflows and is rejected with itself as the message |
| PositiveInt.ParsePositiveIntExamples | solutions/headr/src/lib.rs:29-43 | the unit test: `"3"` gives 3, `"foo"` and `"0"` are errors whose message is the input |
| PositiveInt.ValueIgnoresLeadingZeros | solutions/headr/src/lib.rs:23 | leading zeros do not change the value of a digit string |
| PositiveInt.DecimalOfValue | solutions/headr/src/lib.rs:23 | a digit string without a leading zero is the rendering of its own value |
| PositiveInt.SplitLeadingZeros | solutions/headr/src/lib.rs:23 | a digit string of positive value is leading zeros followed by the rendering of its value |
| Source.Open | solutions/headr/src/lib.rs:15-19 | `"-"` and only `"-"` resolves to standard input; every other name is the file of exactly that name |
| Source.OpenName | solutions/headr/src/lib.rs:15-19 | the input a name resolves to is designated by that same name |
| Source.NameOpen | solutions/headr/src/lib.rs:15-19 | every input except a file literally named `-` is what its own name resolves to |
| Emission.Banner | solutions/headr/src/lib.rs:102 | the banner ends with `==> name <==` and has a blank line before it unless the position is 0 |
| Emission.FirstReadError | solutions/headr/src/lib.rs:100-105 | the position where `?` stops reading: all lines before it are readable, the line at it is a read error |
| Emission.Texts | solutions/headr/src/lib.rs:108 | readable lines are printed unchanged, one output line each, in order |
| Emission.Body | solutions/headr/src/lib.rs:106-113 | line mode prints the first `min(lines, k)` lines read, unchanged and in order; byte mode prints none; never more than `lines` |
| Emission.FirstFailing | solutions/headr/src/lib.rs:96-105 | the first source whose reading hits a read error |
| Emission.UpToStep | solutions/headr/src/lib.rs:96-120 | handling one more source appends its contribution to each stream |
| Emission.BodyStep | solutions/headr/src/lib.rs:106-109 | reading one more line adds it to the body exactly in line mode below the limit |
| Emission.FailingEndsRun | solutions/headr/src/lib.rs:105 | a read error in the source reached ends the run with that message and the streams printed so far |
| Emission.EmitLines | solutions/headr/src/lib.rs:99-117 | the enumerate loop prints that source's banner and body and reports its first read error, if any |
| Emission.Run | solutions/headr/src/lib.rs:94-123 | `run` writes exactly the specified standard output and standard error and returns the specified result |
| EmissionProperties.FlattenPrefix | solutions/headr/src/lib.rs:96 | what the first sources print is a prefix of what more sources print |
| EmissionProperties.StdoutSegment | solutions/headr/src/lib.rs:96-120 | in the run's standard output, source `i`'s contribution comes right after that of sources `0..i` |
| EmissionProperties.StderrSegment | solutions/headr/src/lib.rs:96-120 | likewise on standard error |
| EmissionProperties.OpenFailureReported | solutions/headr/src/lib.rs:97-98 | a failed open adds exactly one `name: message` entry to standard error and nothing to standard output, and the run goes on |
| EmissionProperties.RunGoesOn | solutions/headr/src/lib.rs:96-120 | a handled source without a read error is followed by the next one |
| EmissionProperties.BannerPlacement | solutions/headr/src/lib.rs:95-120 | an opened non-empty source has its banner in the output, right before its body, with a blank line just before it if and only if its position (failed opens counted) is not 0 |
| EmissionProperties.SegmentShape | solutions/headr/src/lib.rs:100-113 | what such a source prints is: optional blank line, banner, body |
| EmissionProperties.EmptySourcePrintsNothing | solutions/headr/src/lib.rs:100-102 | an opened empty source prints nothing, not even a banner, and does not end the run |
| EmissionProperties.LineModeBody | solutions/headr/src/lib.rs:100-108 | in line mode a readable source prints exactly its first `min(lines, length)` lines |
| EmissionProperties.ReadErrorEndsRun | solutions/headr/src/lib.rs:101-105 | the first read error makes `run` return `Err` with its message; the run handles exactly the sources up to and including it; the banner is already out when the first line fails |
| EmissionProperties.UpToDependsOnPrefix | solutions/headr/src/lib.rs:96 | what the first `n` sources print depends only on them, their names and the limits |
| EmissionProperties.LaterSourcesIgnored | solutions/headr/src/lib.rs:105 | after a read error no later source is looked at: changing later sources does not change the outcome |
| EmissionProperties.StderrCountsOpenErrors | solutions/headr/src/lib.rs:97-98 | standard error has exactly one entry per handled source that failed to open |
| EmissionProperties.SourceStdoutBound | solutions/headr/src/lib.rs:100-113 | one source prints at most a blank line, a banner and `lines` body lines |
| EmissionProperties.StdoutBound | solutions/headr/src/lib.rs:96-120 | `n` sources print at most `n` times that many lines |
| EmissionProperties.NoneFailing | solutions/headr/src/lib.rs:96-122 | without read errors every source is handled |
| EmissionProperties.TwoSourcesExample | solutions/headr/src/lib.rs:94-123 | two readable sources, limit 2: banner, two lines, blank line, banner, two lines, `Ok` |
| EmissionProperties.FailedFirstSourceStillCounts | solutions/headr/src/lib.rs:97-120 | after a failed first source the next banner still gets its blank line |
| EmissionProperties.SingleSourceHasBanner | solutions/headr/src/lib.rs:102 | a single source still gets a banner |
| EmissionProperties.ReadErrorPastLimit | solutions/headr/src/lib.rs:100-109 | a read error after the limit still ends the run, and the next source is not handled |
| EmissionProperties.ByteModeBannerOnly | solutions/headr/src/lib.rs:110-113 | in byte mode a source prints its banner and no body |

## Left out

- `get_args` (lib.rs lines 45-92): argument parsing through clap, a library that is not part of this model. `Config` is taken as already parsed, and so are the `illegal line count` / `illegal byte count` messages built there.
- The `catr` crate: it only parses arguments and debug-prints them.
- Real I/O: `File::open`, `BufReader`, `io::stdin`, the line splitting of `BufRead::lines` and the text of OS error messages. These are inputs (`Source.Opened`, `Source.Line`).
- Reading standard input twice when `"-"` is named more than once: each occurrence is an independent input value.
- Byte-limited output: the code prints no body in byte mode, so there is no truncation to model.
- Interleaving of the two streams: standard output and standard error are two separate sequences, so the order in which `eprintln!` (line 98) and `println!` (lines 102, 108) writes mix on a shared terminal is not captured.
- Write failures: `println!` and `eprintln!` panic when a write fails (a closed pipe, say); the model has no such path.
- Exit codes and the way `main` prints the returned error: `Run` returns the error's message.
- Emission.Run: requires that `"-"` never fails to open, because `open` wraps standard input without a fallible call (line 17). It models the counters as unbounded: `file_num` (line 95) is an `i32`, Rust's default integer type, and would overflow after 2^31 - 1 sources; `line_num` from `enumerate` is a `usize` and would overflow after 2^64 - 1 lines. Both counts are out of reach.
