/**
  The emission loop of headr's `run` (solutions/headr/src/lib.rs): for each
  source name in order, report an open failure on standard error, or print a
  banner and at most `lines` lines of the source on standard output; a read
  error ends the whole run.

  Standard output is modelled as the sequence of lines `println!` writes, each
  of which the terminal shows followed by a newline; standard error likewise.

  Mode selection: line 106 of lib.rs reads `if config.lines`, which does
  not type-check because `lines` is a `usize`. The model takes the line branch
  as the mode used when no byte count is given; clap's `conflicts_with` makes
  the two options exclusive. In byte mode lib.rs prints nothing for the
  body (`print!("")`, lines 110-113), so byte mode prints banners only.
 */
module Emission {
  import opened Results
  import opened Source

  /** The already-parsed configuration: source names, the line limit and the optional byte limit. */
  datatype Config = Config(files: seq<string>, lines: nat, bytes: Option<nat>)

  /** Line mode is the branch taken when no byte count was given. */
  predicate LineMode(config: Config) {
    config.bytes.None?
  }

  function Min(a: nat, b: nat): nat {
    if a < b then a else b
  }

  /** The text of the banner line for a source. */
  function BannerText(name: string): string {
    "==> " + name + " <=="
  }

  /**
    What the banner `println!` writes for the source at position `fileNum`:
    a blank line first unless `fileNum` is zero, then the banner line.
   */
  function Banner(name: string, fileNum: nat): (r: seq<string>)
    ensures |r| == if fileNum == 0 then 1 else 2
    ensures r[|r| - 1] == BannerText(name)
    ensures fileNum != 0 ==> r[0] == ""
  {
    if fileNum != 0 then ["", BannerText(name)] else [BannerText(name)]
  }

  /** The position of the first read error among the lines, or their count when there is none. */
  function FirstReadError(ls: seq<Line>): (k: nat)
    ensures k <= |ls|
    ensures forall j :: 0 <= j < k ==> ls[j].Text?
    ensures k < |ls| ==> ls[k].ReadError?
  {
    if |ls| == 0 then 0
    else if ls[0].ReadError? then 0
    else 1 + FirstReadError(ls[1..])
  }

  /** The texts of lines that are all readable, unchanged and in order. */
  function Texts(ls: seq<Line>): (r: seq<string>)
    requires forall j :: 0 <= j < |ls| ==> ls[j].Text?
    ensures |r| == |ls|
    ensures forall j :: 0 <= j < |ls| ==> r[j] == ls[j].text
  {
    if |ls| == 0 then [] else [ls[0].text] + Texts(ls[1..])
  }

  /**
    The body lines printed for a source once its first `k` lines, all readable,
    have been read: in line mode the first `lines` of them, in byte mode none.
   */
  function Body(config: Config, ls: seq<Line>, k: nat): (r: seq<string>)
    requires k <= |ls|
    requires forall j :: 0 <= j < k ==> ls[j].Text?
    ensures LineMode(config) ==> |r| == Min(config.lines, k)
    ensures !LineMode(config) ==> r == []
    ensures |r| <= config.lines && |r| <= k
    ensures forall j :: 0 <= j < |r| ==> r[j] == ls[j].text
  {
    if LineMode(config) then Texts(ls[..Min(config.lines, k)]) else []
  }

  /** A source whose reading hits a read error. */
  predicate Failing(src: Opened) {
    src.Lines? && FirstReadError(src.lines) < |src.lines|
  }

  /** The message of the first read error of a failing source. */
  function FailureMessage(src: Opened): string
    requires Failing(src)
  {
    src.lines[FirstReadError(src.lines)].msg
  }

  /**
    What the source `name`, at position `fileNum` in the list, adds to
    standard output: nothing if it failed to open or is empty, otherwise its
    banner and the body lines read before its first read error.
   */
  function SourceStdout(config: Config, name: string, fileNum: nat, src: Opened): seq<string> {
    match src
    case OpenError(_) => []
    case Lines(ls) =>
      if |ls| == 0 then [] else Banner(name, fileNum) + Body(config, ls, FirstReadError(ls))
  }

  /** What the source `name` adds to standard error: `name: message` when it failed to open. */
  function SourceStderr(name: string, src: Opened): seq<string> {
    match src
    case OpenError(msg) => [name + ": " + msg]
    case Lines(_) => []
  }

  /** The parts joined end to end, in order. */
  function Flatten(parts: seq<seq<string>>): seq<string> {
    if |parts| == 0 then [] else Flatten(parts[..|parts| - 1]) + parts[|parts| - 1]
  }

  /** Joining one more part appends it at the end. */
  lemma FlattenStep(parts: seq<seq<string>>, n: nat)
    requires n < |parts|
    ensures Flatten(parts[..n + 1]) == Flatten(parts[..n]) + parts[n]
  {
    assert parts[..n + 1][..n] == parts[..n];
  }

  /** What each source, in list order, adds to standard output when it is handled. */
  function StdoutParts(config: Config, sources: seq<Opened>): seq<seq<string>>
    requires |sources| == |config.files|
  {
    seq(|sources|, i requires 0 <= i < |sources| => SourceStdout(config, config.files[i], i, sources[i]))
  }

  /** What each source, in list order, adds to standard error when it is handled. */
  function StderrParts(config: Config, sources: seq<Opened>): seq<seq<string>>
    requires |sources| == |config.files|
  {
    seq(|sources|, i requires 0 <= i < |sources| => SourceStderr(config.files[i], sources[i]))
  }

  /** Standard output after the first `n` sources have been handled in list order. */
  function StdoutUpTo(config: Config, sources: seq<Opened>, n: nat): seq<string>
    requires |sources| == |config.files| && n <= |sources|
  {
    Flatten(StdoutParts(config, sources)[..n])
  }

  /** Standard error after the first `n` sources have been handled in list order. */
  function StderrUpTo(config: Config, sources: seq<Opened>, n: nat): seq<string>
    requires |sources| == |config.files| && n <= |sources|
  {
    Flatten(StderrParts(config, sources)[..n])
  }

  /** Handling source `n` appends its contributions to both streams. */
  lemma UpToStep(config: Config, sources: seq<Opened>, n: nat)
    requires |sources| == |config.files| && n < |sources|
    ensures StdoutUpTo(config, sources, n + 1) ==
      StdoutUpTo(config, sources, n) + SourceStdout(config, config.files[n], n, sources[n])
    ensures StderrUpTo(config, sources, n + 1) ==
      StderrUpTo(config, sources, n) + SourceStderr(config.files[n], sources[n])
  {
    FlattenStep(StdoutParts(config, sources), n);
    FlattenStep(StderrParts(config, sources), n);
  }

  /** The position of the first failing source, or the number of sources when none fails. */
  function FirstFailing(sources: seq<Opened>): (k: nat)
    ensures k <= |sources|
    ensures forall j :: 0 <= j < k ==> !Failing(sources[j])
    ensures k < |sources| ==> Failing(sources[k])
  {
    if |sources| == 0 then 0
    else if Failing(sources[0]) then 0
    else 1 + FirstFailing(sources[1..])
  }

  /** How many sources the run handles: all of them, or up to and including the first failing one. */
  function Processed(sources: seq<Opened>): (n: nat)
    ensures n <= |sources|
  {
    var f := FirstFailing(sources);
    if f < |sources| then f + 1 else |sources|
  }

  /** Everything a run leaves behind: both output streams and the value `run` returns. */
  datatype RunOutcome = RunOutcome(stdout: seq<string>, stderr: seq<string>, status: Result<(), string>)

  /** Standard output of a whole run: that of the sources it handles, in list order. */
  function Output(config: Config, sources: seq<Opened>): seq<string>
    requires |sources| == |config.files|
  {
    StdoutUpTo(config, sources, Processed(sources))
  }

  /** Standard error of a whole run: that of the sources it handles, in list order. */
  function Errors(config: Config, sources: seq<Opened>): seq<string>
    requires |sources| == |config.files|
  {
    StderrUpTo(config, sources, Processed(sources))
  }

  /** What `run` returns: the first read error, if some source has one. */
  function Status(sources: seq<Opened>): Result<(), string> {
    var f := FirstFailing(sources);
    if f < |sources| then Err(FailureMessage(sources[f])) else Ok(())
  }

  /** The specification of `run`: both output streams and the returned value. */
  function Head(config: Config, sources: seq<Opened>): RunOutcome
    requires |sources| == |config.files|
  {
    RunOutcome(Output(config, sources), Errors(config, sources), Status(sources))
  }

  /** Reading one more readable line adds its text to the body exactly when line mode is on and the limit is not reached. */
  lemma BodyStep(config: Config, ls: seq<Line>, k: nat)
    requires k < |ls|
    requires forall j :: 0 <= j <= k ==> ls[j].Text?
    ensures Body(config, ls, k + 1) ==
      Body(config, ls, k) + (if LineMode(config) && k < config.lines then [ls[k].text] else [])
  {
  }

  /** A failing source reached by the run is the first failing one, and the last one handled. */
  lemma FailingEndsRun(config: Config, sources: seq<Opened>, i: nat)
    requires |sources| == |config.files| && i < |sources|
    requires i <= FirstFailing(sources) && Failing(sources[i])
    ensures FirstFailing(sources) == i && Processed(sources) == i + 1
    ensures Head(config, sources) ==
      RunOutcome(StdoutUpTo(config, sources, i + 1), StderrUpTo(config, sources, i + 1), Err(FailureMessage(sources[i])))
  {
  }

  /**
    The arm of `run` for a source that opened (lib.rs lines 99-117): the
    enumerate loop over all of its lines, printing the banner on line 0, then
    the `?` on each line, then the line itself in line mode when it is below
    the limit. `failure` is the read error the `?` propagates, if any.
   */
  method EmitLines(config: Config, name: string, fileNum: nat, ls: seq<Line>)
    returns (failure: Option<string>, printed: seq<string>)
    ensures printed == SourceStdout(config, name, fileNum, Lines(ls))
    ensures failure.Some? <==> Failing(Lines(ls))
    ensures failure.Some? ==> failure.value == FailureMessage(Lines(ls))
  {
    printed := [];
    for lineNum := 0 to |ls|
      invariant forall j :: 0 <= j < lineNum ==> ls[j].Text?
      invariant printed == if lineNum == 0 then [] else Banner(name, fileNum) + Body(config, ls, lineNum)
    {
      if lineNum == 0 {
        printed := printed + Banner(name, fileNum);
      }
      match ls[lineNum] {
        case ReadError(msg) =>
          assert FirstReadError(ls) == lineNum;
          return Some(msg), printed;
        case Text(line) =>
          if config.bytes.None? {
            if lineNum < config.lines {
              printed := printed + [line];
            }
          }
          BodyStep(config, ls, lineNum);
      }
    }
    assert FirstReadError(ls) == |ls|;
    failure := None;
  }

  /**
    `run`: `sources[i]` is what opening and reading `config.files[i]` yields.
    The counter `fileNum` goes up once per source, failed opens included, and
    decides whether a banner gets a blank line before it. Every line of an
    opened source is read, even past the limit, so a read error after the
    limit still ends the run.
   */
  method Run(config: Config, sources: seq<Opened>) returns (status: Result<(), string>, stdout: seq<string>, stderr: seq<string>)
    requires |sources| == |config.files|
    requires StdinOpens(config.files, sources)
    ensures RunOutcome(stdout, stderr, status) == Head(config, sources)
  {
    stdout, stderr := [], [];
    var fileNum: nat := 0;
    for i := 0 to |config.files|
      invariant fileNum == i
      invariant i <= FirstFailing(sources)
      invariant stdout == StdoutUpTo(config, sources, i)
      invariant stderr == StderrUpTo(config, sources, i)
    {
      var filename := config.files[i];
      UpToStep(config, sources, i);
      match sources[i] {
        case OpenError(err) =>
          stderr := stderr + [filename + ": " + err];
        case Lines(ls) =>
          var failure, printed := EmitLines(config, filename, fileNum, ls);
          stdout := stdout + printed;
          if failure.Some? {
            FailingEndsRun(config, sources, i);
            return Err(failure.value), stdout, stderr;
          }
      }
      fileNum := fileNum + 1;
    }
    status := Ok(());
  }
}
