/**
  Properties of the specification `Head` of headr's `run`, which the method
  `Emission.Run` meets: where each source's contribution lands, the banner and
  blank-line rules, error isolation for failed opens, the early end on a read
  error, and bounds on what is printed.
 */
module EmissionProperties {
  import opened Results
  import opened Source
  import opened Emission

  /** Joining the first `m` parts gives a prefix of joining the first `n >= m` parts. */
  lemma {:induction false} FlattenPrefix(parts: seq<seq<string>>, m: nat, n: nat)
    requires m <= n <= |parts|
    ensures |Flatten(parts[..m])| <= |Flatten(parts[..n])|
    ensures Flatten(parts[..n])[..|Flatten(parts[..m])|] == Flatten(parts[..m])
    decreases n
  {
    if m < n {
      FlattenPrefix(parts, m, n - 1);
      FlattenStep(parts, n - 1);
      var base, prev, cur := Flatten(parts[..m]), Flatten(parts[..n - 1]), Flatten(parts[..n]);
      assert cur[..|prev|] == prev;
      assert cur[..|base|] == prev[..|base|];
    }
  }

  /** Part `i` stands in the joined parts right after the parts before it. */
  lemma FlattenSegment(parts: seq<seq<string>>, i: nat, n: nat)
    requires i < n <= |parts|
    ensures var all := Flatten(parts[..n]);
      var a := |Flatten(parts[..i])|;
      var b := |Flatten(parts[..i + 1])|;
      a <= b <= |all| && all[..a] == Flatten(parts[..i]) && all[a..b] == parts[i]
  {
    FlattenStep(parts, i);
    FlattenPrefix(parts, i + 1, n);
    var all, pre, upto := Flatten(parts[..n]), Flatten(parts[..i]), Flatten(parts[..i + 1]);
    assert all[..|upto|] == upto;
    assert all[..|pre|] == upto[..|pre|];
    assert all[|pre|..|upto|] == upto[|pre|..];
  }

  /**
    Sources are handled in list order: what source `i` adds to standard
    output stands in the run's output right after what the sources before it
    added.
   */
  lemma StdoutSegment(config: Config, sources: seq<Opened>, i: nat)
    requires |sources| == |config.files| && i < Processed(sources)
    ensures var out := Output(config, sources);
      var a := |StdoutUpTo(config, sources, i)|;
      var b := |StdoutUpTo(config, sources, i + 1)|;
      a <= b <= |out| && out[..a] == StdoutUpTo(config, sources, i) &&
      out[a..b] == SourceStdout(config, config.files[i], i, sources[i])
  {
    FlattenSegment(StdoutParts(config, sources), i, Processed(sources));
  }

  /** Likewise what source `i` adds to standard error follows what the sources before it added. */
  lemma StderrSegment(config: Config, sources: seq<Opened>, i: nat)
    requires |sources| == |config.files| && i < Processed(sources)
    ensures var err := Errors(config, sources);
      var a := |StderrUpTo(config, sources, i)|;
      var b := |StderrUpTo(config, sources, i + 1)|;
      a <= b <= |err| && err[..a] == StderrUpTo(config, sources, i) &&
      err[a..b] == SourceStderr(config.files[i], sources[i])
  {
    FlattenSegment(StderrParts(config, sources), i, Processed(sources));
  }

  /**
    A source that fails to open adds exactly one standard-error entry
    `name: message`, nothing to standard output, and the run goes on with the
    next source.
   */
  lemma OpenFailureReported(config: Config, sources: seq<Opened>, i: nat)
    requires |sources| == |config.files| && i < Processed(sources)
    requires sources[i].OpenError?
    ensures var err := Errors(config, sources);
      var e := |StderrUpTo(config, sources, i)|;
      e < |err| && err[e] == config.files[i] + ": " + sources[i].msg
    ensures StderrUpTo(config, sources, i + 1) ==
      StderrUpTo(config, sources, i) + [config.files[i] + ": " + sources[i].msg]
    ensures StdoutUpTo(config, sources, i + 1) == StdoutUpTo(config, sources, i)
    ensures i + 1 < |sources| ==> i + 1 < Processed(sources)
  {
    var name, src := config.files[i], sources[i];
    var entry := name + ": " + src.msg;
    assert SourceStderr(name, src) == [entry];
    assert SourceStdout(config, name, i, src) == [];
    StderrSegment(config, sources, i);
    var err := Errors(config, sources);
    var e := |StderrUpTo(config, sources, i)|;
    UpToStep(config, sources, i);
    assert err[e..e + 1] == [entry];
    RunGoesOn(sources, i);
  }

  /** A reached source that does not fail lets the run go on to the next source. */
  lemma RunGoesOn(sources: seq<Opened>, i: nat)
    requires i < Processed(sources) && !Failing(sources[i])
    ensures i + 1 < |sources| ==> i + 1 < Processed(sources)
  {
  }

  /**
    A source that opened and has at least one line gets exactly one banner in
    the run's output, directly followed by its body lines. A blank line comes
    right before the banner if and only if the source is not the first of the
    list; the position counts sources that failed to open.
   */
  lemma BannerPlacement(config: Config, sources: seq<Opened>, i: nat)
    requires |sources| == |config.files| && i < Processed(sources)
    requires sources[i].Lines? && |sources[i].lines| > 0
    ensures var out := Output(config, sources);
      var a := |StdoutUpTo(config, sources, i)|;
      var b := |StdoutUpTo(config, sources, i + 1)|;
      var ls := sources[i].lines;
      var at := if i == 0 then a else a + 1;
      at < b <= |out| &&
      (out[a] == "" <==> i != 0) &&
      out[at] == BannerText(config.files[i]) &&
      out[at + 1..b] == Body(config, ls, FirstReadError(ls))
  {
    StdoutSegment(config, sources, i);
    SegmentShape(config, config.files[i], i, sources[i]);
    var out := Output(config, sources);
    var a, b := |StdoutUpTo(config, sources, i)|, |StdoutUpTo(config, sources, i + 1)|;
    var seg := out[a..b];
    var at := if i == 0 then 0 else 1;
    assert out[a] == seg[0] && out[a + at] == seg[at];
    assert out[a + at + 1..b] == seg[at + 1..];
  }

  /** The shape of what an opened, non-empty source prints: optional blank line, banner, body. */
  lemma SegmentShape(config: Config, name: string, fileNum: nat, src: Opened)
    requires src.Lines? && |src.lines| > 0
    ensures var seg := SourceStdout(config, name, fileNum, src);
      var at := if fileNum == 0 then 0 else 1;
      at < |seg| &&
      (seg[0] == "" <==> fileNum != 0) &&
      seg[at] == BannerText(name) &&
      seg[at + 1..] == Body(config, src.lines, FirstReadError(src.lines))
  {
    var ls := src.lines;
    assert BannerText(name)[0] == '=';
    var banner := Banner(name, fileNum);
    var seg := banner + Body(config, ls, FirstReadError(ls));
    assert seg[|banner|..] == Body(config, ls, FirstReadError(ls));
  }

  /** An opened source without lines prints nothing, not even a banner, and does not end the run. */
  lemma EmptySourcePrintsNothing(config: Config, sources: seq<Opened>, i: nat)
    requires |sources| == |config.files| && i < |sources|
    requires sources[i] == Lines([])
    ensures StdoutUpTo(config, sources, i + 1) == StdoutUpTo(config, sources, i)
    ensures StderrUpTo(config, sources, i + 1) == StderrUpTo(config, sources, i)
    ensures !Failing(sources[i])
  {
    UpToStep(config, sources, i);
  }

  /**
    In line mode the body of a source without read errors is exactly its
    first min(lines, |source|) lines, unchanged and in order.
   */
  lemma {:induction false} LineModeBody(config: Config, ls: seq<Line>)
    requires LineMode(config)
    requires forall j :: 0 <= j < |ls| ==> ls[j].Text?
    ensures Body(config, ls, FirstReadError(ls)) == Texts(ls[..Min(config.lines, |ls|)])
  {
    assert FirstReadError(ls) == |ls|;
  }

  /**
    The first source with a read error ends the run: `run` returns that
    error, and the outputs are those of the sources up to and including it.
    If the error is on its first line, its banner has already been printed.
   */
  lemma ReadErrorEndsRun(config: Config, sources: seq<Opened>, i: nat)
    requires |sources| == |config.files| && i < |sources|
    requires Failing(sources[i]) && forall j :: 0 <= j < i ==> !Failing(sources[j])
    ensures Head(config, sources) == RunOutcome(
      StdoutUpTo(config, sources, i + 1),
      StderrUpTo(config, sources, i + 1),
      Err(FailureMessage(sources[i])))
    ensures FirstReadError(sources[i].lines) == 0 ==>
      Output(config, sources) == StdoutUpTo(config, sources, i) + Banner(config.files[i], i)
  {
    assert FirstFailing(sources) == i;
    UpToStep(config, sources, i);
    var ls := sources[i].lines;
    if FirstReadError(ls) == 0 {
      assert Body(config, ls, 0) == [];
    }
  }

  /** The outputs of the first `n` sources depend only on those sources, their names and the limits. */
  lemma UpToDependsOnPrefix(config: Config, sources: seq<Opened>, config': Config, sources': seq<Opened>, n: nat)
    requires |sources| == |config.files| && |sources'| == |config'.files|
    requires n <= |sources| && n <= |sources'|
    requires sources[..n] == sources'[..n] && config.files[..n] == config'.files[..n]
    requires config.lines == config'.lines && config.bytes == config'.bytes
    ensures StdoutUpTo(config, sources, n) == StdoutUpTo(config', sources', n)
    ensures StderrUpTo(config, sources, n) == StderrUpTo(config', sources', n)
  {
    forall j | 0 <= j < n ensures sources[j] == sources'[j] && config.files[j] == config'.files[j] {
      assert sources[j] == sources[..n][j] && sources'[j] == sources'[..n][j];
      assert config.files[j] == config.files[..n][j] && config'.files[j] == config'.files[..n][j];
    }
    assert StdoutParts(config, sources)[..n] == StdoutParts(config', sources')[..n];
    assert StderrParts(config, sources)[..n] == StderrParts(config', sources')[..n];
  }

  /**
    No source after the first failing one is processed: replacing the later
    sources (or dropping them) leaves the whole outcome of the run unchanged.
   */
  lemma LaterSourcesIgnored(config: Config, sources: seq<Opened>, config': Config, sources': seq<Opened>, i: nat)
    requires |sources| == |config.files| && |sources'| == |config'.files|
    requires i < |sources| && i < |sources'|
    requires Failing(sources[i]) && forall j :: 0 <= j < i ==> !Failing(sources[j])
    requires sources[..i + 1] == sources'[..i + 1] && config.files[..i + 1] == config'.files[..i + 1]
    requires config.lines == config'.lines && config.bytes == config'.bytes
    ensures Head(config', sources') == Head(config, sources)
  {
    forall j | 0 <= j <= i ensures sources'[j] == sources[j] {
      assert sources'[j] == sources'[..i + 1][j];
    }
    ReadErrorEndsRun(config, sources, i);
    ReadErrorEndsRun(config', sources', i);
    UpToDependsOnPrefix(config, sources, config', sources', i + 1);
  }

  /** The number of sources among `s` that failed to open. */
  function CountOpenErrors(s: seq<Opened>): nat {
    if |s| == 0 then 0
    else CountOpenErrors(s[..|s| - 1]) + (if s[|s| - 1].OpenError? then 1 else 0)
  }

  /** Standard error holds exactly one entry per handled source that failed to open, and nothing else. */
  lemma {:induction false} StderrCountsOpenErrors(config: Config, sources: seq<Opened>, n: nat)
    requires |sources| == |config.files| && n <= |sources|
    ensures |StderrUpTo(config, sources, n)| == CountOpenErrors(sources[..n])
  {
    if n > 0 {
      assert sources[..n][..n - 1] == sources[..n - 1];
      StderrCountsOpenErrors(config, sources, n - 1);
      UpToStep(config, sources, n - 1);
    }
  }

  /**
    A bound on the lines one source can print: a blank line, a banner and, in
    line mode, `lines` body lines. It is deliberately loose: it counts the
    blank line even for the source at position 0, which gets none.
   */
  function PerSourceMax(config: Config): nat {
    2 + if LineMode(config) then config.lines else 0
  }

  /** No source prints more than `PerSourceMax` lines. */
  lemma SourceStdoutBound(config: Config, name: string, fileNum: nat, src: Opened)
    ensures |SourceStdout(config, name, fileNum, src)| <= PerSourceMax(config)
  {
  }

  /** The first `n` sources together print at most `n` times `PerSourceMax` lines. */
  lemma {:induction false} StdoutBound(config: Config, sources: seq<Opened>, n: nat)
    requires |sources| == |config.files| && n <= |sources|
    ensures |StdoutUpTo(config, sources, n)| <= n * PerSourceMax(config)
  {
    if n > 0 {
      StdoutBound(config, sources, n - 1);
      UpToStep(config, sources, n - 1);
      var per := PerSourceMax(config);
      SourceStdoutBound(config, config.files[n - 1], n - 1, sources[n - 1]);
      assert (n - 1) * per + per == n * per;
    }
  }

  /** When no source holds a read error, the run handles all of them. */
  lemma NoneFailing(sources: seq<Opened>)
    requires forall j :: 0 <= j < |sources| ==> !Failing(sources[j])
    ensures FirstFailing(sources) == |sources| && Processed(sources) == |sources|
  {
  }

  /** Two readable sources with a limit of two lines: banner, two lines, blank line, banner, two lines. */
  lemma TwoSourcesExample(a: string, b: string, x1: string, x2: string, x3: string, y1: string, y2: string, y3: string)
    ensures Head(Config([a, b], 2, None),
                 [Lines([Text(x1), Text(x2), Text(x3)]), Lines([Text(y1), Text(y2), Text(y3)])])
      == RunOutcome([BannerText(a), x1, x2, "", BannerText(b), y1, y2], [], Ok(()))
  {
    var xs := [Text(x1), Text(x2), Text(x3)];
    var ys := [Text(y1), Text(y2), Text(y3)];
    var config := Config([a, b], 2, None);
    var sources := [Lines(xs), Lines(ys)];
    assert FirstReadError(xs) == 3 && FirstReadError(ys) == 3;
    NoneFailing(sources);
    assert Body(config, xs, 3) == [x1, x2];
    assert Body(config, ys, 3) == [y1, y2];
    UpToStep(config, sources, 0);
    UpToStep(config, sources, 1);
    assert StdoutUpTo(config, sources, 1) == [BannerText(a), x1, x2];
    assert StdoutUpTo(config, sources, 2) == [BannerText(a), x1, x2] + ["", BannerText(b), y1, y2];
    assert StderrUpTo(config, sources, 1) == [];
    assert StderrUpTo(config, sources, 2) == [];
  }

  /**
    A first source that fails to open still counts as the first: the banner
    of the next source gets a blank line before it, even at the very top of
    standard output.
   */
  lemma FailedFirstSourceStillCounts(a: string, b: string, msg: string, x: string)
    ensures Head(Config([a, b], 10, None), [OpenError(msg), Lines([Text(x)])])
      == RunOutcome(["", BannerText(b), x], [a + ": " + msg], Ok(()))
  {
    var config := Config([a, b], 10, None);
    var sources := [OpenError(msg), Lines([Text(x)])];
    assert FirstReadError([Text(x)]) == 1;
    NoneFailing(sources);
    assert Body(config, [Text(x)], 1) == [x];
    UpToStep(config, sources, 0);
    UpToStep(config, sources, 1);
    assert StdoutUpTo(config, sources, 1) == [];
    assert StdoutUpTo(config, sources, 2) == ["", BannerText(b), x];
    assert StderrUpTo(config, sources, 1) == [a + ": " + msg];
    assert StderrUpTo(config, sources, 2) == [a + ": " + msg];
  }

  /** The banner is printed even when there is a single source. */
  lemma SingleSourceHasBanner(a: string, x: string)
    ensures Head(Config([a], 10, None), [Lines([Text(x)])])
      == RunOutcome([BannerText(a), x], [], Ok(()))
  {
    var config := Config([a], 10, None);
    var sources := [Lines([Text(x)])];
    assert FirstReadError([Text(x)]) == 1;
    NoneFailing(sources);
    assert Body(config, [Text(x)], 1) == [x];
    UpToStep(config, sources, 0);
    assert StdoutUpTo(config, sources, 1) == [BannerText(a), x];
    assert StderrUpTo(config, sources, 1) == [];
  }

  /** Every line is read even past the limit, so a read error after the limit still ends the run. */
  lemma ReadErrorPastLimit(a: string, b: string, x: string, msg: string, y: string)
    ensures Head(Config([a, b], 1, None), [Lines([Text(x), ReadError(msg)]), Lines([Text(y)])])
      == RunOutcome([BannerText(a), x], [], Err(msg))
  {
    var config := Config([a, b], 1, None);
    var xs := [Text(x), ReadError(msg)];
    var sources := [Lines(xs), Lines([Text(y)])];
    assert FirstReadError(xs) == 1;
    assert Failing(sources[0]);
    assert FirstFailing(sources) == 0 && Processed(sources) == 1;
    assert FailureMessage(sources[0]) == msg;
    assert Body(config, xs, 1) == [x];
    UpToStep(config, sources, 0);
    assert StdoutUpTo(config, sources, 1) == [BannerText(a), x];
    assert StderrUpTo(config, sources, 1) == [];
  }

  /** In byte mode a source prints its banner and no body. */
  lemma ByteModeBannerOnly(a: string, x: string, lines: nat, bytes: nat)
    ensures Head(Config([a], lines, Some(bytes)), [Lines([Text(x)])])
      == RunOutcome([BannerText(a)], [], Ok(()))
  {
    var config := Config([a], lines, Some(bytes));
    var sources := [Lines([Text(x)])];
    assert FirstReadError([Text(x)]) == 1;
    NoneFailing(sources);
    UpToStep(config, sources, 0);
    assert StdoutUpTo(config, sources, 1) == [BannerText(a)];
    assert StderrUpTo(config, sources, 1) == [];
  }
}
