/**
  Source resolution in headr (`open` in solutions/headr/src/lib.rs), and the
  abstract view of what reading a source yields. The operating system is not
  modelled: what opening and reading one source gives is an input value.
 */
module Source {

  /** The reserved name for standard input. */
  const StdinName: string := "-"

  /** Where `open` reads from: standard input, or the file with the given name. */
  datatype Input = Stdin | File(path: string)

  /** `open`: standard input for "-", every other name a file of exactly that name. */
  function Open(filename: string): (r: Input)
    ensures r.Stdin? <==> filename == StdinName
    ensures r.File? ==> r.path == filename
  {
    if filename == StdinName then Stdin else File(filename)
  }

  /** The name that designates an input on the command line. */
  function Name(input: Input): string {
    match input
    case Stdin => StdinName
    case File(path) => path
  }

  /** `open` resolves a name to an input that is designated by that very name. */
  lemma OpenName(filename: string)
    ensures Name(Open(filename)) == filename
  {
  }

  /** Every input except a file literally called "-" is what `open` resolves its own name to. */
  lemma NameOpen(input: Input)
    requires input != File(StdinName)
    ensures Open(Name(input)) == input
  {
  }

  /** One item of `BufRead::lines`: a line without its terminator, or an I/O error with its message. */
  datatype Line = Text(text: string) | ReadError(msg: string)

  /** The outcome of opening a source: the open error's message, or the lines reading it yields. */
  datatype Opened = OpenError(msg: string) | Lines(lines: seq<Line>)

  /**
    Standard input is wrapped without any call that can fail (lib.rs line 17),
    so a source named "-" always opens.
   */
  predicate StdinOpens(files: seq<string>, sources: seq<Opened>)
    requires |files| == |sources|
  {
    forall i :: 0 <= i < |files| && Open(files[i]).Stdin? ==> sources[i].Lines?
  }
}
