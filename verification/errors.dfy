/**
  The library's error taxonomy: three kinds of failure, their display
  messages, their short descriptions and their underlying causes.
 */
module Errors {
  import opened Wrappers

  /**
    An `io::Error` is a foreign value. The model keeps only what the library
    reads from it: its display text and its description.
   */
  datatype IoFault = IoFault(message: string, summary: string)

  /** The three failures: an I/O failure on the engine's pipes, an option the engine rejected, a missing score. */
  datatype EngineError =
    | Io(fault: IoFault)
    | UnknownOption(option: string)
    | NotFound

  /** The library's `Result` alias: a value or an `EngineError`. */
  datatype Result<+T> = Ok(value: T) | Err(error: EngineError)

  const IoPrefix := "IO error: "
  const UnknownOptionPrefix := "No such option: '"
  const NotFoundMessage := "Pattern not found"

  /**
    The display message. Each kind has its own fixed opening, so the message
    tells the kind apart, and the I/O text or option name can be read back
    from it.
   */
  function Display(e: EngineError): (r: string)
    ensures e.Io? <==> IoPrefix <= r
    ensures e.UnknownOption? <==> UnknownOptionPrefix <= r
    ensures e.NotFound? <==> r == NotFoundMessage
    ensures e.Io? ==> r[|IoPrefix|..] == e.fault.message
    ensures e.UnknownOption? ==> |r| == |UnknownOptionPrefix| + |e.option| + 1
    ensures e.UnknownOption? ==> r[|UnknownOptionPrefix|..|r| - 1] == e.option && r[|r| - 1] == '\''
  {
    match e
    case Io(f) =>
      var r := IoPrefix + f.message;
      assert r[0] == 'I' && r[1] == 'O';
      r
    case UnknownOption(o) =>
      var r := UnknownOptionPrefix + o + "'";
      assert r[0] == 'N';
      r
    case NotFound =>
      assert NotFoundMessage[0] == 'P';
      NotFoundMessage
  }

  /** Two errors with the same message are of the same kind and carry the same name or I/O text. */
  lemma DisplayDistinguishes(a: EngineError, b: EngineError)
    requires Display(a) == Display(b)
    ensures a.Io? <==> b.Io?
    ensures a.UnknownOption? <==> b.UnknownOption?
    ensures a.Io? ==> a.fault.message == b.fault.message
    ensures a.UnknownOption? ==> a.option == b.option
  {
  }

  /**
    The short description: the I/O error's own for `Io`, and a fixed text
    otherwise; for a missing score it is the display message itself.
   */
  function Description(e: EngineError): (r: string)
    ensures e.Io? ==> r == e.fault.summary
    ensures e.UnknownOption? ==> r == "Unknown option"
    ensures e.NotFound? ==> r == Display(e)
  {
    match e
    case Io(f) => f.summary
    case UnknownOption(_) => "Unknown option"
    case NotFound => NotFoundMessage
  }

  /** The underlying error: only an I/O failure has one. */
  function Cause(e: EngineError): (r: Option<IoFault>)
    ensures r.Some? <==> e.Io?
    ensures r.Some? ==> r.value == e.fault
  {
    match e
    case Io(f) => Some(f)
    case _ => None
  }

  /** `From<io::Error>`: wrapping an I/O error, which `Cause` hands back. */
  function FromIo(f: IoFault): (r: EngineError)
    ensures r.Io?
    ensures Cause(r) == Some(f)
  {
    Io(f)
  }
}
