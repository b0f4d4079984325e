/**
  The UCI client session. The engine process is modelled by its two pipes:
  the events its standard output will deliver (bytes, or a failed read), and
  the strings written so far to its standard input. Every public operation is
  a pure function from a session and the pipes to a `Step`: the operation's
  result together with the pipes after it, or the observation that it would
  wait forever, or that it would panic.
 */
module Uci {
  import opened Wrappers
  import opened Text
  import opened Decimal
  import opened Errors

  type u32 = x: int | 0 <= x <= U32Max
  type byte = x: int | 0 <= x < 256

  /** `DEFAULT_TIME`: the milliseconds per search of a fresh session. */
  const DefaultTime: u32 := 100

  /** The session's search settings; the process itself lives in `Pipes`. */
  datatype Engine = Engine(movetime: u32, depth: Option<u32>)

  /** One read from the engine's standard output: a byte, or a failed read. */
  datatype Event = Byte(b: byte) | Fault(fault: IoFault)

  /** The engine's standard input: accepting writes, or failing every write with one error. */
  datatype Stdin = Open | Broken(fault: IoFault)

  /** The engine's pipes: output still to be read, the input's state, and every string written so far. */
  datatype Pipes = Pipes(stdout: seq<Event>, stdin: Stdin, written: seq<string>)

  /**
    The outcome of one operation. `Starved` means the engine's output ran out
    before the byte or line the operation waits for: the client would block
    (or, at end of stream, spin) forever. `Panicked` means the client would
    panic on an out-of-range index.
   */
  datatype Step<+T> = Returned(result: Result<T>, pipes: Pipes) | Starved | Panicked
  {
    predicate IsFailure() {
      !(Returned? && result.Ok?)
    }

    function PropagateFailure<U>(): Step<U>
      requires IsFailure()
    {
      match this
      case Returned(r, p) => Returned(Err(r.error), p)
      case Starved => Starved
      case Panicked => Panicked
    }

    function Extract(): (T, Pipes)
      requires !IsFailure()
    {
      (result.value, pipes)
    }
  }

  /** `q` is `p` after reading only: nothing written, and the output advanced to a suffix. */
  predicate ReadOnly(p: Pipes, q: Pipes) {
    && q.stdin == p.stdin
    && q.written == p.written
    && |q.stdout| <= |p.stdout|
    && q.stdout == p.stdout[|p.stdout| - |q.stdout|..]
  }

  /** `write_fmt`: append `text` to the input log, or fail with the input's error. */
  function Write(p: Pipes, text: string): (r: Step<()>)
    ensures r.Returned? && r.pipes.stdout == p.stdout && r.pipes.stdin == p.stdin
    ensures p.stdin.Open? ==> r.result.Ok? && r.pipes.written == p.written + [text]
    ensures p.stdin.Broken? ==> r.result == Err(Io(p.stdin.fault)) && r.pipes.written == p.written
  {
    match p.stdin
    case Open => Returned(Ok(()), p.(written := p.written + [text]))
    case Broken(f) => Returned(Err(Io(f)), p)
  }

  // ---------------------------------------------------------------- reading lines

  /** Every character came from one byte (`u8 as char`). */
  predicate Latin1(s: string) {
    forall i :: 0 <= i < |s| ==> s[i] as int < 256
  }

  /** A line as `read_line` delivers it: one-byte characters and a single `'\n'`, at the end. */
  predicate IsWireLine(s: string) {
    && |s| > 0
    && s[|s| - 1] == '\n'
    && Latin1(s)
    && forall i :: 0 <= i < |s| - 1 ==> s[i] != '\n'
  }

  /** The output events that carry the characters of `s`, one byte each. */
  function Encode(s: string): (r: seq<Event>)
    requires Latin1(s)
    ensures |r| == |s|
    ensures forall i :: 0 <= i < |s| ==> r[i] == Byte(s[i] as int)
  {
    seq(|s|, i requires 0 <= i < |s| => Byte(s[i] as int))
  }

  /** How many events a line read takes before its last one: the bytes before the first newline byte or failed read. */
  function LineLength(es: seq<Event>): (k: nat)
    ensures k <= |es|
    ensures forall i :: 0 <= i < k ==> es[i].Byte? && es[i].b != 10
    ensures k < |es| ==> es[k].Fault? || es[k].b == 10
    decreases |es|
  {
    if |es| == 0 || es[0].Fault? || es[0].b == 10 then 0 else 1 + LineLength(es[1..])
  }

  /** The characters of a run of byte events, each byte read as the character with that code. */
  function Decode(es: seq<Event>): (s: string)
    requires forall i :: 0 <= i < |es| ==> es[i].Byte?
    ensures |s| == |es| && Latin1(s)
    ensures forall i :: 0 <= i < |es| ==> s[i] as int == es[i].b
  {
    seq(|es|, i requires 0 <= i < |es| => es[i].b as char)
  }

  /**
    `read_line`: read byte by byte up to and including the first `'\n'`,
    turning each byte into the character with that code. A failed read ends
    the line with an I/O error; the bytes read before it are lost.
   */
  function ReadLine(p: Pipes): (r: Step<string>)
    ensures !r.Panicked?
    ensures r.Returned? ==> ReadOnly(p, r.pipes) && |r.pipes.stdout| < |p.stdout|
    ensures r.Returned? && r.result.Err? ==> r.result.error.Io?
  {
    var k := LineLength(p.stdout);
    if k == |p.stdout| then Starved
    else
      var next := p.(stdout := p.stdout[k + 1..]);
      match p.stdout[k]
      case Fault(f) => Returned(Err(Io(f)), next)
      case Byte(_) => Returned(Ok(Decode(p.stdout[..k + 1])), next)
  }

  /** A line that was read is a wire line, and the events it took are exactly its encoding. */
  lemma ReadLineShape(p: Pipes)
    requires ReadLine(p).Returned? && ReadLine(p).result.Ok?
    ensures var r := ReadLine(p);
            IsWireLine(r.result.value) && p.stdout == Encode(r.result.value) + r.pipes.stdout
  {
    var k := LineLength(p.stdout);
    var line := Decode(p.stdout[..k + 1]);
    assert Encode(line) == p.stdout[..k + 1];
    assert p.stdout == p.stdout[..k + 1] + p.stdout[k + 1..];
  }

  /**
    The read loop of `read_line` as the client runs it: one byte at a time,
    each appended before it is compared with `'\n'`. It computes exactly the
    line `ReadLine` describes.
   */
  method ReadLineByBytes(p: Pipes) returns (r: Step<string>)
    ensures r == ReadLine(p)
  {
    var s := "";
    var i := 0;
    while true
      invariant i <= LineLength(p.stdout)
      invariant s == Decode(p.stdout[..i])
      decreases |p.stdout| - i
    {
      if i == |p.stdout| {
        return Starved;
      }
      match p.stdout[i]
      case Fault(f) =>
        return Returned(Err(Io(f)), p.(stdout := p.stdout[i + 1..]));
      case Byte(b) =>
        s := s + [b as char];
        i := i + 1;
        assert s == Decode(p.stdout[..i]);
        if b == 10 {
          assert LineLength(p.stdout) == i - 1;
          return Returned(Ok(s), p.(stdout := p.stdout[i..]));
        }
    }
  }

  // ---------------------------------------------------------------- configuration

  /** The settings of a fresh session. */
  const Fresh: Engine := Engine(DefaultTime, None)

  /** The `movetime` builder: a new time limit, the depth kept. */
  function Movetime(e: Engine, n: u32): (r: Engine)
    ensures r.movetime == n && r.depth == e.depth
  {
    e.(movetime := n)
  }

  /** The `depth` builder: a new (optional) depth, the time limit kept. */
  function Depth(e: Engine, d: Option<u32>): (r: Engine)
    ensures r.depth == d && r.movetime == e.movetime
  {
    e.(depth := d)
  }

  // ---------------------------------------------------------------- commands

  /** The `position startpos` line. */
  function StartposCommand(moves: seq<string>): string {
    "position startpos moves " + Join(moves, " ") + "\n"
  }

  /** The `position fen` line; the `moves` keyword is there even for no moves. */
  function FenCommand(fen: string, moves: seq<string>): string {
    "position fen " + fen + " moves " + Join(moves, " ") + "\n"
  }

  /** The `go` line for the session's settings. */
  function GoCommand(e: Engine): string {
    "go movetime " + Format(e.movetime)
    + (match e.depth case Some(d) => " depth " + Format(d) case None => "")
    + "\n"
  }

  /** The `setoption` line. */
  function SetOptionCommand(name: string, value: string): string {
    "setoption name " + name + " value " + value + "\n"
  }

  /** The synchronisation request. */
  const IsReady := "isready\n"

  /** `make_moves`: set up the start position plus `moves`; nothing is read. */
  function MakeMoves(p: Pipes, moves: seq<string>): (r: Step<()>)
    ensures r.Returned? && r.pipes.stdout == p.stdout
    ensures p.stdin.Open? ==> r == Returned(Ok(()), p.(written := p.written + [StartposCommand(moves)]))
    ensures p.stdin.Broken? ==> r == Returned(Err(Io(p.stdin.fault)), p)
  {
    Write(p, StartposCommand(moves))
  }

  /** `make_moves_from_position`: set up the position `fen` plus `moves`; nothing is read. */
  function MakeMovesFromPosition(p: Pipes, fen: string, moves: seq<string>): (r: Step<()>)
    ensures r.Returned? && r.pipes.stdout == p.stdout
    ensures p.stdin.Open? ==> r == Returned(Ok(()), p.(written := p.written + [FenCommand(fen, moves)]))
    ensures p.stdin.Broken? ==> r == Returned(Err(Io(p.stdin.fault)), p)
  {
    Write(p, FenCommand(fen, moves))
  }

  /** `set_position`: the position `fen` with no moves. */
  function SetPosition(p: Pipes, fen: string): (r: Step<()>)
    ensures r == MakeMovesFromPosition(p, fen, [])
    ensures p.stdin.Open? ==> r.pipes.written == p.written + ["position fen " + fen + " moves \n"]
  {
    assert FenCommand(fen, []) == "position fen " + fen + " moves \n";
    MakeMovesFromPosition(p, fen, [])
  }

  /** `do_move`: start a search with the session's settings; nothing is read. */
  function DoMove(e: Engine, p: Pipes): (r: Step<()>)
    ensures r.Returned? && r.pipes.stdout == p.stdout
    ensures p.stdin.Open? ==> r == Returned(Ok(()), p.(written := p.written + [GoCommand(e)]))
    ensures p.stdin.Broken? ==> r == Returned(Err(Io(p.stdin.fault)), p)
  {
    Write(p, GoCommand(e))
  }

  // ---------------------------------------------------------------- best move

  /** The move a `bestmove` line reports: its second space-separated field, trimmed. */
  function MoveField(line: string): (r: Option<string>)
    ensures r.None? <==> |Split(line, ' ')| < 2
    ensures r.Some? ==> ' ' !in r.value
    ensures r.Some? && r.value != [] ==> !IsWhitespace(r.value[0]) && !IsWhitespace(r.value[|r.value| - 1])
  {
    var fields := Split(line, ' ');
    if |fields| < 2 then None
    else
      TrimInside(fields[1]);
      Some(Trim(fields[1]))
  }

  /** The read loop of `bestmove`: skip lines up to the first `bestmove` line and take its second field. */
  function AwaitBestMove(p: Pipes): (r: Step<string>)
    ensures r.Returned? ==> ReadOnly(p, r.pipes)
    ensures r.Returned? && r.result.Err? ==> r.result.error.Io?
    ensures r.Returned? && r.result.Ok? ==> ' ' !in r.result.value
    ensures r.Returned? && r.result.Ok? && r.result.value != [] ==>
              !IsWhitespace(r.result.value[0]) && !IsWhitespace(r.result.value[|r.result.value| - 1])
    decreases |p.stdout|
  {
    var (line, q) :- ReadLine(p);
    if StartsWith(line, "bestmove") then
      match MoveField(line)
      case None => Panicked
      case Some(m) => Returned(Ok(m), q)
    else AwaitBestMove(q)
  }

  /** `bestmove`: search, then report the engine's chosen move. */
  function BestMove(e: Engine, p: Pipes): (r: Step<string>)
    ensures p.stdin.Broken? ==> r == Returned(Err(Io(p.stdin.fault)), p)
    ensures p.stdin.Open? && r.Returned? ==>
              r.pipes.written == p.written + [GoCommand(e)] && r.pipes.stdin == p.stdin
    ensures r.Returned? && r.result.Ok? ==> ' ' !in r.result.value
  {
    var (_, q) :- DoMove(e, p);
    AwaitBestMove(q)
  }

  // ---------------------------------------------------------------- evaluation

  /** The read loop of `evaluation`: remember the latest `info` line until a `bestmove` line. */
  function AwaitInfo(p: Pipes, info: string): (r: Step<string>)
    ensures !r.Panicked?
    ensures r.Returned? ==> ReadOnly(p, r.pipes)
    ensures r.Returned? && r.result.Err? ==> r.result.error.Io?
    ensures r.Returned? && r.result.Ok? ==>
              r.result.value == info || (IsWireLine(r.result.value) && StartsWith(r.result.value, "info"))
    decreases |p.stdout|
  {
    var (line, q) :- ReadLine(p);
    ReadLineShape(p);
    var latest := if StartsWith(line, "info") then line else info;
    if StartsWith(line, "bestmove") then Returned(Ok(latest), q) else AwaitInfo(q, latest)
  }

  /**
    The score of a retained `info` line: the token after the first token
    `cp`, parsed as an `i32`. The line is empty or ends with `'\n'`, so `cp`
    is never its last token and the token after it always exists.
   */
  function ScoreOf(info: string): (r: Result<int>)
    requires info == [] || info[|info| - 1] == '\n'
    ensures r.Err? ==> r.error == NotFound
    ensures r.Ok? ==> I32Min <= r.value <= I32Max
    ensures "cp" !in Split(info, ' ') ==> r == Err(NotFound)
  {
    var parts := Split(info, ' ');
    match FirstIndex(parts, "cp")
    case None => Err(NotFound)
    case Some(i) =>
      CpIsNeverLast(info, i);
      match ParseI32(parts[i + 1])
      case None => Err(NotFound)
      case Some(n) => Ok(n)
  }

  /** In an empty or newline-terminated line, no `cp` token is the last one. */
  lemma CpIsNeverLast(info: string, i: nat)
    requires info == [] || info[|info| - 1] == '\n'
    requires i < |Split(info, ' ')| && Split(info, ' ')[i] == "cp"
    ensures i + 1 < |Split(info, ' ')|
  {
    var parts := Split(info, ' ');
    JoinLast(parts, " ");
    var last := parts[|parts| - 1];
    assert last == [] || last[|last| - 1] == '\n';
    assert "cp"[1] == 'p';
  }

  /**
    The score is decided by the first `cp` token alone: it is the `i32` the
    next token spells, and `NotFound` when that token does not parse.
   */
  lemma ScoreOfFirstCp(info: string, i: nat)
    requires info == [] || info[|info| - 1] == '\n'
    requires i < |Split(info, ' ')| && Split(info, ' ')[i] == "cp" && "cp" !in Split(info, ' ')[..i]
    ensures i + 1 < |Split(info, ' ')|
    ensures ScoreOf(info) == match ParseI32(Split(info, ' ')[i + 1])
                             case None => Err(NotFound)
                             case Some(n) => Ok(n)
  {
    var parts := Split(info, ' ');
    CpIsNeverLast(info, i);
    FirstIndexAt(parts, "cp", i);
  }

  /** `evaluation`: search, then report the centipawn score of the last `info` line. */
  function Evaluation(e: Engine, p: Pipes): (r: Step<int>)
    ensures !r.Panicked?
    ensures p.stdin.Broken? ==> r == Returned(Err(Io(p.stdin.fault)), p)
    ensures p.stdin.Open? && r.Returned? ==>
              r.pipes.written == p.written + [GoCommand(e)] && r.pipes.stdin == p.stdin
    ensures r.Returned? && r.result.Ok? ==> I32Min <= r.result.value <= I32Max
  {
    var (_, q) :- DoMove(e, p);
    var (info, q') :- AwaitInfo(q, "");
    Returned(ScoreOf(info), q')
  }

  // ---------------------------------------------------------------- synchronisation

  /** The read loop of `read_left_output`: collect trimmed lines until one trims to `readyok`. */
  function AwaitReady(p: Pipes, acc: seq<string>): (r: Step<string>)
    ensures !r.Panicked?
    ensures r.Returned? ==> ReadOnly(p, r.pipes)
    ensures r.Returned? && r.result.Err? ==> r.result.error.Io?
    decreases |p.stdout|
  {
    var (line, q) :- ReadLine(p);
    var t := Trim(line);
    if t == "readyok" then Returned(Ok(Join(acc, "\n")), q) else AwaitReady(q, acc + [t])
  }

  /** `read_left_output`: ask `isready`, then return what the engine printed before `readyok`. */
  function ReadLeftOutput(p: Pipes): (r: Step<string>)
    ensures !r.Panicked?
    ensures p.stdin.Broken? ==> r == Returned(Err(Io(p.stdin.fault)), p)
    ensures p.stdin.Open? && r.Returned? ==>
              r.pipes.written == p.written + [IsReady] && r.pipes.stdin == p.stdin
  {
    var (_, q) :- Write(p, IsReady);
    AwaitReady(q, [])
  }

  /** `set_option`: the option counts as unknown when the engine printed anything but whitespace. */
  function SetOption(p: Pipes, name: string, value: string): (r: Step<()>)
    ensures !r.Panicked?
    ensures p.stdin.Broken? ==> r == Returned(Err(Io(p.stdin.fault)), p)
    ensures p.stdin.Open? && r.Returned? ==>
              r.pipes.written == p.written + [SetOptionCommand(name, value), IsReady]
    ensures r.Returned? && r.result.Err? ==> r.result.error.Io? || r.result.error == UnknownOption(name)
  {
    var (_, q) :- Write(p, SetOptionCommand(name, value));
    var (output, q') :- ReadLeftOutput(q);
    if Trim(output) == [] then Returned(Ok(()), q') else Returned(Err(UnknownOption(name)), q')
  }

  /** `command`: send `cmd` trimmed, then return what the engine printed before `readyok`. */
  function Command(p: Pipes, cmd: string): (r: Step<string>)
    ensures !r.Panicked?
    ensures p.stdin.Broken? ==> r == Returned(Err(Io(p.stdin.fault)), p)
    ensures p.stdin.Open? && r.Returned? ==>
              r.pipes.written == p.written + [Trim(cmd) + "\n", IsReady]
    ensures r.Returned? && r.result.Err? ==> r.result.error.Io?
  {
    var (_, q) :- Write(p, Trim(cmd) + "\n");
    ReadLeftOutput(q)
  }

  /** The handshake command needs no trimming. */
  lemma UciIsTrimmed()
    ensures Trim("uci") + "\n" == "uci\n"
  {
    TrimAround([], "uci", []);
  }

  /** `new`, after the process is started: discard the banner line, then run `uci` through `command`. */
  function New(p: Pipes): (r: Step<Engine>)
    ensures !r.Panicked?
    ensures r.Returned? && r.result.Ok? ==> r.result.value == Engine(100, None)
    ensures r.Returned? && r.result.Ok? ==> r.pipes.written == p.written + ["uci\n", IsReady]
    ensures r.Returned? && r.result.Err? ==> r.result.error.Io?
  {
    var (_, q) :- ReadLine(p);
    var (_, q') :- Command(q, "uci");
    UciIsTrimmed();
    assert q.stdin.Open? && q.written == p.written;
    Returned(Ok(Fresh), q')
  }
}
