/**
  What the engine reads from the command lines the client writes: the lines
  split into space-separated tokens, and the `go` line read back into the
  session settings it was made from.
 */
module Commands {
  import opened Wrappers
  import opened Text
  import opened Decimal
  import opened Uci

  /** A line without its final `'\n'`. */
  function Body(line: string): (r: string)
    requires |line| > 0
    ensures |r| == |line| - 1 && r + [line[|line| - 1]] == line
  {
    line[..|line| - 1]
  }

  lemma BodyNewline(s: string)
    ensures Body(s + "\n") == s
  {
  }

  /** A decimal token read as an unsigned 32-bit number. */
  function ReadU32(t: string): Option<u32> {
    if |t| > 0 && AllDigits(t) && ValueOf(t) <= U32Max then Some(ValueOf(t)) else None
  }

  /** A run of digits holds no space. */
  lemma DigitsHaveNoSpace(s: string)
    requires AllDigits(s)
    ensures ' ' !in s
  {
  }

  /** The settings a `go` line asks for, or `None` when the line is not one the client writes. */
  function DecodeGo(line: string): (r: Option<Engine>)
    ensures r.Some? ==> |line| > 0 && line[|line| - 1] == '\n'
    ensures r.Some? ==> var fields := Split(Body(line), ' ');
                        |fields| >= 3 && fields[0] == "go" && fields[1] == "movetime"
                        && ReadU32(fields[2]) == Some(r.value.movetime)
    ensures r.Some? && r.value.depth.Some? ==> var fields := Split(Body(line), ' ');
                        |fields| == 5 && fields[3] == "depth" && ReadU32(fields[4]) == r.value.depth
  {
    if |line| == 0 || line[|line| - 1] != '\n' then None
    else
      var fields := Split(Body(line), ' ');
      if |fields| < 3 || fields[0] != "go" || fields[1] != "movetime" then None
      else match ReadU32(fields[2])
        case None => None
        case Some(mt) =>
          if |fields| == 3 then Some(Engine(mt, None))
          else if |fields| == 5 && fields[3] == "depth" then
            match ReadU32(fields[4])
            case None => None
            case Some(d) => Some(Engine(mt, Some(d)))
          else None
  }

  /** Formatting a `u32` and reading it back gives the number. */
  lemma ReadFormat(n: u32)
    ensures ReadU32(Format(n)) == Some(n)
  {
  }

  /** The tokens of the `go` line for the settings `e`. */
  function GoWords(e: Engine): seq<string> {
    match e.depth
    case None => ["go", "movetime", Format(e.movetime)]
    case Some(d) => ["go", "movetime", Format(e.movetime), "depth", Format(d)]
  }

  /** A line the engine reads as `words`: the words joined by single spaces, then `'\n'`. */
  lemma TokensOf(line: string, words: seq<string>)
    requires |words| > 0 && SeparatorFree(words, ' ')
    requires line == Join(words, " ") + "\n"
    ensures Split(Body(line), ' ') == words
  {
    BodyNewline(Join(words, " "));
    SplitJoin(words, ' ');
  }

  lemma JoinGo(f: string)
    ensures Join(["go", "movetime", f], " ") == "go movetime " + f
  {
    JoinCons("go", ["movetime", f], " ");
    JoinCons("movetime", [f], " ");
    assert ["go", "movetime", f] == ["go"] + ["movetime", f];
    assert ["movetime", f] == ["movetime"] + [f];
  }

  lemma JoinGoDepth(f: string, g: string)
    ensures Join(["go", "movetime", f, "depth", g], " ") == "go movetime " + f + " depth " + g
  {
    JoinCons("go", ["movetime", f, "depth", g], " ");
    JoinCons("movetime", [f, "depth", g], " ");
    JoinCons(f, ["depth", g], " ");
    JoinCons("depth", [g], " ");
    assert ["go", "movetime", f, "depth", g] == ["go"] + ["movetime", f, "depth", g];
    assert ["movetime", f, "depth", g] == ["movetime"] + [f, "depth", g];
    assert [f, "depth", g] == [f] + ["depth", g];
    assert ["depth", g] == ["depth"] + [g];
  }

  /** The engine reads back exactly the tokens of the `go` line. */
  lemma GoTokens(e: Engine)
    ensures Split(Body(GoCommand(e)), ' ') == GoWords(e)
  {
    var f := Format(e.movetime);
    DigitsHaveNoSpace(f);
    match e.depth
    case None =>
      JoinGo(f);
      assert GoCommand(e) == ("go movetime " + f) + "\n";
      TokensOf(GoCommand(e), GoWords(e));
    case Some(d) =>
      var g := Format(d);
      DigitsHaveNoSpace(g);
      JoinGoDepth(f, g);
      assert GoCommand(e) == ("go movetime " + f + " depth " + g) + "\n";
      TokensOf(GoCommand(e), GoWords(e));
  }

  /** Reading the `go` line back gives the settings it was written from. */
  lemma GoRoundTrip(e: Engine)
    ensures DecodeGo(GoCommand(e)) == Some(e)
  {
    GoTokens(e);
    ReadFormat(e.movetime);
    if e.depth.Some? {
      ReadFormat(e.depth.value);
    }
  }

  /** Different settings give different `go` lines. */
  lemma GoCommandInjective(a: Engine, b: Engine)
    ensures GoCommand(a) == GoCommand(b) <==> a == b
  {
    GoRoundTrip(a);
    GoRoundTrip(b);
  }

  /** The tokens of a `moves` list: the moves themselves, or one empty token when there are none. */
  function MoveTokens(moves: seq<string>): (r: seq<string>)
    ensures |r| > 0
    ensures |moves| > 0 ==> r == moves
  {
    if |moves| == 0 then [""] else moves
  }

  /** Joining the move tokens gives the joined move list. */
  lemma JoinMoveTokens(moves: seq<string>)
    ensures Join(MoveTokens(moves), " ") == Join(moves, " ")
  {
  }

  /** The `position startpos` line is its tokens joined by single spaces. */
  lemma StartposLine(moves: seq<string>)
    ensures StartposCommand(moves) == Join(["position", "startpos", "moves"] + MoveTokens(moves), " ") + "\n"
  {
    var head := ["position", "startpos", "moves"];
    JoinCons("position", ["startpos", "moves"], " ");
    JoinCons("startpos", ["moves"], " ");
    assert head == ["position"] + ["startpos", "moves"];
    assert ["startpos", "moves"] == ["startpos"] + ["moves"];
    JoinAppend(head, MoveTokens(moves), " ");
    JoinMoveTokens(moves);
  }

  /** The engine reads `position`, `startpos`, `moves` and then exactly the moves given. */
  lemma StartposTokens(moves: seq<string>)
    requires SeparatorFree(moves, ' ')
    ensures Split(Body(StartposCommand(moves)), ' ') == ["position", "startpos", "moves"] + MoveTokens(moves)
  {
    StartposLine(moves);
    TokensOf(StartposCommand(moves), ["position", "startpos", "moves"] + MoveTokens(moves));
  }

  /** The `position fen` line regrouped around its separating spaces. */
  // A separate obligation: inside `FenLine` the literal regrouping is too large for the solver.
  lemma FenRegroup(fen: string, jm: string)
    ensures "position fen " + fen + " moves " + jm + "\n" == "position fen" + " " + fen + " " + "moves" + " " + jm + "\n"
  {
  }

  /** The `position fen` line is its tokens joined by single spaces. */
  lemma FenLine(fen: string, moves: seq<string>)
    ensures FenCommand(fen, moves) ==
              Join(["position", "fen"] + Split(fen, ' ') + ["moves"] + MoveTokens(moves), " ") + "\n"
  {
    var head := ["position", "fen"];
    var parts := Split(fen, ' ');
    var jm := Join(moves, " ");
    JoinCons("position", ["fen"], " ");
    assert head == ["position"] + ["fen"];
    assert Join(head, " ") == "position fen";
    JoinAppend(head, parts, " ");
    var j2 := Join(head + parts, " ");
    assert j2 == "position fen" + " " + fen;
    JoinAppend(head + parts, ["moves"], " ");
    var j3 := Join(head + parts + ["moves"], " ");
    assert j3 == j2 + " " + "moves";
    JoinAppend(head + parts + ["moves"], MoveTokens(moves), " ");
    JoinMoveTokens(moves);
    assert Join(head + parts + ["moves"] + MoveTokens(moves), " ") == j3 + " " + jm;
    FenRegroup(fen, jm);
  }

  /** The engine reads `position`, `fen`, the tokens of the FEN, `moves` and then exactly the moves given. */
  lemma FenTokens(fen: string, moves: seq<string>)
    requires SeparatorFree(moves, ' ')
    ensures Split(Body(FenCommand(fen, moves)), ' ') ==
              ["position", "fen"] + Split(fen, ' ') + ["moves"] + MoveTokens(moves)
  {
    var words := ["position", "fen"] + Split(fen, ' ') + ["moves"] + MoveTokens(moves);
    FenLine(fen, moves);
    assert SeparatorFree(words, ' ') by {
      forall i | 0 <= i < |words| ensures ' ' !in words[i] {
        if 2 <= i < 2 + |Split(fen, ' ')| {
          assert words[i] == Split(fen, ' ')[i - 2];
        }
      }
    }
    TokensOf(FenCommand(fen, moves), words);
  }

  /** `set_position` tells the engine the FEN and no move at all. */
  lemma SetPositionTokens(fen: string)
    ensures Split(Body(FenCommand(fen, [])), ' ') == ["position", "fen"] + Split(fen, ' ') + ["moves", ""]
  {
    FenTokens(fen, []);
  }
}
