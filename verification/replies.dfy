/**
  What the client makes of the replies a UCI engine sends: the move of a
  `bestmove` line, and the centipawn score of an `info` line, both as the
  client computes it and with the value token trimmed.
 */
module Replies {
  import opened Wrappers
  import opened Text
  import opened Decimal
  import opened Errors
  import opened Uci

  // ---------------------------------------------------------------- bestmove

  /** The line an engine ends a search with, with or without a move to ponder on. */
  function BestMoveReply(m: string, ponder: Option<string>): string {
    "bestmove " + m + (match ponder case None => "" case Some(pm) => " ponder " + pm) + "\n"
  }

  /** A move as engines write it: at least one character, no space, no whitespace at either end. */
  predicate IsMoveText(m: string) {
    m != [] && ' ' !in m && !IsWhitespace(m[0]) && !IsWhitespace(m[|m| - 1])
  }

  /** A move is its own trim, alone or before the line's `'\n'`. */
  lemma TrimMove(m: string, end: string)
    requires IsMoveText(m) && (end == "\n" || end == "")
    ensures Trim(m + end) == m
  {
    assert [] + m + end == m + end;
    TrimAround([], m, end);
  }

  /** The fields of a `bestmove` reply: the move is the second one, possibly with the `'\n'`. */
  lemma ReplyFields(m: string, ponder: Option<string>)
    requires IsMoveText(m)
    ensures var fields := Split(BestMoveReply(m, ponder), ' ');
            |fields| >= 2 && fields[1] == m + (if ponder.None? then "\n" else "")
  {
    match ponder
    case None =>
      assert BestMoveReply(m, ponder) == "bestmove" + [' '] + (m + "\n");
      SplitWhole(m + "\n", ' ');
      SplitFirst("bestmove", m + "\n", ' ');
    case Some(pm) =>
      var tail := "ponder " + pm + "\n";
      assert BestMoveReply(m, ponder) == "bestmove" + [' '] + (m + [' '] + tail);
      SplitFirst(m, tail, ' ');
      SplitFirst("bestmove", m + [' '] + tail, ' ');
  }

  /** The client reports exactly the move of a `bestmove` reply, whether or not a ponder move follows. */
  lemma MoveFieldOfReply(m: string, ponder: Option<string>)
    requires IsMoveText(m)
    ensures MoveField(BestMoveReply(m, ponder)) == Some(m)
  {
    ReplyFields(m, ponder);
    TrimMove(m, if ponder.None? then "\n" else "");
  }

  /** A `bestmove` line without a move has no second field: the client panics on it. */
  lemma BareBestMoveHasNoMove()
    ensures MoveField("bestmove\n") == None
  {
    SplitWhole("bestmove\n", ' ');
  }

  // ---------------------------------------------------------------- score

  /** The decimal form of an `i32` holds no space and no whitespace at its ends. */
  lemma FormatIntIsMoveText(n: int)
    ensures IsMoveText(FormatInt(n))
  {
    if n < 0 {
      var f := Format(-n);
      assert FormatInt(n) == "-" + f;
      assert FormatInt(n)[|FormatInt(n)| - 1] == f[|f| - 1];
      assert ' ' !in f;
    } else {
      var f := Format(n);
      assert ' ' !in f;
    }
  }

  /** The tokens of a line of space-separated words: the words, the last one still carrying the `'\n'`. */
  lemma LineSplit(words: seq<string>)
    requires |words| > 0 && SeparatorFree(words, ' ')
    ensures Split(Join(words, " ") + "\n", ' ') == words[..|words| - 1] + [words[|words| - 1] + "\n"]
  {
    var ws := words[..|words| - 1] + [words[|words| - 1] + "\n"];
    JoinExtendLast(words, " ", "\n");
    assert SeparatorFree(ws, ' ') by {
      forall i | 0 <= i < |ws| ensures ' ' !in ws[i] {
        if i < |words| - 1 {
          assert ws[i] == words[i];
        }
      }
    }
    SplitJoin(ws, ' ');
  }

  /** An `info` line: the tokens `ts`, then `cp` and the score, then the tokens `more`. */
  function InfoLine(ts: seq<string>, n: int, more: seq<string>): string {
    Join(ts + ["cp", FormatInt(n)] + more, " ") + "\n"
  }

  /** Where the score's token stands in the line, and what it holds. */
  lemma InfoLineTokens(ts: seq<string>, n: int, more: seq<string>)
    requires SeparatorFree(ts, ' ') && SeparatorFree(more, ' ')
    ensures var parts := Split(InfoLine(ts, n, more), ' ');
            |ts| + 1 < |parts| && parts[..|ts|] == ts && parts[|ts|] == "cp"
            && parts[|ts| + 1] == FormatInt(n) + (if |more| == 0 then "\n" else "")
  {
    var words := ts + ["cp", FormatInt(n)] + more;
    FormatIntIsMoveText(n);
    assert SeparatorFree(words, ' ') by {
      forall i | 0 <= i < |words| ensures ' ' !in words[i] {
        if i < |ts| {
          assert words[i] == ts[i];
        } else if |ts| + 2 <= i {
          assert words[i] == more[i - |ts| - 2];
        }
      }
    }
    LineSplit(words);
    var parts := Split(InfoLine(ts, n, more), ' ');
    assert parts[..|ts|] == words[..|ts|];
  }

  /**
    As written, the score is found only when more tokens follow it: a score
    that ends the line keeps the line's `'\n'`, does not parse, and the
    client answers `NotFound`.
   */
  lemma ScoreOfInfoLine(ts: seq<string>, n: int, more: seq<string>)
    requires SeparatorFree(ts, ' ') && SeparatorFree(more, ' ') && "cp" !in ts
    requires I32Min <= n <= I32Max
    ensures ScoreOf(InfoLine(ts, n, more)) == if |more| == 0 then Err(NotFound) else Ok(n)
  {
    var info := InfoLine(ts, n, more);
    InfoLineTokens(ts, n, more);
    var parts := Split(info, ' ');
    var v := parts[|ts| + 1];
    ScoreOfFirstCp(info, |ts|);
    if |more| == 0 {
      assert v == FormatInt(n) + "\n";
      NewlineTokenDoesNotParse(FormatInt(n));
      assert ParseI32(v) == None;
    } else {
      assert v == FormatInt(n);
      ParseFormatInt(n);
      assert ParseI32(v) == Some(n);
    }
  }

  /** The sample line of the evaluation routine, whose score `-1933` is followed by more fields. */
  lemma SampleScore()
    ensures ScoreOf(InfoLine(["info", "depth", "25", "seldepth", "34", "multipv", "1", "score"], -1933,
                             ["nodes", "18521596", "nps", "853018", "hashfull", "990", "tbhits", "0", "time", "21713", "pv", "d2d3"]))
            == Ok(-1933)
  {
    ScoreOfInfoLine(["info", "depth", "25", "seldepth", "34", "multipv", "1", "score"], -1933,
                    ["nodes", "18521596", "nps", "853018", "hashfull", "990", "tbhits", "0", "time", "21713", "pv", "d2d3"]);
  }

  /** The last `info` line of a search in a stalemate position. */
  const StalemateInfo := "info depth 0 score cp 0\n"

  /** Putting one word in front of a joined list. */
  lemma JoinFront(w: string, ws: seq<string>, j: string)
    requires |ws| > 0 && Join(ws, " ") == j
    ensures Join([w] + ws, " ") == w + " " + j
  {
    JoinCons(w, ws, " ");
  }

  /** The words of the stalemate line joined by spaces, built up from its end one word at a time. */
  // Each step is one small obligation; the whole literal at once is too large for the solver.
  lemma StalemateTail()
    ensures Join(["0", "score", "cp", "0"], " ") == "0 score cp 0"
  {
    JoinFront("cp", ["0"], "0");
    assert ["cp", "0"] == ["cp"] + ["0"];
    JoinFront("score", ["cp", "0"], "cp 0");
    assert ["score", "cp", "0"] == ["score"] + ["cp", "0"];
    JoinFront("0", ["score", "cp", "0"], "score cp 0");
    assert ["0", "score", "cp", "0"] == ["0"] + ["score", "cp", "0"];
  }

  lemma StalemateDepth()
    ensures Join(["depth", "0", "score", "cp", "0"], " ") == "depth 0 score cp 0"
  {
    StalemateTail();
    JoinFront("depth", ["0", "score", "cp", "0"], "0 score cp 0");
    assert ["depth", "0", "score", "cp", "0"] == ["depth"] + ["0", "score", "cp", "0"];
  }

  lemma StalemateWords()
    ensures Join(["info", "depth", "0", "score", "cp", "0"], " ") == "info depth 0 score cp 0"
  {
    StalemateDepth();
    JoinFront("info", ["depth", "0", "score", "cp", "0"], "depth 0 score cp 0");
    assert ["info", "depth", "0", "score", "cp", "0"] == ["info"] + ["depth", "0", "score", "cp", "0"];
  }

  /** The stalemate line is an `info` line whose score of 0 ends it. */
  lemma StalemateInfoLine()
    ensures StalemateInfo == InfoLine(["info", "depth", "0", "score"], 0, [])
  {
    StalemateWords();
    assert FormatInt(0) == "0";
    assert ["info", "depth", "0", "score"] + ["cp", FormatInt(0)] + [] == ["info", "depth", "0", "score", "cp", "0"];
  }

  /** As written, the stalemate line's score of 0 is not found. */
  lemma StalemateScoreNotFound()
    ensures ScoreOf(StalemateInfo) == Err(NotFound)
  {
    StalemateInfoLine();
    ScoreOfInfoLine(["info", "depth", "0", "score"], 0, []);
  }

  /**
    The score as evidently intended: the token after the first `cp`, with
    surrounding whitespace (the line's `'\n'`) removed before parsing.
   */
  function ScoreOfTrimmed(info: string): (r: Result<int>)
    requires info == [] || info[|info| - 1] == '\n'
    ensures r.Err? ==> r.error == NotFound
    ensures r.Ok? ==> I32Min <= r.value <= I32Max
    ensures "cp" !in Split(info, ' ') ==> r == Err(NotFound)
  {
    var parts := Split(info, ' ');
    match FirstIndex(parts, "cp")
    case None => Err(NotFound)
    case Some(i) =>
      CpIsNeverLast(info, i);
      match ParseI32(Trim(parts[i + 1]))
      case None => Err(NotFound)
      case Some(n) => Ok(n)
  }

  /** Trimming the value token changes nothing when the client already parses it. */
  lemma ScoreOfTrimmedExtends(info: string)
    requires info == [] || info[|info| - 1] == '\n'
    ensures ScoreOf(info).Ok? ==> ScoreOfTrimmed(info) == ScoreOf(info)
  {
    var parts := Split(info, ' ');
    match FirstIndex(parts, "cp")
    case None =>
    case Some(i) =>
      CpIsNeverLast(info, i);
      var t := parts[i + 1];
      if ParseI32(t).Some? {
        ParseI32Trimmed(t);
      }
  }

  /** A token that parses as an `i32` is its own trim. */
  lemma ParseI32Trimmed(t: string)
    requires ParseI32(t).Some?
    ensures Trim(t) == t
  {
    assert !IsWhitespace(t[0]);
    assert !IsWhitespace(t[|t| - 1]);
    assert [] + t + [] == t;
    TrimAround([], t, []);
  }

  /** With the value trimmed, the score is likewise decided by the first `cp` token alone. */
  lemma ScoreOfTrimmedFirstCp(info: string, i: nat)
    requires info == [] || info[|info| - 1] == '\n'
    requires i < |Split(info, ' ')| && Split(info, ' ')[i] == "cp" && "cp" !in Split(info, ' ')[..i]
    ensures i + 1 < |Split(info, ' ')|
    ensures ScoreOfTrimmed(info) == match ParseI32(Trim(Split(info, ' ')[i + 1]))
                                    case None => Err(NotFound)
                                    case Some(n) => Ok(n)
  {
    CpIsNeverLast(info, i);
    FirstIndexAt(Split(info, ' '), "cp", i);
  }

  /** The score's decimal form, with or without the line's `'\n'`, trims to itself. */
  lemma TrimScoreToken(n: int, end: string)
    requires end == "\n" || end == ""
    ensures Trim(FormatInt(n) + end) == FormatInt(n)
  {
    FormatIntIsMoveText(n);
    assert [] + FormatInt(n) + end == FormatInt(n) + end;
    TrimAround([], FormatInt(n), end);
  }

  /** With the value trimmed, the score is found wherever it stands in the line. */
  lemma ScoreOfTrimmedInfoLine(ts: seq<string>, n: int, more: seq<string>)
    requires SeparatorFree(ts, ' ') && SeparatorFree(more, ' ') && "cp" !in ts
    requires I32Min <= n <= I32Max
    ensures ScoreOfTrimmed(InfoLine(ts, n, more)) == Ok(n)
  {
    var info := InfoLine(ts, n, more);
    InfoLineTokens(ts, n, more);
    var v := Split(info, ' ')[|ts| + 1];
    ScoreOfTrimmedFirstCp(info, |ts|);
    TrimScoreToken(n, if |more| == 0 then "\n" else "");
    assert Trim(v) == FormatInt(n);
    ParseFormatInt(n);
  }

  /** The stalemate line scores 0 once the value is trimmed. */
  lemma StalemateScoreTrimmed()
    ensures ScoreOfTrimmed(StalemateInfo) == Ok(0)
  {
    StalemateInfoLine();
    ScoreOfTrimmedInfoLine(["info", "depth", "0", "score"], 0, []);
  }
}
