/**
  What the session's operations do to a transcript of whole engine lines.
  The engine's output is given as `Frames(lines) + rest`: complete lines, as
  the engine prints them, followed by anything at all. Each lemma states the
  operation's result, what it wrote, and that it stops reading right after the
  line that ends it.
 */
module UciProperties {
  import opened Wrappers
  import opened Text
  import opened Errors
  import opened Uci

  predicate AllWireLines(lines: seq<string>) {
    forall i :: 0 <= i < |lines| ==> IsWireLine(lines[i])
  }

  /** The output events that carry `lines`, one after another. */
  function Frames(lines: seq<string>): seq<Event>
    requires AllWireLines(lines)
  {
    if |lines| == 0 then [] else Encode(lines[0]) + Frames(lines[1..])
  }

  /** Unfolding `Frames` at its first line, in front of whatever follows the transcript. */
  lemma FramesCons(lines: seq<string>, tail: seq<Event>)
    requires AllWireLines(lines) && |lines| > 0
    ensures AllWireLines(lines[1..])
    ensures Frames(lines) + tail == Encode(lines[0]) + (Frames(lines[1..]) + tail)
  {
    assert Frames(lines) == Encode(lines[0]) + Frames(lines[1..]);
    Associative(Encode(lines[0]), Frames(lines[1..]), tail);
  }

  /** Unfolding `Frames` at its first line, when the transcript is followed by a terminating line and more. */
  lemma FramesStep(lines: seq<string>, last: seq<Event>, rest: seq<Event>)
    requires AllWireLines(lines) && |lines| > 0
    ensures AllWireLines(lines[1..])
    ensures Frames(lines) + last + rest == Encode(lines[0]) + (Frames(lines[1..]) + last + rest)
  {
    FramesCons(lines, last + rest);
    Associative(Frames(lines), last, rest);
    Associative(Frames(lines[1..]), last, rest);
  }

  /** Regrouping a concatenation. */
  // A separate step: stated inline, the same fact makes the framing lemmas' obligations too large.
  lemma Associative<T>(a: seq<T>, b: seq<T>, c: seq<T>)
    ensures (a + b) + c == a + (b + c)
  {
  }

  // ---------------------------------------------------------------- read_line

  /** `read_line` on a complete line returns exactly that line, `'\n'` included, and consumes exactly its bytes. */
  lemma ReadLineFramed(p: Pipes, line: string, rest: seq<Event>)
    requires IsWireLine(line) && p.stdout == Encode(line) + rest
    ensures ReadLine(p) == Returned(Ok(line), p.(stdout := rest))
  {
    var n := |line| - 1;
    assert p.stdout[n] == Byte(10);
    forall i | 0 <= i < n ensures p.stdout[i].Byte? && p.stdout[i].b != 10 {
      assert p.stdout[i] == Byte(line[i] as int);
    }
    var k := LineLength(p.stdout);
    assert k == n;
    assert Decode(p.stdout[..k + 1]) == line;
    assert p.stdout[k + 1..] == rest;
  }

  /**
    A failed read surfaces as the I/O error it carries, also after part of a
    line: the bytes read so far are dropped, and reading resumes after the
    failure.
   */
  lemma ReadLineFault(p: Pipes, partial: string, f: IoFault, rest: seq<Event>)
    requires Latin1(partial) && '\n' !in partial
    requires p.stdout == Encode(partial) + [Fault(f)] + rest
    ensures ReadLine(p) == Returned(Err(Io(f)), p.(stdout := rest))
  {
    var n := |partial|;
    forall i | 0 <= i < n ensures p.stdout[i].Byte? && p.stdout[i].b != 10 {
      assert p.stdout[i] == Byte(partial[i] as int);
      assert partial[i] in partial;
    }
    assert p.stdout[n] == Fault(f);
    assert LineLength(p.stdout) == n;
    assert p.stdout[n + 1..] == rest;
  }

  /** Without a newline byte or a failed read, `read_line` waits for ever. */
  lemma ReadLineStarves(p: Pipes)
    requires forall i :: 0 <= i < |p.stdout| ==> p.stdout[i].Byte? && p.stdout[i].b != 10
    ensures ReadLine(p) == Starved
  {
  }

  // ---------------------------------------------------------------- bestmove

  /**
    The `bestmove` read loop skips every line before the first one starting
    with `bestmove`, answers that line's second field trimmed (or panics when
    there is none), and reads nothing after it.
   */
  lemma {:induction false} AwaitBestMoveFramed(p: Pipes, skipped: seq<string>, last: string, rest: seq<Event>)
    requires AllWireLines(skipped) && IsWireLine(last)
    requires forall i :: 0 <= i < |skipped| ==> !StartsWith(skipped[i], "bestmove")
    requires StartsWith(last, "bestmove")
    requires p.stdout == Frames(skipped) + Encode(last) + rest
    ensures AwaitBestMove(p) == match MoveField(last)
                                case None => Panicked
                                case Some(m) => Returned(Ok(m), p.(stdout := rest))
    decreases |skipped|
  {
    if |skipped| == 0 {
      assert p.stdout == Encode(last) + rest;
      ReadLineFramed(p, last, rest);
    } else {
      var tail := Frames(skipped[1..]) + Encode(last) + rest;
      FramesStep(skipped, Encode(last), rest);
      AwaitBestMoveStep(p, skipped[0], tail);
      AwaitBestMoveFramed(p.(stdout := tail), skipped[1..], last, rest);
    }
  }

  /** A line that is not a `bestmove` line is skipped. */
  lemma AwaitBestMoveStep(p: Pipes, line: string, tail: seq<Event>)
    requires IsWireLine(line) && p.stdout == Encode(line) + tail
    requires !StartsWith(line, "bestmove")
    ensures AwaitBestMove(p) == AwaitBestMove(p.(stdout := tail))
  {
    ReadLineFramed(p, line, tail);
  }

  /**
    A failed read before any `bestmove` line, at a line boundary or after
    part of a line, ends `bestmove`'s loop with that I/O error.
   */
  lemma {:induction false} AwaitBestMoveFault(p: Pipes, skipped: seq<string>, partial: string, f: IoFault, rest: seq<Event>)
    requires AllWireLines(skipped) && Latin1(partial) && '\n' !in partial
    requires forall i :: 0 <= i < |skipped| ==> !StartsWith(skipped[i], "bestmove")
    requires p.stdout == Frames(skipped) + (Encode(partial) + [Fault(f)]) + rest
    ensures AwaitBestMove(p) == Returned(Err(Io(f)), p.(stdout := rest))
    decreases |skipped|
  {
    if |skipped| == 0 {
      assert p.stdout == Encode(partial) + [Fault(f)] + rest;
      ReadLineFault(p, partial, f, rest);
    } else {
      var failing := Encode(partial) + [Fault(f)];
      var tail := Frames(skipped[1..]) + failing + rest;
      FramesStep(skipped, failing, rest);
      AwaitBestMoveStep(p, skipped[0], tail);
      AwaitBestMoveFault(p.(stdout := tail), skipped[1..], partial, f, rest);
    }
  }

  /** `bestmove` writes the `go` line, then answers as its read loop does. */
  lemma BestMoveFramed(e: Engine, p: Pipes, skipped: seq<string>, last: string, rest: seq<Event>)
    requires p.stdin.Open?
    requires AllWireLines(skipped) && IsWireLine(last)
    requires forall i :: 0 <= i < |skipped| ==> !StartsWith(skipped[i], "bestmove")
    requires StartsWith(last, "bestmove")
    requires p.stdout == Frames(skipped) + Encode(last) + rest
    ensures BestMove(e, p) == match MoveField(last)
                              case None => Panicked
                              case Some(m) => Returned(Ok(m), Pipes(rest, Open, p.written + [GoCommand(e)]))
  {
    var q := p.(written := p.written + [GoCommand(e)]);
    AwaitBestMoveFramed(q, skipped, last, rest);
  }

  // ---------------------------------------------------------------- evaluation

  /** The last line starting with `info`, or `none` when no line does. */
  function LastInfo(lines: seq<string>, none: string): (r: string)
    ensures r == none || (r in lines && StartsWith(r, "info"))
  {
    if |lines| == 0 then none
    else if StartsWith(lines[|lines| - 1], "info") then lines[|lines| - 1]
    else LastInfo(lines[..|lines| - 1], none)
  }

  /** Scanning front to back with an accumulator finds the same line as looking from the back. */
  lemma {:induction false} LastInfoCons(line: string, lines: seq<string>, none: string)
    ensures LastInfo([line] + lines, none) == LastInfo(lines, if StartsWith(line, "info") then line else none)
    decreases |lines|
  {
    var ls := [line] + lines;
    if |lines| > 0 {
      assert ls[|ls| - 1] == lines[|lines| - 1];
      assert ls[..|ls| - 1] == [line] + lines[..|lines| - 1];
      LastInfoCons(line, lines[..|lines| - 1], none);
    } else {
      assert ls[..|ls| - 1] == [];
    }
  }

  /** A `bestmove` line is never an `info` line. */
  lemma BestmoveIsNotInfo(line: string)
    requires StartsWith(line, "bestmove")
    ensures !StartsWith(line, "info")
  {
    assert line[0] == 'b';
  }

  /**
    The `evaluation` read loop keeps the last `info` line before the first
    `bestmove` line (the incoming one when there is none) and reads nothing
    after the `bestmove` line.
   */
  lemma {:induction false} AwaitInfoFramed(p: Pipes, info: string, skipped: seq<string>, last: string, rest: seq<Event>)
    requires AllWireLines(skipped) && IsWireLine(last)
    requires forall i :: 0 <= i < |skipped| ==> !StartsWith(skipped[i], "bestmove")
    requires StartsWith(last, "bestmove")
    requires p.stdout == Frames(skipped) + Encode(last) + rest
    ensures AwaitInfo(p, info) == Returned(Ok(LastInfo(skipped, info)), p.(stdout := rest))
    decreases |skipped|
  {
    if |skipped| == 0 {
      AwaitInfoNone(p, info, skipped, last, rest);
    } else {
      var latest := if StartsWith(skipped[0], "info") then skipped[0] else info;
      AwaitInfoShift(p, info, skipped, last, rest);
      AwaitInfoFramed(p.(stdout := Frames(skipped[1..]) + Encode(last) + rest), latest, skipped[1..], last, rest);
    }
  }

  /** The first skipped line is consumed the same way by the loop and by the reference definition. */
  lemma AwaitInfoShift(p: Pipes, info: string, skipped: seq<string>, last: string, rest: seq<Event>)
    requires AllWireLines(skipped) && |skipped| > 0 && IsWireLine(last)
    requires !StartsWith(skipped[0], "bestmove")
    requires p.stdout == Frames(skipped) + Encode(last) + rest
    ensures var latest := if StartsWith(skipped[0], "info") then skipped[0] else info;
            AwaitInfo(p, info) == AwaitInfo(p.(stdout := Frames(skipped[1..]) + Encode(last) + rest), latest)
            && LastInfo(skipped, info) == LastInfo(skipped[1..], latest)
  {
    FramesStep(skipped, Encode(last), rest);
    AwaitInfoStep(p, info, skipped[0], Frames(skipped[1..]) + Encode(last) + rest);
    LastInfoCons(skipped[0], skipped[1..], info);
    assert skipped == [skipped[0]] + skipped[1..];
  }

  /** No skipped line: the `bestmove` line ends the loop with the incoming line. */
  lemma AwaitInfoNone(p: Pipes, info: string, skipped: seq<string>, last: string, rest: seq<Event>)
    requires |skipped| == 0 && IsWireLine(last)
    requires StartsWith(last, "bestmove")
    requires p.stdout == Frames(skipped) + Encode(last) + rest
    ensures AwaitInfo(p, info) == Returned(Ok(LastInfo(skipped, info)), p.(stdout := rest))
  {
    assert skipped == [];
    assert p.stdout == Encode(last) + rest;
    ReadLineFramed(p, last, rest);
    BestmoveIsNotInfo(last);
  }

  /** One line that is not a `bestmove` line: remember it if it is an `info` line, and go on. */
  lemma AwaitInfoStep(p: Pipes, info: string, line: string, tail: seq<Event>)
    requires IsWireLine(line) && p.stdout == Encode(line) + tail
    requires !StartsWith(line, "bestmove")
    ensures AwaitInfo(p, info) == AwaitInfo(p.(stdout := tail), if StartsWith(line, "info") then line else info)
  {
    ReadLineFramed(p, line, tail);
  }

  /**
    A failed read before any `bestmove` line, at a line boundary or after
    part of a line, ends `evaluation`'s loop with that I/O error.
   */
  lemma {:induction false} AwaitInfoFault(p: Pipes, info: string, skipped: seq<string>, partial: string, f: IoFault, rest: seq<Event>)
    requires AllWireLines(skipped) && Latin1(partial) && '\n' !in partial
    requires forall i :: 0 <= i < |skipped| ==> !StartsWith(skipped[i], "bestmove")
    requires p.stdout == Frames(skipped) + (Encode(partial) + [Fault(f)]) + rest
    ensures AwaitInfo(p, info) == Returned(Err(Io(f)), p.(stdout := rest))
    decreases |skipped|
  {
    if |skipped| == 0 {
      assert p.stdout == Encode(partial) + [Fault(f)] + rest;
      ReadLineFault(p, partial, f, rest);
    } else {
      var failing := Encode(partial) + [Fault(f)];
      var tail := Frames(skipped[1..]) + failing + rest;
      FramesStep(skipped, failing, rest);
      AwaitInfoStep(p, info, skipped[0], tail);
      var latest := if StartsWith(skipped[0], "info") then skipped[0] else info;
      AwaitInfoFault(p.(stdout := tail), latest, skipped[1..], partial, f, rest);
    }
  }

  /** `evaluation` writes the `go` line and scores the last `info` line before `bestmove`. */
  lemma EvaluationFramed(e: Engine, p: Pipes, skipped: seq<string>, last: string, rest: seq<Event>)
    requires p.stdin.Open?
    requires AllWireLines(skipped) && IsWireLine(last)
    requires forall i :: 0 <= i < |skipped| ==> !StartsWith(skipped[i], "bestmove")
    requires StartsWith(last, "bestmove")
    requires p.stdout == Frames(skipped) + Encode(last) + rest
    ensures var info := LastInfo(skipped, "");
            (info == [] || IsWireLine(info))
            && Evaluation(e, p) == Returned(ScoreOf(info), Pipes(rest, Open, p.written + [GoCommand(e)]))
  {
    var q := p.(written := p.written + [GoCommand(e)]);
    AwaitInfoFramed(q, "", skipped, last, rest);
    LastInfoIsWireLine(skipped);
    EvaluationAfter(e, p, LastInfo(skipped, ""), Pipes(rest, Open, p.written + [GoCommand(e)]));
  }

  /** The retained line is empty or one of the complete lines read. */
  lemma LastInfoIsWireLine(lines: seq<string>)
    requires AllWireLines(lines)
    ensures var info := LastInfo(lines, ""); info == [] || IsWireLine(info)
  {
    var info := LastInfo(lines, "");
    if info != [] {
      var i :| 0 <= i < |lines| && lines[i] == info;
    }
  }

  /** `evaluation` scores whatever its read loop retained. */
  lemma EvaluationAfter(e: Engine, p: Pipes, info: string, after: Pipes)
    requires p.stdin.Open? && (info == [] || IsWireLine(info))
    requires AwaitInfo(p.(written := p.written + [GoCommand(e)]), "") == Returned(Ok(info), after)
    ensures Evaluation(e, p) == Returned(ScoreOf(info), after)
  {
  }

  // ---------------------------------------------------------------- synchronisation

  /** Each line trimmed, in order. */
  function TrimAll(lines: seq<string>): (r: seq<string>)
    ensures |r| == |lines|
  {
    if |lines| == 0 then [] else [Trim(lines[0])] + TrimAll(lines[1..])
  }

  lemma {:induction false} TrimAllAt(lines: seq<string>, i: nat)
    requires i < |lines|
    ensures TrimAll(lines)[i] == Trim(lines[i])
    decreases i
  {
    if i > 0 {
      TrimAllAt(lines[1..], i - 1);
    }
  }

  /** One line that does not trim to `readyok`: keep it trimmed, and go on. */
  lemma AwaitReadyStep(p: Pipes, acc: seq<string>, line: string, tail: seq<Event>)
    requires IsWireLine(line) && p.stdout == Encode(line) + tail
    requires Trim(line) != "readyok"
    ensures AwaitReady(p, acc) == AwaitReady(p.(stdout := tail), acc + [Trim(line)])
  {
    ReadLineFramed(p, line, tail);
  }

  /** The line that trims to `readyok`: answer what was collected. */
  lemma AwaitReadyDone(p: Pipes, acc: seq<string>, ready: string, rest: seq<Event>)
    requires IsWireLine(ready) && p.stdout == Encode(ready) + rest
    requires Trim(ready) == "readyok"
    ensures AwaitReady(p, acc) == Returned(Ok(Join(acc, "\n")), p.(stdout := rest))
  {
    ReadLineFramed(p, ready, rest);
  }

  lemma AwaitReadyNone(p: Pipes, acc: seq<string>, chatter: seq<string>, ready: string, rest: seq<Event>)
    requires |chatter| == 0 && IsWireLine(ready)
    requires Trim(ready) == "readyok"
    requires p.stdout == Frames(chatter) + Encode(ready) + rest
    ensures AwaitReady(p, acc) == Returned(Ok(Join(acc + TrimAll(chatter), "\n")), p.(stdout := rest))
  {
    assert chatter == [];
    assert p.stdout == Encode(ready) + rest;
    assert acc + TrimAll(chatter) == acc;
    AwaitReadyDone(p, acc, ready, rest);
  }

  lemma TrimAllCons(acc: seq<string>, lines: seq<string>)
    requires |lines| > 0
    ensures acc + [Trim(lines[0])] + TrimAll(lines[1..]) == acc + TrimAll(lines)
  {
    Associative(acc, [Trim(lines[0])], TrimAll(lines[1..]));
  }

  /**
    The synchronisation loop collects every line before the first one that
    trims to `readyok`, each trimmed, joins them with `'\n'` in arrival order,
    and reads nothing after the `readyok` line.
   */
  lemma {:induction false} AwaitReadyFramed(p: Pipes, acc: seq<string>, chatter: seq<string>, ready: string, rest: seq<Event>)
    requires AllWireLines(chatter) && IsWireLine(ready)
    requires forall i :: 0 <= i < |chatter| ==> Trim(chatter[i]) != "readyok"
    requires Trim(ready) == "readyok"
    requires p.stdout == Frames(chatter) + Encode(ready) + rest
    ensures AwaitReady(p, acc) == Returned(Ok(Join(acc + TrimAll(chatter), "\n")), p.(stdout := rest))
    decreases |chatter|
  {
    if |chatter| == 0 {
      AwaitReadyNone(p, acc, chatter, ready, rest);
    } else {
      var q := p.(stdout := Frames(chatter[1..]) + Encode(ready) + rest);
      FramesStep(chatter, Encode(ready), rest);
      assert Trim(chatter[0]) != "readyok";
      AwaitReadyStep(p, acc, chatter[0], q.stdout);
      var acc' := acc + [Trim(chatter[0])];
      AwaitReadyFramed(q, acc', chatter[1..], ready, rest);
      TrimAllCons(acc, chatter);
    }
  }

  /**
    A failed read before the `readyok` line, at a line boundary or after part
    of a line, ends `read_left_output`'s loop with that I/O error.
   */
  lemma {:induction false} AwaitReadyFault(p: Pipes, acc: seq<string>, chatter: seq<string>, partial: string, f: IoFault, rest: seq<Event>)
    requires AllWireLines(chatter) && Latin1(partial) && '\n' !in partial
    requires forall i :: 0 <= i < |chatter| ==> Trim(chatter[i]) != "readyok"
    requires p.stdout == Frames(chatter) + (Encode(partial) + [Fault(f)]) + rest
    ensures AwaitReady(p, acc) == Returned(Err(Io(f)), p.(stdout := rest))
    decreases |chatter|
  {
    if |chatter| == 0 {
      assert p.stdout == Encode(partial) + [Fault(f)] + rest;
      ReadLineFault(p, partial, f, rest);
    } else {
      var failing := Encode(partial) + [Fault(f)];
      var tail := Frames(chatter[1..]) + failing + rest;
      FramesStep(chatter, failing, rest);
      AwaitReadyStep(p, acc, chatter[0], tail);
      AwaitReadyFault(p.(stdout := tail), acc + [Trim(chatter[0])], chatter[1..], partial, f, rest);
    }
  }

  /** `read_left_output` writes `isready` and answers the collected lines. */
  lemma ReadLeftOutputFramed(p: Pipes, chatter: seq<string>, ready: string, rest: seq<Event>)
    requires p.stdin.Open?
    requires AllWireLines(chatter) && IsWireLine(ready)
    requires forall i :: 0 <= i < |chatter| ==> Trim(chatter[i]) != "readyok"
    requires Trim(ready) == "readyok"
    requires p.stdout == Frames(chatter) + Encode(ready) + rest
    ensures ReadLeftOutput(p) == Returned(Ok(Join(TrimAll(chatter), "\n")), Pipes(rest, Open, p.written + [IsReady]))
  {
    AwaitReadyFramed(p.(written := p.written + [IsReady]), [], chatter, ready, rest);
    assert [] + TrimAll(chatter) == TrimAll(chatter);
  }

  /** `command` writes the trimmed command and `isready`, and answers the collected lines. */
  lemma CommandFramed(p: Pipes, cmd: string, chatter: seq<string>, ready: string, rest: seq<Event>)
    requires p.stdin.Open?
    requires AllWireLines(chatter) && IsWireLine(ready)
    requires forall i :: 0 <= i < |chatter| ==> Trim(chatter[i]) != "readyok"
    requires Trim(ready) == "readyok"
    requires p.stdout == Frames(chatter) + Encode(ready) + rest
    ensures Command(p, cmd) ==
              Returned(Ok(Join(TrimAll(chatter), "\n")), Pipes(rest, Open, p.written + [Trim(cmd) + "\n", IsReady]))
  {
    var q := p.(written := p.written + [Trim(cmd) + "\n"]);
    ReadLeftOutputFramed(q, chatter, ready, rest);
  }

  /** A join with `'\n'` is blank exactly when every piece is. */
  lemma {:induction false} JoinBlank(xs: seq<string>)
    ensures IsBlank(Join(xs, "\n")) <==> forall i :: 0 <= i < |xs| ==> IsBlank(xs[i])
    decreases |xs|
  {
    if |xs| > 1 {
      JoinBlank(xs[1..]);
      JoinCons(xs[0], xs[1..], "\n");
      assert xs == [xs[0]] + xs[1..];
      var j := Join(xs, "\n");
      assert j == xs[0] + "\n" + Join(xs[1..], "\n");
      if IsBlank(j) {
        assert IsBlank(xs[0]) by {
          forall k | 0 <= k < |xs[0]| ensures IsWhitespace(xs[0][k]) { assert j[k] == xs[0][k]; }
        }
        assert IsBlank(Join(xs[1..], "\n")) by {
          var n := |xs[0]| + 1;
          forall k | 0 <= k < |Join(xs[1..], "\n")| ensures IsWhitespace(Join(xs[1..], "\n")[k]) {
            assert j[n + k] == Join(xs[1..], "\n")[k];
          }
        }
        forall i | 0 <= i < |xs| ensures IsBlank(xs[i]) {
          if i > 0 { assert xs[i] == xs[1..][i - 1]; }
        }
      } else {
        assert !IsBlank(xs[0]) || !IsBlank(Join(xs[1..], "\n"));
      }
    }
  }

  /** The collected lines trim to nothing exactly when every collected line is blank. */
  lemma DrainedBlank(chatter: seq<string>)
    ensures Trim(Join(TrimAll(chatter), "\n")) == [] <==> forall i :: 0 <= i < |chatter| ==> IsBlank(chatter[i])
  {
    var ts := TrimAll(chatter);
    JoinBlank(ts);
    forall i | 0 <= i < |chatter| ensures IsBlank(ts[i]) <==> IsBlank(chatter[i]) {
      TrimAllAt(chatter, i);
      if ts[i] != [] {
        assert !IsWhitespace(ts[i][0]);
      }
    }
  }

  /**
    `set_option` writes the `setoption` line and `isready`; it succeeds
    exactly when every line the engine printed before `readyok` is blank, and
    otherwise reports the option as unknown.
   */
  lemma SetOptionFramed(p: Pipes, name: string, value: string, chatter: seq<string>, ready: string, rest: seq<Event>)
    requires p.stdin.Open?
    requires AllWireLines(chatter) && IsWireLine(ready)
    requires forall i :: 0 <= i < |chatter| ==> Trim(chatter[i]) != "readyok"
    requires Trim(ready) == "readyok"
    requires p.stdout == Frames(chatter) + Encode(ready) + rest
    ensures var after := Pipes(rest, Open, p.written + [SetOptionCommand(name, value), IsReady]);
            SetOption(p, name, value) ==
              if forall i :: 0 <= i < |chatter| ==> IsBlank(chatter[i])
              then Returned(Ok(()), after)
              else Returned(Err(UnknownOption(name)), after)
  {
    var q := p.(written := p.written + [SetOptionCommand(name, value)]);
    ReadLeftOutputFramed(q, chatter, ready, rest);
    DrainedBlank(chatter);
  }

  // ---------------------------------------------------------------- new

  /**
    A new session reads and discards the banner line, writes `uci` and
    `isready`, drains the engine's output up to `readyok`, and starts with
    a 100 ms move time and no depth.
   */
  lemma NewFramed(p: Pipes, banner: string, chatter: seq<string>, ready: string, rest: seq<Event>)
    requires p.stdin.Open?
    requires IsWireLine(banner) && AllWireLines(chatter) && IsWireLine(ready)
    requires forall i :: 0 <= i < |chatter| ==> Trim(chatter[i]) != "readyok"
    requires Trim(ready) == "readyok"
    requires p.stdout == Encode(banner) + (Frames(chatter) + Encode(ready) + rest)
    ensures New(p) == Returned(Ok(Engine(100, None)), Pipes(rest, Open, p.written + ["uci\n", IsReady]))
  {
    var tail := Frames(chatter) + Encode(ready) + rest;
    var q := p.(stdout := tail);
    CommandFramed(q, "uci", chatter, ready, rest);
    UciIsTrimmed();
    NewAfterBanner(p, banner, tail);
    assert Fresh == Engine(100, None);
  }

  /**
    After the banner line, `new` answers a fresh session exactly when
    `command("uci")` succeeds, and otherwise its error or its wait.
   */
  lemma NewAfterBanner(p: Pipes, banner: string, tail: seq<Event>)
    requires IsWireLine(banner) && p.stdout == Encode(banner) + tail
    ensures var c := Command(p.(stdout := tail), "uci");
            c.Returned? && c.result.Ok? ==> New(p) == Returned(Ok(Fresh), c.pipes)
    ensures var c := Command(p.(stdout := tail), "uci");
            c.Returned? && c.result.Err? ==> New(p) == Returned(Err(c.result.error), c.pipes)
    ensures var c := Command(p.(stdout := tail), "uci");
            c.Starved? <==> New(p).Starved?
  {
    ReadLineFramed(p, banner, tail);
  }
}
