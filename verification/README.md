# uci-rs, modelled in Dafny

This is a model of the protocol layer of `uci`, a Rust client library that drives a chess engine over
the Universal Chess Interface (UCI). The library starts an engine process and writes text commands
to its standard input: `uci`, `position …`, `go …`, `setoption …` and `isready`. It reads the
engine's standard output line by line and turns the replies into results:
- the best move;
- a centipawn score;
- the engine's remaining output;
- whether an option was accepted.

The model replaces the process with its two pipes (`Uci.Pipes`):
- `stdout` is the sequence of read events still to come. Each event is a byte or a failed read.
- `stdin` either accepts writes or fails every write with one I/O error.
- `written` is the log of every string written so far.

Every operation of `Engine` is a pure function. The builders `movetime` and `depth` take a session and give a new one. Every operation that talks to the engine takes the pipes, and the session too when it reads the settings (`bestmove`, `evaluation`). It gives a `Uci.Step`, which is one of three things:
- `Returned`: the operation's `Result` (`Ok` or an `EngineError`) plus the pipes after the call;
- `Starved`: the output ran out before the byte or line the operation waits for, so the library would block for ever;
- `Panicked`: the library would panic on an out-of-range index.

Files:
- `wrappers.dfy`: `Option`.
- `text.dfy`: the `str` operations the library uses.
  - `trim`, with Unicode `White_Space`;
  - `split(' ')` and `join`;
  - `starts_with`;
  - `find`.
  - It also holds their algebra: split/join round trips and trimming around non-blank text.
- `decimal.dfy`: decimal `Display` of `u32`/`i32`, and `str::parse::<i32>`.
- `errors.dfy`: `src/error.rs`. This covers `EngineError`, its display text, `description`, `cause` and `From<io::Error>`.
- `uci.dfy`: `src/lib.rs`. This covers the session settings, the command lines, `read_line`, and every public and private operation.
- `uci_properties.dfy`: what each operation does on a framed transcript. A framed transcript is the engine output written as whole lines followed by the rest of the stream. Each lemma states which lines are consumed, what is returned and what is written.
- `commands.dfy`: what the engine reads from each command line: its space-separated tokens. It also reads the `go` line back into the settings it came from.
- `replies.dfy`: what the client extracts from `bestmove` and `info` replies, including the trailing-newline finding below.

Three behaviours of the code worth knowing:
- `new` runs `uci` through `command`, so it writes `isready` after `uci` and drains the output up to `readyok`.
- `evaluation` scores the token after the *first* `cp` token of the retained line (`find`), not the last.
- `set_option` fails only when some line before `readyok` has non-whitespace content. A line that is blank after trimming does not make it fail.

## Model

| member | source | states |
|---|---|---|
| Errors.Display | src/error.rs:18-26 | Each kind has its own fixed opening: `IO error: `, `No such option: '`, or exactly `Pattern not found`. The I/O text and the option name between the quotes can be read back from the message. |
| Errors.DisplayDistinguishes | src/error.rs:18-26 | Two errors with the same message are of the same kind. They carry the same option name or I/O text. |
| Errors.Description | src/error.rs:28-35 | `Io` gives the I/O error's own description. `UnknownOption` gives `Unknown option`. `NotFound` gives its display message. |
| Errors.Cause | src/error.rs:37-43 | There is a cause exactly for `Io`, and it is the wrapped I/O error. |
| Errors.FromIo | src/error.rs:46-50 | Converting an I/O error always gives `Io`, whose cause is that same error. |
| Text.Trim | src/lib.rs:212 | `trim` gives the empty text exactly for a blank text. Otherwise the result starts and ends with a non-whitespace character. |
| Text.TrimAround | src/lib.rs:212 | Trimming removes exactly the blank text around a core whose ends are not whitespace, which pins `trim` on every input. |
| Text.Join | src/lib.rs:91-92 | Joining no pieces gives the empty text, and joining one piece gives that piece. Longer lists are covered by `Text.JoinAppend`. |
| Text.JoinAppend | src/lib.rs:113-114 | Joining two non-empty lists is their two joins with one separator between. |
| Text.Split | src/lib.rs:154 | `split` gives at least one piece, and no piece holds the separator. Joining the pieces back with the separator gives the text. |
| Text.JoinInjective | src/lib.rs:154 | Separator-free pieces are determined by their join, so `split` is the only such division of the text. |
| Text.SplitJoin | src/lib.rs:154 | Splitting a join of separator-free pieces gives back exactly those pieces. |
| Text.FirstIndex | src/lib.rs:155-158 | The first position holding the value, or none exactly when the value does not occur. |
| Decimal.Format | src/lib.rs:119-123 | The decimal form of a number is a non-empty digit string with no leading zero, and its value is the number. |
| Decimal.ParseI32 | src/lib.rs:160-163 | A parse succeeds exactly on an optional `+` or `-` followed by at least one digit, with a signed value in the `i32` range. The result is that signed value, so `+5`, `007` and `-0` parse to 5, 7 and 0. |
| Decimal.ParseFormatInt | src/lib.rs:160-163 | Every `i32` parses back from its decimal form. |
| Decimal.NewlineTokenDoesNotParse | src/lib.rs:160-161 | A token that still ends in `'\n'` never parses. |
| Uci.Write | src/lib.rs:219-223 | A write appends exactly the text to the input log and leaves the output untouched. On a failed input it returns that `Io` error and writes nothing. |
| Uci.ReadLine | src/lib.rs:225-237 | A line read is a pure read: nothing is written, and the output advances to a strictly shorter suffix. A failed read gives an `Io` error. |
| Uci.ReadLineShape | src/lib.rs:225-237 | A line read ends in its only `'\n'`. Every character comes from one byte, and the events consumed are exactly that line's bytes. |
| Uci.ReadLineByBytes | src/lib.rs:225-237 | The byte-at-a-time loop computes exactly the line `ReadLine` describes. Each byte is appended before it is compared with `'\n'`. |
| UciProperties.ReadLineFramed | src/lib.rs:225-237 | On a complete line, `read_line` returns that line, `'\n'` included, and consumes exactly its bytes. |
| UciProperties.ReadLineFault | src/lib.rs:229-236 | A failed read is returned as `Io` with that error, whether it comes at the start of a line or after part of one. The partial line is dropped, and reading resumes after the failure. |
| Uci.Movetime | src/lib.rs:62-65 | The builder sets the move time and keeps the depth. |
| Uci.Depth | src/lib.rs:72-75 | The builder sets the depth and keeps the move time. |
| Uci.MakeMoves | src/lib.rs:90-94 | Writes exactly `position startpos moves ` + moves joined by spaces + `'\n'`, and reads nothing. On a failed input it writes nothing and returns the `Io` error. |
| Commands.StartposTokens | src/lib.rs:90-94 | The engine reads the tokens `position`, `startpos`, `moves` followed by exactly the moves given. With no moves, it reads one empty token. |
| Uci.MakeMovesFromPosition | src/lib.rs:112-116 | Writes exactly `position fen ` + fen + ` moves ` + moves joined by spaces + `'\n'`, and reads nothing. |
| Commands.FenTokens | src/lib.rs:112-116 | The engine reads `position`, `fen`, the FEN's own tokens and `moves`. Then come the moves given, or one empty token when there are none. |
| Uci.SetPosition | src/lib.rs:105-108 | The same as `make_moves_from_position` with no moves. It writes `position fen ` + fen + ` moves \n`, with the `moves` keyword present. |
| Commands.SetPositionTokens | src/lib.rs:105-108 | After a FEN position, the engine reads the `moves` keyword and one empty token. |
| Uci.DoMove | src/lib.rs:118-127 | Writes exactly the `go` line for the session's current settings, and reads nothing. |
| Commands.GoTokens | src/lib.rs:118-127 | The `go` line's tokens are `go movetime N`, followed by `depth D` exactly when a depth is set. |
| Commands.DecodeGo | src/lib.rs:118-127 | The reverse reading of a `go` line. A result's move time, and its depth if it has one, are the numbers in the matching token positions. |
| Commands.GoRoundTrip | src/lib.rs:118-127 | Reading a `go` line back gives exactly the settings it was written from. |
| Commands.GoCommandInjective | src/lib.rs:118-127 | Two settings give the same `go` line if and only if they are equal. |
| Uci.MoveField | src/lib.rs:135 | There is a move exactly when the line has a second space-separated field. The move holds no space and has no whitespace at either end. |
| Replies.MoveFieldOfReply | src/lib.rs:134-135 | From a reply `bestmove M\n` or `bestmove M ponder P\n`, the client takes exactly `M`. |
| Replies.BareBestMoveHasNoMove | src/lib.rs:135 | A `bestmove` line with no move has no second field, which is the index panic. |
| Uci.AwaitBestMove | src/lib.rs:132-137 | The loop only reads. Its errors are I/O errors, and a move it returns holds no space and is trimmed. |
| UciProperties.AwaitBestMoveFramed | src/lib.rs:132-137 | The loop skips every line before the first `bestmove` line and returns that line's trimmed second field, or panics when there is none. Nothing after that line is read. |
| UciProperties.AwaitBestMoveFault | src/lib.rs:132-133 | A failed read before any `bestmove` line, at a line boundary or after part of a line, ends the loop with that I/O error. |
| Uci.BestMove | src/lib.rs:130-138 | On a failed input nothing is read and the `Io` error is returned. Otherwise exactly the `go` line is written. |
| UciProperties.BestMoveFramed | src/lib.rs:130-138 | `bestmove` writes the `go` line, then answers the move of the first `bestmove` line. It consumes output up to and including that line. |
| Uci.AwaitInfo | src/lib.rs:142-151 | The loop only reads. The kept line is either the incoming one or a complete line read that starts with `info`. |
| UciProperties.LastInfo | src/lib.rs:143-151 | Reference definition: the last line starting with `info`, or the given default. It is always the default or an `info` line from the list. |
| UciProperties.LastInfoCons | src/lib.rs:143-151 | Scanning front to back and overwriting on each `info` line finds the same line as looking from the back. |
| UciProperties.AwaitInfoFramed | src/lib.rs:142-151 | The loop keeps the last `info` line before the first `bestmove` line, or the incoming line when there is none. Nothing after the `bestmove` line is read. |
| UciProperties.AwaitInfoFault | src/lib.rs:143-144 | A failed read before any `bestmove` line, at a line boundary or after part of a line, ends the loop with that I/O error. Reading resumes after the failure. |
| Uci.ScoreOf | src/lib.rs:153-163 | The only error is `NotFound`, and scores lie in the `i32` range. A line without a `cp` token gives `NotFound`. |
| Uci.CpIsNeverLast | src/lib.rs:154-160 | In an empty or `'\n'`-terminated line, a `cp` token always has a token after it, so the index at line 160 cannot panic. |
| Uci.ScoreOfFirstCp | src/lib.rs:154-163 | The first `cp` token alone decides the score. The score is the `i32` the next token spells, or `NotFound` when that token does not parse. |
| Uci.Evaluation | src/lib.rs:140-164 | On a failed input nothing is read and the `Io` error is returned. Otherwise exactly the `go` line is written. |
| UciProperties.EvaluationFramed | src/lib.rs:140-164 | `evaluation` writes the `go` line, then scores the last `info` line before the first `bestmove` line, or the empty line when there is none. It consumes output up to and including the `bestmove` line. |
| Replies.InfoLineTokens | src/lib.rs:154 | In an `info` line, the token after `cp` is the score's decimal form. When the score ends the line, that token still carries the `'\n'`. |
| Replies.ScoreOfInfoLine | src/lib.rs:153-163 | A score followed by more tokens is found. A score that ends the line gives `NotFound`. |
| Replies.SampleScore | src/lib.rs:153 | The sample line in the source, with more fields after `cp -1933`, scores `-1933`. |
| Replies.StalemateScoreNotFound | src/lib.rs:154-161 | The line `info depth 0 score cp 0\n` gives `NotFound`. |
| Replies.ScoreOfTrimmed | src/lib.rs:160-163 | The corrected scoring can fail only with `NotFound`, and its scores lie in the `i32` range. |
| Replies.ScoreOfTrimmedExtends | src/lib.rs:160-163 | Wherever the code as written finds a score, the corrected scoring finds the same one. |
| Replies.ScoreOfTrimmedFirstCp | src/lib.rs:154-163 | In the corrected scoring, the first `cp` token also decides the score, after trimming the next token. |
| Replies.ScoreOfTrimmedInfoLine | src/lib.rs:153-163 | The corrected scoring finds the score wherever it stands in the line, including at the end. |
| Replies.StalemateScoreTrimmed | src/lib.rs:154-163 | The corrected scoring gives `Ok(0)` for `info depth 0 score cp 0\n`. |
| Uci.AwaitReady | src/lib.rs:210-216 | The loop only reads, and its errors are I/O errors. |
| UciProperties.AwaitReadyFramed | src/lib.rs:210-216 | The loop collects every line before the first line that trims to `readyok`, each trimmed and in arrival order. It answers them joined by `'\n'` and reads nothing after the `readyok` line. |
| UciProperties.AwaitReadyFault | src/lib.rs:210-211 | A failed read before the `readyok` line, at a line boundary or after part of a line, ends the loop with that I/O error. The lines collected so far are dropped. |
| Uci.ReadLeftOutput | src/lib.rs:206-217 | Writes exactly `isready\n` before reading. On a failed input it writes nothing and returns the `Io` error. |
| UciProperties.ReadLeftOutputFramed | src/lib.rs:206-217 | After `isready\n`, the answer is the trimmed lines before `readyok`, joined by `'\n'`. The output is consumed up to the `readyok` line. |
| Uci.Command | src/lib.rs:200-204 | Writes the command trimmed plus `'\n'`, then `isready\n`. Its errors are I/O errors. |
| UciProperties.CommandFramed | src/lib.rs:200-204 | The trimmed command line and `isready` are written, and the answer is the engine's trimmed output up to `readyok`. |
| Uci.SetOption | src/lib.rs:179-189 | Writes exactly the `setoption` line, then `isready`. The only errors are I/O errors and `UnknownOption` with the given name. |
| UciProperties.DrainedBlank | src/lib.rs:182-184 | The collected output trims to nothing exactly when every line before `readyok` is whitespace only. |
| UciProperties.SetOptionFramed | src/lib.rs:179-189 | `set_option` succeeds exactly when every line before `readyok` is blank, and otherwise fails with `UnknownOption(name)`. Either way it writes the `setoption` line and `isready`. |
| Uci.UciIsTrimmed | src/lib.rs:52 | The handshake command is written as exactly `uci\n`. |
| Uci.New | src/lib.rs:38-55 | A successful `new` gives a session with move time 100 and no depth, having written `uci\n` and `isready\n`. Its errors are I/O errors. |
| UciProperties.NewAfterBanner | src/lib.rs:51-54 | After the banner line, `new` returns the fresh session exactly when `command("uci")` succeeds. When it fails, `new` returns the same error with the same pipes, and `new` waits for ever exactly when `command("uci")` does. |
| UciProperties.NewFramed | src/lib.rs:38-55 | `new` consumes exactly one banner line and drains the `uci` output up to `readyok`. It writes `uci\n` and `isready\n` and answers `movetime = 100`, `depth = None`. |

## Left out

- Process start (`Command::new`, the piped streams, the panicking `expect`): the model starts from the engine's pipes as given.
- The `RefCell` around the child process: the model is sequential, so exclusive borrowing has nothing to check.
- The 100 ms sleep in `command`: it is timing only. The result is decided by the `isready`/`readyok` exchange the model keeps.
- The `info!` log line in `write_fmt`: it is telemetry only.
- The contents of `io::Error`: an I/O error is an opaque `IoFault` carrying only its display text and description.
- Write failures: a failing input fails every write with the same error. Partial writes are not modelled.
- End of stream: `read` returning 0 bytes makes `read_line` push the stale buffer byte again and loop for ever. The model reports this, like a read that would block, as `Starved`.
- The three engine-dependent tests (`it_works`, `test_depth`, `test_evaluation`): they check Stockfish's search results, not this code.
- Uci.Evaluation: it keeps the scoring as written (`ScoreOf`), so the model matches the code. The corrected scoring `Replies.ScoreOfTrimmed` is stated and proved beside it.
- Commands.StartposTokens: stated only for moves that hold no space. A move with a space would reach the engine as several tokens.
- Commands.FenTokens: stated only for moves that hold no space, for the same reason. The FEN itself may hold any text.
- Uci.SetOption, Uci.Command, Uci.New: an input that accepts one write accepts every later one. So these never fail between their first write and the `isready` write. The library can: an engine that exits after reading `setoption` makes the `isready` write at src/lib.rs:209 fail with only the first line sent. Their contracts ("writes X, then `isready`") hold only under this simplification.

## Findings

| source | as written | input that shows it | evidently intended | confidence | as-written member | corrected member |
|---|---|---|---|---|---|---|
| src/lib.rs:154-162 | The token after the first `cp` is parsed exactly as split from the retained line. `read_line` keeps the line's `'\n'`, so a score that ends the `info` line never parses and `evaluation` answers `NotFound`. | `info depth 0 score cp 0\n`, the last `info` line a search prints in a stalemate position, gives `NotFound`. | The score token is parsed without the line terminator, which gives `Ok(0)`. | medium; not executed | Replies.StalemateScoreNotFound | Replies.ScoreOfTrimmed |
