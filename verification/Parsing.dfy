/** client/pgn.cpp, parse_game: one game of a PGN from the candidate's side. */
module Parsing {
  import opened Schema
  import opened GameText
  import opened Usage

  function MapTermination(tag: string): Termination {
    if tag == "" || tag == "normal" then Normal
    else if tag == "time forfeit" then Timeout
    else if tag == "illegal move" || tag == "rules infraction" then IllegalMove
    else if tag == "adjudication" then Adjudication
    else if tag == "abandoned" || tag == "stalled connection" || tag == "crash" || tag == "disconnect" then Crash
    else Other
  }

  datatype ParsedGame = ParsedGame(text: string, candidateIsWhite: bool, outcome: Outcome, termination: Termination,
                                   plyCount: Option<int>, durationMs: Option<int>,
                                   candidateUsage: Option<EngineUsage>, baselineUsage: Option<EngineUsage>)

  /** Throws: a conversion of a number throws out of parse_game. */
  datatype Parsed = NotAGame | Throws | Played(game: ParsedGame)

  const CANDIDATE := "candidate"

  function Tag(tags: map<string, string>, name: string): string {
    if name in tags then tags[name] else ""
  }

  /** Who moves first: the second field of the FEN. */
  function WhiteFirst(fen: string): bool {
    var space := RunEnd(fen, 0, c => c != ' ');
    !(space + 1 < |fen| && fen[space + 1] == 'b')
  }

  /** Read: the candidate played it, to a result. */
  predicate IsGame(tags: map<string, string>) {
    && (Tag(tags, "White") == CANDIDATE || Tag(tags, "Black") == CANDIDATE)
    && (Tag(tags, "Result") == "1/2-1/2" || Tag(tags, "Result") == "1-0" || Tag(tags, "Result") == "0-1")
  }

  function OutcomeFor(candidateIsWhite: bool, result: string): Outcome {
    if result == "1/2-1/2" then Draw else if (result == "1-0") == candidateIsWhite then CandidateWin else CandidateLoss
  }

  /** parse_game for the candidate's name. */
  function ParseGame(text: string, platform: Platform): Parsed {
    var tags := TagsOf(text);
    if !IsGame(tags) then NotAGame
    else
      var white := Tag(tags, "White") == CANDIDATE;
      var plyCount := if "PlyCount" in tags then Stoi(tags["PlyCount"]) else None;
      var duration := if "GameDuration" in tags then ParseDuration(tags["GameDuration"], platform) else NoMillis;
      var usage := UsageByColor(text, WhiteFirst(Tag(tags, "FEN")), platform);
      if duration.TooLong? || usage.None? then Throws
      else Played(ParsedGame(text, white, OutcomeFor(white, Tag(tags, "Result")),
                             MapTermination(Tag(tags, "Termination")), plyCount,
                             if duration.Millis? then Some(duration.ms) else None,
                             if white then usage.value.white else usage.value.black,
                             if white then usage.value.black else usage.value.white))
  }
}
