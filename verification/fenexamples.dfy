/** Records worked through end to end: the standard initial position, a
    middlegame position, and the same position with two faults. Each record
    is assembled from its rank texts and its five other fields, so that its
    text and its fields are related by the general split/join lemmas. */
module FenExamples {
  import opened FenTypes
  import opened Alphabet
  import opened Split
  import opened Placement
  import opened Fields
  import opened Fen

  // ---------------------------------------------------------------------
  // Assembling a record text
  // ---------------------------------------------------------------------

  /** The record line with placement `ranks` joined by '/', followed by the
      five other fields, single-space separated. */
  function FenText(ranks: seq<string>, rest: seq<string>): string
    requires |ranks| == 8
  {
    JoinWords([JoinOn(ranks, '/')] + rest)
  }

  /** Eight non-empty rank texts with no '/' and no whitespace. */
  predicate PlainRanks(ranks: seq<string>) {
    |ranks| == 8 && forall k :: 0 <= k < 8 ==> |ranks[k]| > 0 && NoSpace(ranks[k]) && '/' !in ranks[k]
  }

  /** Rank texts and fields that contain no separator of their own. */
  predicate PlainTexts(ranks: seq<string>, rest: seq<string>) {
    PlainRanks(ranks) && |rest| == 5 && ValidWords(rest)
  }

  /** Splitting an assembled record gives back its pieces, and its placement
      decodes rank by rank from rank 1. */
  lemma FenTextFields(ranks: seq<string>, rest: seq<string>)
    requires PlainTexts(ranks, rest)
    ensures Words(FenText(ranks, rest)) == [JoinOn(ranks, '/')] + rest
    ensures SplitOn(JoinOn(ranks, '/'), '/') == ranks
    ensures DecodePlacement(JoinOn(ranks, '/')) == DecodeRanks(ranks)
  {
    var p := JoinOn(ranks, '/');
    SplitJoin(ranks, '/');
    JoinOnNoSpace(ranks, '/');
    var ws := [p] + rest;
    assert |p| >= |ranks[0]| > 0;
    assert forall k :: 1 <= k < 6 ==> ws[k] == rest[k - 1];
    WordsJoin(ws);
  }

  /** With every field accepted, the record holds the decoded board and the
      five other fields' values. */
  lemma FenTextRecord(ranks: seq<string>, rest: seq<string>)
    requires PlainTexts(ranks, rest)
    requires DecodeRanks(ranks).Ok?
    requires ParseSide(rest[0]).Ok? && ParseCastling(rest[1]).Ok? && ParseEnPassant(rest[2]).Ok?
    requires ParseHalfmove(rest[3]).Ok? && ParseFullmove(rest[4]).Ok?
    ensures ParseFen(FenText(ranks, rest)) == Ok(FenRecord(
      DecodeRanks(ranks).value, rest[0], rest[1], rest[2],
      ParseHalfmove(rest[3]).value, ParseFullmove(rest[4]).value))
  {
    FenTextFields(ranks, rest);
    var ws := [JoinOn(ranks, '/')] + rest;
    assert ws[1] == rest[0] && ws[2] == rest[1] && ws[3] == rest[2];
    assert ws[4] == rest[3] && ws[5] == rest[4];
    DecodeFieldsValues(ws);
  }

  /** A rank of piece letters only decodes to those pieces. */
  lemma PieceRank(s: string, i: nat)
    requires |s| == 8 && forall k :: 0 <= k < 8 ==> IsPiece(s[k])
    ensures DecodeRank(s, i).Ok? && Occupants(DecodeRank(s, i).value) == s
  {
    AllLetters(s);
  }

  /** Eight accepted ranks make an accepted placement. */
  lemma EightRanksAccepted(ranks: seq<string>)
    requires |ranks| == 8
    requires DecodeRank(ranks[0], 1).Ok? && DecodeRank(ranks[1], 2).Ok?
    requires DecodeRank(ranks[2], 3).Ok? && DecodeRank(ranks[3], 4).Ok?
    requires DecodeRank(ranks[4], 5).Ok? && DecodeRank(ranks[5], 6).Ok?
    requires DecodeRank(ranks[6], 7).Ok? && DecodeRank(ranks[7], 8).Ok?
    ensures DecodeRanks(ranks).Ok?
  {
    forall k | 0 <= k < 8
      ensures DecodeRank(ranks[k], k + 1).Ok?
    {
      assert k == 0 || k == 1 || k == 2 || k == 3 || k == 4 || k == 5 || k == 6 || k == 7;
    }
  }

  // ---------------------------------------------------------------------
  // The initial position
  // ---------------------------------------------------------------------

  const StartRanks: seq<string> :=
    ["rnbqkbnr", "pppppppp", "8", "8", "8", "8", "PPPPPPPP", "RNBQKBNR"]
  const StartRest: seq<string> := ["w", "KQkq", "-", "0", "1"]

  /** "rnbqkbnr/pppppppp/8/8/8/8/PPPPPPPP/RNBQKBNR w KQkq - 0 1" */
  const StartFen: string := FenText(StartRanks, StartRest)

  lemma StartRanksPlain()
    ensures PlainRanks(StartRanks)
  {
  }

  lemma StartRestWords()
    ensures |StartRest| == 5 && ValidWords(StartRest)
  {
  }


  /** The four piece ranks of the initial position. */
  lemma StartPieceRank(s: string, i: nat)
    requires s == "rnbqkbnr" || s == "pppppppp" || s == "PPPPPPPP" || s == "RNBQKBNR"
    ensures DecodeRank(s, i).Ok? && Occupants(DecodeRank(s, i).value) == s
  {
    PieceRank(s, i);
  }

  lemma StartRanksDecode(ranks: seq<string>)
    requires |ranks| == 8
    requires ranks[0] == "rnbqkbnr" && ranks[1] == "pppppppp" && ranks[6] == "PPPPPPPP" && ranks[7] == "RNBQKBNR"
    requires ranks[2] == "8" && ranks[3] == "8" && ranks[4] == "8" && ranks[5] == "8"
    ensures DecodeRanks(ranks).Ok?
    ensures var b := DecodeRanks(ranks).value;
            && Occupants(b[0]) == "rnbqkbnr" && Occupants(b[1]) == "pppppppp"
            && b[2] == Empties(8) && b[3] == Empties(8) && b[4] == Empties(8) && b[5] == Empties(8)
            && Occupants(b[6]) == "PPPPPPPP" && Occupants(b[7]) == "RNBQKBNR"
  {
    StartPieceRank(ranks[0], 1);
    StartPieceRank(ranks[1], 2);
    StartPieceRank(ranks[6], 7);
    StartPieceRank(ranks[7], 8);
    EightRanksAccepted(ranks);
  }

  lemma StartScalars(rest: seq<string>)
    requires rest == StartRest
    ensures ParseSide(rest[0]) == Ok("w") && ParseCastling(rest[1]) == Ok("KQkq")
    ensures ParseEnPassant(rest[2]) == Ok("-")
    ensures ParseHalfmove(rest[3]) == Ok(0) && ParseFullmove(rest[4]) == Ok(1)
  {
    assert "0"[..0] == [] && "1"[..0] == [];
  }

  /** The standard initial position: white to move, all four castling
      rights, no en-passant square, counters 0 and 1, and the pieces on
      ranks 1, 2, 7, 8 as the text lists them. */
  lemma StartPosition()
    ensures ParseFen(StartFen).Ok?
    ensures var rec := ParseFen(StartFen).value;
            && rec.sideToMove == "w" && rec.castling == "KQkq" && rec.enPassant == "-"
            && rec.halfmoveClock == 0 && rec.fullmoveNumber == 1
            && Occupants(rec.board[0]) == "rnbqkbnr" && Occupants(rec.board[1]) == "pppppppp"
            && rec.board[2] == Empties(8) && rec.board[3] == Empties(8)
            && rec.board[4] == Empties(8) && rec.board[5] == Empties(8)
            && Occupants(rec.board[6]) == "PPPPPPPP" && Occupants(rec.board[7]) == "RNBQKBNR"
  {
    StartRanksPlain();
    StartRestWords();
    StartRanksDecode(StartRanks);
    StartScalars(StartRest);
    FenTextRecord(StartRanks, StartRest);
  }

  // ---------------------------------------------------------------------
  // A middlegame position
  // ---------------------------------------------------------------------

  const GameRanks: seq<string> :=
    ["2r3k1", "p3bqp1", "Q2p3p", "3Pp3", "P3N3", "8", "5PPP", "5RK1"]
  const GameRest: seq<string> := ["b", "-", "-", "1", "27"]

  /** "2r3k1/p3bqp1/Q2p3p/3Pp3/P3N3/8/5PPP/5RK1 b - - 1 27" */
  const GameFen: string := FenText(GameRanks, GameRest)

  lemma GameRanksPlain()
    ensures PlainRanks(GameRanks)
  {
  }

  lemma GameRestWords()
    ensures |GameRest| == 5 && ValidWords(GameRest)
  {
  }


  // Each mixed rank of the middlegame position adds up to eight cells.

  lemma GameRankSymbols()
    ensures RankSymbols("2r3k1")
    ensures RankSymbols("p3bqp1")
    ensures RankSymbols("Q2p3p")
    ensures RankSymbols("3Pp3")
    ensures RankSymbols("P3N3")
    ensures RankSymbols("5PPP")
    ensures RankSymbols("5RK1")
  {
  }

  // One lemma per rank keeps each unfolding of `Width` on a literal small.

  lemma GameRank1()
    ensures Width("2r3k1") == 8
  {
  }

  lemma GameRank2()
    ensures Width("p3bqp1") == 8
  {
  }

  lemma GameRank3()
    ensures Width("Q2p3p") == 8
  {
  }

  lemma GameRank4()
    ensures Width("3Pp3") == 8
  {
  }

  lemma GameRank5()
    ensures Width("P3N3") == 8
  {
  }

  lemma GameRank7()
    ensures Width("5PPP") == 8
  {
  }

  lemma GameRank8()
    ensures Width("5RK1") == 8
  {
  }

  lemma GameRanksDecode(ranks: seq<string>)
    requires |ranks| == 8
    requires ranks[0] == "2r3k1" && ranks[1] == "p3bqp1" && ranks[2] == "Q2p3p" && ranks[3] == "3Pp3"
    requires ranks[4] == "P3N3" && ranks[5] == "8" && ranks[6] == "5PPP" && ranks[7] == "5RK1"
    ensures DecodeRanks(ranks).Ok?
  {
    GameRankSymbols();
    GameRank1();
    GameRank2();
    GameRank3();
    GameRank4();
    GameRank5();
    GameRank7();
    GameRank8();
    EightRanksAccepted(ranks);
  }

  lemma GameScalars(rest: seq<string>)
    requires rest == GameRest
    ensures ParseSide(rest[0]) == Ok("b") && ParseCastling(rest[1]) == Ok("-")
    ensures ParseEnPassant(rest[2]) == Ok("-")
    ensures ParseHalfmove(rest[3]) == Ok(1) && ParseFullmove(rest[4]) == Ok(27)
  {
    assert "1"[..0] == [] && "27"[..1] == "2" && "2"[..0] == [];
  }

  /** The middlegame record decodes with its scalar fields as given. */
  lemma GamePosition()
    ensures ParseFen(GameFen).Ok?
    ensures var rec := ParseFen(GameFen).value;
            && rec.sideToMove == "b" && rec.castling == "-" && rec.enPassant == "-"
            && rec.halfmoveClock == 1 && rec.fullmoveNumber == 27
  {
    GameRanksPlain();
    GameRestWords();
    GameRanksDecode(GameRanks);
    GameScalars(GameRest);
    FenTextRecord(GameRanks, GameRest);
  }

  // ---------------------------------------------------------------------
  // The same position with two faults
  // ---------------------------------------------------------------------

  /** The middlegame ranks with a first rank of 14 cells and a 'C' in rank 5. */
  const BadRanks: seq<string> :=
    ["2r3k7", "p3bqp1", "Q2p3p", "3Pp3", "P3C3", "8", "5PPP", "5RK1"]

  /** "2r3k7/p3bqp1/Q2p3p/3Pp3/P3C3/8/5PPP/5RK1 b - - 1 27" */
  const BadFen: string := FenText(BadRanks, GameRest)

  lemma BadRanksPlain()
    ensures PlainRanks(BadRanks)
  {
  }


  /** The first rank adds up to 2 + 1 + 3 + 1 + 7 = 14 cells. */
  lemma FirstRankWidth()
    ensures Width("2r3k7") == 14
  {
  }

  lemma FirstRankSymbols()
    ensures RankSymbols("2r3k7")
  {
  }

  lemma FirstRankTooWide(s: string)
    requires s == "2r3k7"
    ensures DecodeRank(s, 1) == Err(ParseError(RankWidth(1, 14)))
  {
    FirstRankSymbols();
    FirstRankWidth();
  }

  /** Checked on its own, the fifth rank fails on the 'C'. */
  lemma FifthRankBadChar(s: string)
    requires s == "P3C3"
    ensures DecodeRank(s, 5) == Err(LexicalError(BadPlacementChar(5, 'C')))
  {
    assert IsRankSymbol(s[0]) && IsRankSymbol(s[1]) && !IsRankSymbol(s[2]);
    DecodeRankFirstFault(s, 5, 2);
  }

  lemma BadRanksFail(ranks: seq<string>)
    requires |ranks| == 8 && ranks[0] == "2r3k7"
    ensures DecodeRanks(ranks) == Err(ParseError(RankWidth(1, 14)))
  {
    FirstRankTooWide(ranks[0]);
    DecodeRanksFirstFailure(ranks, 0);
  }

  /** Ranks are checked in order, so the record is rejected for its first
      rank's width, never for the 'C' in rank 5. */
  lemma BadFenFailsAtFirstRank()
    ensures ParseFen(BadFen) == Err(ParseError(RankWidth(1, 14)))
  {
    BadRanksPlain();
    GameRestWords();
    FenTextFields(BadRanks, GameRest);
    BadRanksFail(BadRanks);
    var ws := Words(BadFen);
    assert FieldError(0, ws[0]) == Some(ParseError(RankWidth(1, 14)));
    ParseFenFirstError(BadFen, 0);
  }
}
