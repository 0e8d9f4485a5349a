/** The top-level validator: split the record into six fields, then decode
    placement, side to move, castling, en passant, halfmove clock and
    fullmove number in that order, stopping at the first error. */
module Fen {
  import opened FenTypes
  import opened Alphabet
  import opened Split
  import opened Numbers
  import opened Placement
  import opened Fields

  /** What a decoded record always satisfies. */
  predicate ValidRecord(rec: FenRecord) {
    && WellShaped(rec.board)
    && rec.sideToMove in {"w", "b"}
    && ValidCastling(rec.castling) && |rec.castling| > 0
    && rec.enPassant in EnPassantTargets()
    && rec.halfmoveClock >= 0
    && rec.fullmoveNumber >= 1
  }

  /** `rec` is the record the six fields `ws` describe: the board their
      placement decodes to, the three text fields as given, and the values
      of the two counters. */
  predicate RecordOf(ws: seq<string>, rec: FenRecord)
    requires |ws| == 6
  {
    && DecodePlacement(ws[0]) == Ok(rec.board)
    && rec.sideToMove == ws[1]
    && rec.castling == ws[2]
    && rec.enPassant == ws[3]
    && AllDigits(ws[4]) && rec.halfmoveClock == DigitsValue(ws[4])
    && AllDigits(ws[5]) && rec.fullmoveNumber == DigitsValue(ws[5])
  }

  /** The whole record, fail-fast in field order. */
  function ParseFen(fen: string): (r: Result<FenRecord>)
    ensures |Words(fen)| != 6 ==> r == Err(ParseError(FieldCount(|Words(fen)|)))
    ensures |Words(fen)| == 6 ==> r == DecodeFields(Words(fen))
    ensures r.Ok? ==> |Words(fen)| == 6 && RecordOf(Words(fen), r.value)
    ensures r.Ok? ==> ValidRecord(r.value)
  {
    WordsStrip(fen);
    var parts :- CheckFieldCount(Words(Strip(fen)));
    DecodeFields(parts)
  }

  /** The six fields in order; the first failing validator decides. */
  function DecodeFields(parts: seq<string>): (r: Result<FenRecord>)
    requires |parts| == 6 && ValidWords(parts)
    ensures r.Ok? ==> RecordOf(parts, r.value) && ValidRecord(r.value)
  {
    var board :- DecodePlacement(parts[0]);
    var side :- ParseSide(parts[1]);
    var castling :- ParseCastling(parts[2]);
    var ep :- ParseEnPassant(parts[3]);
    var hm :- ParseHalfmove(parts[4]);
    var fm :- ParseFullmove(parts[5]);
    Ok(FenRecord(board, side, castling, ep, hm, fm))
  }

  // ---------------------------------------------------------------------
  // Fail-fast order
  // ---------------------------------------------------------------------

  function ErrorOf<T>(r: Result<T>): (e: Option<FenErr>)
    ensures e.None? <==> r.Ok?
    ensures r.Err? ==> e == Some(r.error)
  {
    if r.Err? then Some(r.error) else None
  }

  /** The error, if any, of field number `k` (0 = placement, ...,
      5 = fullmove number) checked on its own. */
  function FieldError(k: nat, w: string): Option<FenErr>
    requires k < 6
  {
    if k == 0 then ErrorOf(DecodePlacement(w))
    else if k == 1 then ErrorOf(ParseSide(w))
    else if k == 2 then ErrorOf(ParseCastling(w))
    else if k == 3 then ErrorOf(ParseEnPassant(w))
    else if k == 4 then ErrorOf(ParseHalfmove(w))
    else ErrorOf(ParseFullmove(w))
  }

  /** A record is accepted exactly when it has six fields and each field
      passes its own validator. */
  lemma ParseFenAccepts(fen: string)
    ensures ParseFen(fen).Ok? <==>
            |Words(fen)| == 6 && forall k :: 0 <= k < 6 ==> FieldError(k, Words(fen)[k]).None?
  {
    var ws := Words(fen);
    if |ws| == 6 {
      DecodeFieldsAccepts(ws);
    }
  }

  lemma DecodeFieldsAccepts(ws: seq<string>)
    requires |ws| == 6 && ValidWords(ws)
    ensures DecodeFields(ws).Ok? <==> forall k :: 0 <= k < 6 ==> FieldError(k, ws[k]).None?
  {
    DecodeFieldsOk(ws);
    FieldsPass(ws);
  }

  /** No field has an error exactly when each validator accepts its field. */
  lemma FieldsPass(ws: seq<string>)
    requires |ws| == 6
    ensures (forall k :: 0 <= k < 6 ==> FieldError(k, ws[k]).None?) <==>
      && DecodePlacement(ws[0]).Ok? && ParseSide(ws[1]).Ok? && ParseCastling(ws[2]).Ok?
      && ParseEnPassant(ws[3]).Ok? && ParseHalfmove(ws[4]).Ok? && ParseFullmove(ws[5]).Ok?
  {
    // Spelling the six cases out keeps the proof cheap.
    assert FieldError(0, ws[0]) == ErrorOf(DecodePlacement(ws[0]));
    assert FieldError(1, ws[1]) == ErrorOf(ParseSide(ws[1]));
    assert FieldError(2, ws[2]) == ErrorOf(ParseCastling(ws[2]));
    assert FieldError(3, ws[3]) == ErrorOf(ParseEnPassant(ws[3]));
    assert FieldError(4, ws[4]) == ErrorOf(ParseHalfmove(ws[4]));
    assert FieldError(5, ws[5]) == ErrorOf(ParseFullmove(ws[5]));
    assert (forall k :: 0 <= k < 6 ==> FieldError(k, ws[k]).None?) <==>
      && FieldError(0, ws[0]).None? && FieldError(1, ws[1]).None? && FieldError(2, ws[2]).None?
      && FieldError(3, ws[3]).None? && FieldError(4, ws[4]).None? && FieldError(5, ws[5]).None?;
  }

  /** The six fields are accepted exactly when each validator accepts its own. */
  lemma DecodeFieldsOk(ws: seq<string>)
    requires |ws| == 6 && ValidWords(ws)
    ensures DecodeFields(ws).Ok? <==>
      && DecodePlacement(ws[0]).Ok? && ParseSide(ws[1]).Ok? && ParseCastling(ws[2]).Ok?
      && ParseEnPassant(ws[3]).Ok? && ParseHalfmove(ws[4]).Ok? && ParseFullmove(ws[5]).Ok?
  {
  }

  /** The first failing field, in field order, decides the error; fields
      after it are never looked at. */
  lemma ParseFenFirstError(fen: string, k: nat)
    requires |Words(fen)| == 6 && k < 6
    requires forall m :: 0 <= m < k ==> FieldError(m, Words(fen)[m]).None?
    requires FieldError(k, Words(fen)[k]).Some?
    ensures ParseFen(fen) == Err(FieldError(k, Words(fen)[k]).value)
  {
    var ws := Words(fen);
    if k > 0 { assert FieldError(0, ws[0]).None?; }
    if k > 1 { assert FieldError(1, ws[1]).None?; }
    if k > 2 { assert FieldError(2, ws[2]).None?; }
    if k > 3 { assert FieldError(3, ws[3]).None?; }
    if k > 4 { assert FieldError(4, ws[4]).None?; }
  }

  /** When every field passes, the record holds what each validator returned. */
  lemma DecodeFieldsValues(ws: seq<string>)
    requires |ws| == 6 && ValidWords(ws)
    requires DecodePlacement(ws[0]).Ok? && ParseSide(ws[1]).Ok? && ParseCastling(ws[2]).Ok?
    requires ParseEnPassant(ws[3]).Ok? && ParseHalfmove(ws[4]).Ok? && ParseFullmove(ws[5]).Ok?
    ensures DecodeFields(ws) == Ok(FenRecord(
      DecodePlacement(ws[0]).value, ParseSide(ws[1]).value, ParseCastling(ws[2]).value,
      ParseEnPassant(ws[3]).value, ParseHalfmove(ws[4]).value, ParseFullmove(ws[5]).value))
  {
  }

  // ---------------------------------------------------------------------
  // Writing a record and reading it back
  // ---------------------------------------------------------------------

  /** The six fields of a valid record, as FEN writes them. */
  function RenderFields(rec: FenRecord): (ws: seq<string>)
    requires ValidRecord(rec)
    ensures |ws| == 6
  {
    [EncodePlacement(rec.board), rec.sideToMove, rec.castling, rec.enPassant,
     Decimal(rec.halfmoveClock), Decimal(rec.fullmoveNumber)]
  }

  /** A valid record as one line of FEN. */
  function Render(rec: FenRecord): string
    requires ValidRecord(rec)
  {
    JoinWords(RenderFields(rec))
  }

  lemma {:induction false} JoinOnNoSpace(ps: seq<string>, sep: char)
    requires |ps| >= 1 && !IsSpace(sep)
    requires forall k :: 0 <= k < |ps| ==> NoSpace(ps[k])
    ensures NoSpace(JoinOn(ps, sep))
  {
    if |ps| > 1 {
      JoinOnNoSpace(ps[1..], sep);
    }
  }

  /** The written placement field is a single non-empty word. */
  lemma PlacementIsWord(b: Board)
    requires WellShaped(b)
    ensures |EncodePlacement(b)| > 0 && NoSpace(EncodePlacement(b))
  {
    var rs := EncodeRanks(b);
    forall k | 0 <= k < |rs|
      ensures NoSpace(rs[k])
    {
      EncodeRankPlain(b[k]);
    }
    JoinOnNoSpace(rs, '/');
    assert |rs[0]| > 0;
  }

  lemma RenderedFieldsAreWords(rec: FenRecord)
    requires ValidRecord(rec)
    ensures ValidWords(RenderFields(rec))
  {
    PlacementIsWord(rec.board);
    if rec.enPassant != "-" {
      var f, r :| f in Files && r in EnPassantRanks && rec.enPassant == [f, r];
    }
    assert NoSpace(rec.castling);
  }

  /** Round trip: a valid record, written out, parses back to itself. */
  lemma ParseRender(rec: FenRecord)
    requires ValidRecord(rec)
    ensures ParseFen(Render(rec)) == Ok(rec)
  {
    var ws := RenderFields(rec);
    RenderedFieldsAreWords(rec);
    WordsJoin(ws);
    DecodeEncodePlacement(rec.board);
    CountersRoundTrip(rec.halfmoveClock);
    CountersRoundTrip(rec.fullmoveNumber);
    ParseFenAccepts(Render(rec));
  }
}
