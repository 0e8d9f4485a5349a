/** The piece-placement decoder: eight '/'-separated ranks, each a run of
    piece letters and digits 1..7, or the literal "8" for an empty rank,
    decoded into an 8x8 grid. A run-length encoder of rows serves as the
    decoder's inverse. */
module Placement {
  import opened FenTypes
  import opened Alphabet
  import opened Split

  // ---------------------------------------------------------------------
  // Reference notions about rank texts and rows
  // ---------------------------------------------------------------------

  /** A character the scan of a rank accepts. */
  predicate IsRankSymbol(c: char) {
    IsPiece(c) || IsRunDigit(c)
  }

  predicate RankSymbols(s: string) {
    forall k :: 0 <= k < |s| ==> IsRankSymbol(s[k])
  }

  /** The piece letters of a rank text, in order. */
  function PieceLetters(s: string): (p: string)
    ensures |p| <= |s|
  {
    if |s| == 0 then [] else (if IsPiece(s[0]) then [s[0]] else []) + PieceLetters(s[1..])
  }

  /** The sum of the run digits of a rank text. */
  function RunTotal(s: string): nat {
    if |s| == 0 then 0
    else (if IsRunDigit(s[0]) then DigitValue(s[0]) else 0) + RunTotal(s[1..])
  }

  /** The cells one rank character stands for: one for a piece letter, its
      value for a run digit, none for anything else. */
  function Cells(c: char): nat {
    if IsPiece(c) then 1 else if IsRunDigit(c) then DigitValue(c) else 0
  }

  /** The number of cells a rank text describes. */
  function Width(s: string): nat {
    if |s| == 0 then 0 else Cells(s[0]) + Width(s[1..])
  }

  /** The letters of the occupied cells of a row, in order. */
  function Occupants(row: Row): string {
    if |row| == 0 then [] else (if row[0].Some? then [row[0].value] else []) + Occupants(row[1..])
  }

  function EmptyCount(row: Row): nat {
    if |row| == 0 then 0 else (if row[0].None? then 1 else 0) + EmptyCount(row[1..])
  }

  predicate ValidCell(c: Cell) {
    c.None? || IsPiece(c.value)
  }

  predicate ValidRow(row: Row) {
    |row| == 8 && forall k :: 0 <= k < |row| ==> ValidCell(row[k])
  }

  /** The board invariant: eight rows of eight cells, each empty or holding
      one of the twelve piece letters. */
  predicate WellShaped(b: Board) {
    |b| == 8 && forall k :: 0 <= k < |b| ==> ValidRow(b[k])
  }

  lemma {:induction false} OccupantsAppend(a: Row, b: Row)
    ensures Occupants(a + b) == Occupants(a) + Occupants(b)
  {
    if |a| == 0 {
      assert a + b == b;
    } else {
      var head: string := if a[0].Some? then [a[0].value] else [];
      OccupantsAppend(a[1..], b);
      assert (a + b)[0] == a[0] && (a + b)[1..] == a[1..] + b;
      assert Occupants(a + b) == head + (Occupants(a[1..]) + Occupants(b));
      assert Occupants(a) == head + Occupants(a[1..]);
      assert head + (Occupants(a[1..]) + Occupants(b)) == (head + Occupants(a[1..])) + Occupants(b);
    }
  }

  lemma {:induction false} EmptyCountAppend(a: Row, b: Row)
    ensures EmptyCount(a + b) == EmptyCount(a) + EmptyCount(b)
  {
    if |a| == 0 {
      assert a + b == b;
    } else {
      EmptyCountAppend(a[1..], b);
      assert (a + b)[1..] == a[1..] + b;
    }
  }

  lemma {:induction false} EmptiesCounts(n: nat)
    ensures Occupants(Empties(n)) == [] && EmptyCount(Empties(n)) == n
  {
    if n > 0 {
      EmptiesCounts(n - 1);
      assert Empties(n)[1..] == Empties(n - 1);
    }
  }

  /** A text of piece letters only describes one cell per letter. */
  lemma {:induction false} AllLetters(s: string)
    requires forall k :: 0 <= k < |s| ==> IsPiece(s[k])
    ensures PieceLetters(s) == s && RunTotal(s) == 0 && Width(s) == |s|
  {
    if |s| > 0 {
      AllLetters(s[1..]);
      assert [s[0]] + s[1..] == s;
    }
  }

  /** The width is one cell per piece letter plus the sum of the run digits. */
  lemma {:induction false} WidthSplit(s: string)
    ensures Width(s) == |PieceLetters(s)| + RunTotal(s)
  {
    if |s| > 0 {
      WidthSplit(s[1..]);
    }
  }

  // ---------------------------------------------------------------------
  // Decoding
  // ---------------------------------------------------------------------

  /** The left-to-right scan of a rank other than "8" (rank number `i`):
      a piece letter adds one occupied cell, a digit 1..7 adds that many
      empty cells, '8' is a parse error and anything else a lexical error.
      The first offending character stops the scan. */
  function ScanRank(s: string, i: nat): (r: Result<Row>)
    ensures r.Ok? <==> RankSymbols(s)
    ensures r.Ok? ==> |r.value| == Width(s)
    ensures r.Ok? ==> Occupants(r.value) == PieceLetters(s) && EmptyCount(r.value) == RunTotal(s)
    ensures r.Ok? ==> forall k :: 0 <= k < |r.value| ==> ValidCell(r.value[k])
    ensures r.Err? ==> r.error == ParseError(EightMixed(i)) || r.error.LexicalError?
  {
    if |s| == 0 then Ok([])
    else
      match Classify(s[0])
      case PieceToken(c) =>
        var rest := ScanRank(s[1..], i);
        if rest.Err? then rest
        else
          var row := [Some(c)] + rest.value;
          assert row[1..] == rest.value;
          Ok(row)
      case RunToken(n) =>
        var rest := ScanRank(s[1..], i);
        if rest.Err? then rest
        else
          OccupantsAppend(Empties(n), rest.value);
          EmptyCountAppend(Empties(n), rest.value);
          EmptiesCounts(n);
          Ok(Empties(n) + rest.value)
      case EightToken => Err(ParseError(EightMixed(i)))
      case InvalidToken => Err(LexicalError(BadPlacementChar(i, s[0])))
  }

  /** The scan reads a rank left to right and places cells in reading
      order: scanning `a + b` scans `a`, then `b`, and puts `b`'s cells after
      `a`'s; the first error met stops it. */
  lemma {:induction false} ScanRankAppend(a: string, b: string, i: nat)
    ensures ScanRank(a + b, i) ==
            if ScanRank(a, i).Err? then ScanRank(a, i)
            else if ScanRank(b, i).Err? then ScanRank(b, i)
            else Ok(ScanRank(a, i).value + ScanRank(b, i).value)
  {
    if |a| == 0 {
      assert a + b == b;
      if ScanRank(b, i).Ok? {
        assert [] + ScanRank(b, i).value == ScanRank(b, i).value;
      }
    } else {
      var s := a + b;
      assert s[0] == a[0] && s[1..] == a[1..] + b;
      ScanRankAppend(a[1..], b, i);
      var ra, rb := ScanRank(a[1..], i), ScanRank(b, i);
      match Classify(a[0])
      case PieceToken(c) =>
        if ra.Ok? && rb.Ok? {
          assert [Some(c)] + (ra.value + rb.value) == ([Some(c)] + ra.value) + rb.value;
        }
      case RunToken(n) =>
        if ra.Ok? && rb.Ok? {
          assert Empties(n) + (ra.value + rb.value) == (Empties(n) + ra.value) + rb.value;
        }
      case EightToken =>
      case InvalidToken =>
    }
  }

  /** Rank number `i`: the literal "8" is eight empty cells; any other text
      is scanned and must then add up to exactly eight cells. */
  function DecodeRank(s: string, i: nat): (r: Result<Row>)
    ensures r.Ok? <==> s == "8" || (RankSymbols(s) && Width(s) == 8)
    ensures r.Ok? ==> ValidRow(r.value)
    ensures s == "8" ==> r == Ok(Empties(8))
    ensures s != "8" && r.Ok? ==> Occupants(r.value) == PieceLetters(s) && EmptyCount(r.value) == RunTotal(s)
    ensures s != "8" && RankSymbols(s) && Width(s) != 8 ==> r == Err(ParseError(RankWidth(i, Width(s))))
    ensures s != "8" && r.Ok? ==> r == ScanRank(s, i)
    ensures s != "8" && ScanRank(s, i).Err? ==> r == ScanRank(s, i)
  {
    if s == "8" then Ok(Empties(8))
    else
      var row := ScanRank(s, i);
      if row.Err? then row
      else if |row.value| != 8 then Err(ParseError(RankWidth(i, |row.value|)))
      else Ok(row.value)
  }

  /** Each rank decoded on its own, numbered from 1. */
  function RankResults(ranks: seq<string>): (rs: seq<Result<Row>>)
    ensures |rs| == |ranks|
    ensures forall k :: 0 <= k < |ranks| ==> rs[k] == DecodeRank(ranks[k], k + 1)
  {
    seq(|ranks|, k requires 0 <= k < |ranks| => DecodeRank(ranks[k], k + 1))
  }

  /** The ranks, numbered 1, 2, ... and decoded in order; the first failing
      rank decides the error. */
  function DecodeRanks(ranks: seq<string>): (r: Result<Board>)
    ensures r.Ok? <==> forall k :: 0 <= k < |ranks| ==> DecodeRank(ranks[k], k + 1).Ok?
    ensures r.Ok? ==> |r.value| == |ranks|
    ensures r.Ok? ==> forall k :: 0 <= k < |ranks| ==> DecodeRank(ranks[k], k + 1) == Ok(r.value[k])
  {
    Collect(RankResults(ranks), 0)
  }

  /** The placement field: split on '/', require eight ranks, decode them
      numbered 1 to 8. */
  function DecodePlacement(p: string): (r: Result<Board>)
    ensures Count(p, '/') != 7 ==> r == Err(ParseError(RankCount(Count(p, '/') + 1)))
    ensures r.Ok? ==> Count(p, '/') == 7
    ensures r.Ok? ==> |r.value| == 8
    ensures r.Ok? ==> forall k :: 0 <= k < 8 ==> DecodeRank(SplitOn(p, '/')[k], k + 1) == Ok(r.value[k])
    ensures Count(p, '/') == 7 && (forall k :: 0 <= k < 8 ==> DecodeRank(SplitOn(p, '/')[k], k + 1).Ok?)
            ==> r.Ok?
    ensures r.Ok? ==> WellShaped(r.value)
  {
    var ranks := SplitOn(p, '/');
    if |ranks| != 8 then Err(ParseError(RankCount(|ranks|)))
    else
      DecodeRanks(ranks)
  }

  // ---------------------------------------------------------------------
  // Error position
  // ---------------------------------------------------------------------

  /** The error the placement scan raises for its first offending character. */
  function CharFault(c: char, i: nat): FenErr {
    if c == '8' then ParseError(EightMixed(i)) else LexicalError(BadPlacementChar(i, c))
  }

  /** The first character outside the rank alphabet decides the scan's error. */
  lemma {:induction false} ScanRankFirstFault(s: string, i: nat, j: nat)
    requires j < |s| && !IsRankSymbol(s[j])
    requires forall k :: 0 <= k < j ==> IsRankSymbol(s[k])
    ensures ScanRank(s, i) == Err(CharFault(s[j], i))
  {
    if j > 0 {
      ScanRankFirstFault(s[1..], i, j - 1);
    }
  }

  /** In a rank other than "8", a character fault is reported before the
      width check, whatever the width. */
  lemma DecodeRankFirstFault(s: string, i: nat, j: nat)
    requires s != "8"
    requires j < |s| && !IsRankSymbol(s[j])
    requires forall k :: 0 <= k < j ==> IsRankSymbol(s[k])
    ensures DecodeRank(s, i) == Err(CharFault(s[j], i))
  {
    ScanRankFirstFault(s, i, j);
  }

  /** The first failing rank decides the placement's error: later ranks are
      never looked at. */
  lemma DecodeRanksFirstFailure(ranks: seq<string>, k: nat)
    requires k < |ranks|
    requires forall m :: 0 <= m < k ==> DecodeRank(ranks[m], m + 1).Ok?
    requires DecodeRank(ranks[k], k + 1).Err?
    ensures DecodeRanks(ranks) == Err(DecodeRank(ranks[k], k + 1).error)
  {
    CollectFirstError(RankResults(ranks), 0, k);
  }

  /** In a placement of eight ranks, the first failing rank decides the
      error. */
  lemma DecodePlacementFirstFailure(p: string, k: nat)
    requires Count(p, '/') == 7 && k < 8
    requires forall m :: 0 <= m < k ==> DecodeRank(SplitOn(p, '/')[m], m + 1).Ok?
    requires DecodeRank(SplitOn(p, '/')[k], k + 1).Err?
    ensures DecodePlacement(p) == Err(DecodeRank(SplitOn(p, '/')[k], k + 1).error)
  {
    DecodeRanksFirstFailure(SplitOn(p, '/'), k);
  }

  // ---------------------------------------------------------------------
  // Encoding: the decoder's inverse
  // ---------------------------------------------------------------------

  /** The number of empty cells a row starts with. */
  function LeadingEmpties(row: Row): (n: nat)
    ensures n <= |row|
    ensures forall k :: 0 <= k < n ==> row[k].None?
    ensures n < |row| ==> row[n].Some?
  {
    if |row| == 0 || row[0].Some? then 0 else 1 + LeadingEmpties(row[1..])
  }

  /** Run-length encoding of a row: letters as themselves, empty runs as
      digits of at most 7. */
  function EncodeCells(row: Row): string
    decreases |row|
  {
    if |row| == 0 then []
    else if row[0].Some? then [row[0].value] + EncodeCells(row[1..])
    else
      var n := if LeadingEmpties(row) < 7 then LeadingEmpties(row) else 7;
      [DigitChar(n)] + EncodeCells(row[n..])
  }

  /** A rank as FEN writes it: "8" for an empty rank, else run-length. */
  function EncodeRank(row: Row): string {
    if row == Empties(8) then "8" else EncodeCells(row)
  }

  /** The placement field of a board. */
  function EncodePlacement(b: Board): string
    requires |b| >= 1
  {
    JoinOn(EncodeRanks(b), '/')
  }

  function EncodeRanks(b: Board): (rs: seq<string>)
    ensures |rs| == |b|
    ensures forall k :: 0 <= k < |b| ==> rs[k] == EncodeRank(b[k])
  {
    seq(|b|, k requires 0 <= k < |b| => EncodeRank(b[k]))
  }

  /** Scanning the encoding of a row of valid cells gives the row back. */
  lemma {:induction false} ScanEncodeCells(row: Row, i: nat)
    requires forall k :: 0 <= k < |row| ==> ValidCell(row[k])
    ensures ScanRank(EncodeCells(row), i) == Ok(row)
    decreases |row|
  {
    if |row| == 0 {
    } else if row[0].Some? {
      ScanEncodeCells(row[1..], i);
      var s := EncodeCells(row);
      assert s[1..] == EncodeCells(row[1..]);
      assert [row[0]] + row[1..] == row;
    } else {
      var n := if LeadingEmpties(row) < 7 then LeadingEmpties(row) else 7;
      ScanEncodeCells(row[n..], i);
      ScanRun(n, EncodeCells(row[n..]), i);
      EmptyRunSplit(row, n);
    }
  }

  /** A run digit in front of a text adds its empty cells in front. */
  lemma ScanRun(n: nat, s: string, i: nat)
    requires 1 <= n <= 7
    ensures ScanRank([DigitChar(n)] + s, i)
            == if ScanRank(s, i).Err? then ScanRank(s, i) else Ok(Empties(n) + ScanRank(s, i).value)
  {
    assert ([DigitChar(n)] + s)[1..] == s;
  }

  lemma EmptyRunSplit(row: Row, n: nat)
    requires n <= LeadingEmpties(row)
    ensures row == Empties(n) + row[n..]
  {
    assert row == row[..n] + row[n..];
    assert row[..n] == Empties(n);
  }

  /** Decoding the encoding of a valid row gives the row back. */
  lemma DecodeEncodeRank(row: Row, i: nat)
    requires ValidRow(row)
    ensures DecodeRank(EncodeRank(row), i) == Ok(row)
  {
    if row != Empties(8) {
      ScanEncodeCells(row, i);
    }
  }

  /** Rank characters are neither separators nor whitespace. */
  lemma SymbolIsPlain(c: char)
    requires IsRankSymbol(c)
    ensures c != '/' && !IsSpace(c)
  {
  }

  /** An encoded rank is a non-empty text with no '/' and no whitespace. */
  lemma EncodeRankPlain(row: Row)
    requires ValidRow(row)
    ensures |EncodeRank(row)| > 0 && '/' !in EncodeRank(row) && NoSpace(EncodeRank(row))
  {
    DecodeEncodeRank(row, 1);
    var s := EncodeRank(row);
    if s != "8" {
      forall k | 0 <= k < |s|
        ensures s[k] != '/' && !IsSpace(s[k])
      {
        SymbolIsPlain(s[k]);
      }
    }
  }

  lemma EncodedRankDecodes(b: Board, k: nat)
    requires k < |b| && ValidRow(b[k])
    ensures RankResults(EncodeRanks(b))[k] == Ok(b[k])
  {
    DecodeEncodeRank(b[k], k + 1);
  }

  lemma DecodeEncodeRanks(b: Board)
    requires forall k :: 0 <= k < |b| ==> ValidRow(b[k])
    ensures DecodeRanks(EncodeRanks(b)) == Ok(b)
  {
    var results := RankResults(EncodeRanks(b));
    forall k | 0 <= k < |b|
      ensures results[k] == Ok(b[k])
    {
      EncodedRankDecodes(b, k);
    }
    CollectValues(results, b);
  }

  /** Round trip: the placement field written for a well-shaped board
      decodes to that board. */
  lemma DecodeEncodePlacement(b: Board)
    requires WellShaped(b)
    ensures DecodePlacement(EncodePlacement(b)) == Ok(b)
  {
    var rs := EncodeRanks(b);
    forall k | 0 <= k < |rs|
      ensures '/' !in rs[k]
    {
      EncodeRankPlain(b[k]);
    }
    SplitJoin(rs, '/');
    DecodeEncodeRanks(b);
  }

  // ---------------------------------------------------------------------
  // Worked ranks
  // ---------------------------------------------------------------------

  /** '8' is accepted only as a whole rank: after other symbols, or
      doubled, it is a parse error at its rank. */
  lemma EightMixedIn(s: string, i: nat)
    requires s == "3p8"
    ensures DecodeRank(s, i) == Err(ParseError(EightMixed(i)))
  {
    assert IsRankSymbol(s[0]) && IsRankSymbol(s[1]) && !IsRankSymbol(s[2]);
    DecodeRankFirstFault(s, i, 2);
  }

  lemma EightDoubled(s: string, i: nat)
    requires s == "88"
    ensures DecodeRank(s, i) == Err(ParseError(EightMixed(i)))
  {
    assert !IsRankSymbol(s[0]);
    DecodeRankFirstFault(s, i, 0);
  }

  /** Cells land where their symbols stand: "p16" is the pawn in the first
      cell followed by seven empty cells. */
  lemma PieceThenRuns(s: string, i: nat)
    requires s == "p16"
    ensures DecodeRank(s, i) == Ok([Some('p')] + Empties(7))
  {
    ScanRun(6, "", i);
    assert [DigitChar(6)] + "" == "6";
    ScanRun(1, "6", i);
    assert [DigitChar(1)] + "6" == "16";
    assert s[1..] == "16";
    assert Empties(1) + (Empties(6) + []) == Empties(7);
  }

  /** "44" is two runs of four, not the "8" shortcut, and decodes to an
      empty rank. */
  lemma TwoRunsOfFour()
    ensures DecodeRank("44", 3) == Ok(Empties(8))
  {
    ScanRun(4, "", 3);
    assert [DigitChar(4)] + "" == "4";
    ScanRun(4, "4", 3);
    assert [DigitChar(4)] + "4" == "44";
    assert Empties(4) + (Empties(4) + []) == Empties(8);
  }

  /** "11111111" is eight runs of one and decodes to an empty rank: the
      scan does not require letters and digits to alternate. */
  lemma EightRunsOfOne()
    ensures DecodeRank("11111111", 3) == Ok(Empties(8))
  {
    var one := DigitChar(1);
    assert one == '1';
    var k := 0;
    while k < 8
      invariant 0 <= k <= 8
      invariant ScanRank(seq(k, _ => '1'), 3) == Ok(Empties(k))
    {
      ScanRun(1, seq(k, _ => '1'), 3);
      assert [one] + seq(k, _ => '1') == seq(k + 1, _ => '1');
      assert Empties(1) + Empties(k) == Empties(k + 1);
      k := k + 1;
    }
    assert seq(8, _ => '1') == "11111111";
  }
}
