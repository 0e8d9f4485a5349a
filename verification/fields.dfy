/** The field-count check and the validators of the five fields that follow
    the placement: side to move, castling ability, en-passant target square,
    halfmove clock and fullmove number. Each returns its field unchanged (or
    its numeric value) or the error the source raises. */
module Fields {
  import opened FenTypes
  import opened Alphabet
  import opened Numbers

  // ---------------------------------------------------------------------
  // Field count
  // ---------------------------------------------------------------------

  /** A record must split into exactly six fields; the error reports how
      many there were. */
  function CheckFieldCount(parts: seq<string>): (r: Result<seq<string>>)
    ensures r.Ok? <==> |parts| == 6
    ensures r.Ok? ==> r.value == parts
    ensures r.Err? ==> r.error == ParseError(FieldCount(|parts|))
  {
    if |parts| != 6 then Err(ParseError(FieldCount(|parts|))) else Ok(parts)
  }

  // ---------------------------------------------------------------------
  // Side to move
  // ---------------------------------------------------------------------

  /** Exactly "w" or "b", case-sensitive; anything else is a parse error,
      never a lexical one. */
  function ParseSide(s: string): (r: Result<string>)
    ensures r.Ok? <==> s in {"w", "b"}
    ensures r.Ok? ==> r.value == s
    ensures r.Err? ==> r.error == ParseError(BadSide(s))
  {
    if s != "w" && s != "b" then Err(ParseError(BadSide(s))) else Ok(s)
  }

  // ---------------------------------------------------------------------
  // Castling ability
  // ---------------------------------------------------------------------

  predicate IsFlag(c: char) {
    c in CastlingFlags
  }

  /** No character occurs twice. */
  predicate Distinct(s: string) {
    forall a, b :: 0 <= a < b < |s| ==> s[a] != s[b]
  }

  /** "-" or flags from K, Q, k, q in any order, none repeated. */
  predicate ValidCastling(s: string) {
    s == "-" || ((forall k :: 0 <= k < |s| ==> IsFlag(s[k])) && Distinct(s))
  }

  /** The scan over the castling text with the flags `seen` so far: the
      first character that is not a flag is a lexical error, the first flag
      already seen a parse error. */
  function CastlingFault(s: string, seen: set<char>): (e: Option<FenErr>)
    ensures e.None? <==> (forall k :: 0 <= k < |s| ==> IsFlag(s[k]) && s[k] !in seen) && Distinct(s)
  {
    if |s| == 0 then None
    else if !IsFlag(s[0]) then Some(LexicalError(BadCastlingChar(s[0])))
    else if s[0] in seen then Some(ParseError(DuplicateCastling(s[0])))
    else
      var e := CastlingFault(s[1..], seen + {s[0]});
      assert e.None? ==> forall k :: 1 <= k < |s| ==> s[k] == s[1..][k - 1] && s[k] != s[0];
      e
  }

  /** The castling field: accepted exactly when it is valid, and then
      returned as given. */
  function ParseCastling(s: string): (r: Result<string>)
    ensures r.Ok? <==> ValidCastling(s)
    ensures r.Ok? ==> r.value == s
  {
    if s == "-" then Ok(s)
    else
      match CastlingFault(s, {})
      case Some(e) => Err(e)
      case None => Ok(s)
  }

  /** The castling error the scan reports at position `j` when it is the
      first offending position. */
  function CastlingFaultAt(s: string, j: nat): FenErr
    requires j < |s|
  {
    if !IsFlag(s[j]) then LexicalError(BadCastlingChar(s[j]))
    else ParseError(DuplicateCastling(s[j]))
  }

  lemma {:induction false} CastlingFirstFaultFrom(s: string, seen: set<char>, j: nat)
    requires j < |s|
    requires forall k :: 0 <= k < j ==> IsFlag(s[k]) && s[k] !in seen && s[k] !in s[..k]
    requires !IsFlag(s[j]) || s[j] in seen || s[j] in s[..j]
    ensures CastlingFault(s, seen) == Some(CastlingFaultAt(s, j))
  {
    if j > 0 {
      var t := s[1..];
      forall k | 0 <= k < j - 1
        ensures IsFlag(t[k]) && t[k] !in seen + {s[0]} && t[k] !in t[..k]
      {
        assert t[k] == s[k + 1];
        assert s[..k + 1] == [s[0]] + t[..k];
      }
      assert s[..j] == [s[0]] + t[..j - 1];
      CastlingFirstFaultFrom(t, seen + {s[0]}, j - 1);
    }
  }

  /** The first offending character in scan order decides the castling
      error: a non-flag is lexical, a repeated flag is a parse error. */
  lemma CastlingFirstFault(s: string, j: nat)
    requires s != "-" && j < |s|
    requires forall k :: 0 <= k < j ==> IsFlag(s[k]) && s[k] !in s[..k]
    requires !IsFlag(s[j]) || s[j] in s[..j]
    ensures ParseCastling(s) == Err(CastlingFaultAt(s, j))
  {
    CastlingFirstFaultFrom(s, {}, j);
  }

  /** Distinct characters drawn from a set are no more than the set. */
  lemma {:induction false} DistinctBound(s: string, alphabet: set<char>)
    requires forall k :: 0 <= k < |s| ==> s[k] in alphabet
    requires Distinct(s)
    ensures |s| <= |alphabet|
  {
    if |s| > 0 {
      var rest := alphabet - {s[0]};
      forall k | 0 <= k < |s| - 1
        ensures s[1..][k] in rest
      {
        assert s[1..][k] == s[k + 1] && s[k + 1] != s[0];
      }
      DistinctBound(s[1..], rest);
    }
  }

  /** An accepted castling field holds at most four flags. */
  lemma CastlingAtMostFour(s: string)
    requires ParseCastling(s).Ok?
    ensures |s| <= 4
  {
    if s != "-" {
      var flags := {'K', 'Q', 'k', 'q'};
      assert |flags| == 4;
      DistinctBound(s, flags);
    }
  }

  // ---------------------------------------------------------------------
  // En-passant target square
  // ---------------------------------------------------------------------

  /** "-" and the sixteen squares a3..h3, a6..h6. */
  function EnPassantTargets(): set<string> {
    {"-"} + set f, r | f in Files && r in EnPassantRanks :: [f, r]
  }

  /** "-" passes; otherwise the length is checked (parse error), then the
      file (lexical error), then the rank (parse error). */
  function ParseEnPassant(s: string): (r: Result<string>)
    ensures r.Ok? <==> s in EnPassantTargets()
    ensures r.Ok? ==> r.value == s
    ensures s != "-" && |s| != 2 ==> r == Err(ParseError(EnPassantLength))
    ensures |s| == 2 && s[0] !in Files ==> r == Err(LexicalError(EnPassantFile(s[0])))
    ensures |s| == 2 && s[0] in Files && s[1] !in EnPassantRanks ==> r == Err(ParseError(EnPassantRank(s[1])))
  {
    if s == "-" then Ok(s)
    else if |s| != 2 then Err(ParseError(EnPassantLength))
    else if s[0] !in Files then Err(LexicalError(EnPassantFile(s[0])))
    else if s[1] !in EnPassantRanks then Err(ParseError(EnPassantRank(s[1])))
    else
      assert s == [s[0], s[1]];
      Ok(s)
  }

  // ---------------------------------------------------------------------
  // Move counters
  // ---------------------------------------------------------------------

  /** The halfmove clock: a digit string (else a lexical error) read as a
      number. Its "negative" parse error can never be raised. */
  function ParseHalfmove(s: string): (r: Result<int>)
    ensures r.Ok? <==> AllDigits(s)
    ensures r.Ok? ==> r.value == DigitsValue(s) && r.value >= 0
    ensures r.Err? ==> r.error == LexicalError(HalfmoveNotDigits)
  {
    if !AllDigits(s) then Err(LexicalError(HalfmoveNotDigits))
    else
      var v: int := DigitsValue(s);
      if v < 0 then Err(ParseError(HalfmoveNegative)) else Ok(v)
  }

  /** The fullmove number: a digit string (else a lexical error) whose value
      is at least one (else a parse error). */
  function ParseFullmove(s: string): (r: Result<int>)
    ensures r.Ok? <==> AllDigits(s) && DigitsValue(s) >= 1
    ensures r.Ok? ==> r.value == DigitsValue(s) && r.value >= 1
    ensures !AllDigits(s) ==> r == Err(LexicalError(FullmoveNotDigits))
    ensures AllDigits(s) && DigitsValue(s) == 0 ==> r == Err(ParseError(FullmoveTooSmall))
  {
    if !AllDigits(s) then Err(LexicalError(FullmoveNotDigits))
    else
      var v: int := DigitsValue(s);
      if v < 1 then Err(ParseError(FullmoveTooSmall)) else Ok(v)
  }

  /** Counters written in decimal read back as themselves. */
  lemma CountersRoundTrip(n: nat)
    ensures ParseHalfmove(Decimal(n)) == Ok(n)
    ensures n >= 1 ==> ParseFullmove(Decimal(n)) == Ok(n)
    ensures n == 0 ==> ParseFullmove(Decimal(n)) == Err(ParseError(FullmoveTooSmall))
  {
    DecimalRoundTrip(n);
  }

  // ---------------------------------------------------------------------
  // The counters as written: `isdigit()` admits texts `int()` refuses
  // ---------------------------------------------------------------------

  /** What a counter check does as the source writes it: return a record
      value or a `FenError`, or let the `ValueError` of `int()` escape. */
  datatype Outcome<+T> = Returns(result: Result<T>) | Escapes

  /** The halfmove check as written: `isdigit()` first, then `int()`, then
      the sign test. */
  function HalfmoveAsWritten(s: string): (o: Outcome<int>)
    ensures o == Returns(Err(LexicalError(HalfmoveNotDigits))) <==> !PyIsDigit(s)
    ensures o.Escapes? <==> PyIsDigit(s) && (!PyIsDecimal(s) || |s| > MaxStrDigits)
    ensures o.Returns? && o.result.Ok? <==> PyIsDecimal(s) && |s| <= MaxStrDigits
    ensures o.Returns? && o.result.Ok? ==> o.result.value == PyDecimalValue(s)
  {
    if !PyIsDigit(s) then Returns(Err(LexicalError(HalfmoveNotDigits)))
    else match PyInt(s)
      case None => Escapes
      case Some(v) =>
        if v < 0 then Returns(Err(ParseError(HalfmoveNegative))) else Returns(Ok(v))
  }

  /** The fullmove check as written: `isdigit()` first, then `int()`, then
      the lower bound. */
  function FullmoveAsWritten(s: string): (o: Outcome<int>)
    ensures o == Returns(Err(LexicalError(FullmoveNotDigits))) <==> !PyIsDigit(s)
    ensures o.Escapes? <==> PyIsDigit(s) && (!PyIsDecimal(s) || |s| > MaxStrDigits)
    ensures o.Returns? && o.result.Ok? <==> PyIsDecimal(s) && |s| <= MaxStrDigits && PyDecimalValue(s) >= 1
    ensures o.Returns? && o.result.Ok? ==> o.result.value == PyDecimalValue(s)
    ensures o == Returns(Err(ParseError(FullmoveTooSmall))) <==>
              PyIsDecimal(s) && |s| <= MaxStrDigits && PyDecimalValue(s) == 0
  {
    if !PyIsDigit(s) then Returns(Err(LexicalError(FullmoveNotDigits)))
    else match PyInt(s)
      case None => Escapes
      case Some(v) =>
        if v < 1 then Returns(Err(ParseError(FullmoveTooSmall))) else Returns(Ok(v))
  }

  /** The checks as written and the corrected ones agree exactly on the
      texts that fail `isdigit()` and on the ASCII digit strings within
      `int()`'s length bound. */
  lemma AsWrittenAgrees(s: string)
    ensures HalfmoveAsWritten(s) == Returns(ParseHalfmove(s)) <==>
              !PyIsDigit(s) || (AllDigits(s) && |s| <= MaxStrDigits)
    ensures FullmoveAsWritten(s) == Returns(ParseFullmove(s)) <==>
              !PyIsDigit(s) || (AllDigits(s) && |s| <= MaxStrDigits)
  {
  }

  /** A counter written as a superscript two, a subscript two or a circled
      one passes `isdigit()` and then fails in `int()` with an error that
      is not a `FenError`; the corrected checks report a lexical error. */
  lemma NonDecimalDigitsEscape()
    ensures HalfmoveAsWritten("\U{B2}") == Escapes && FullmoveAsWritten("\U{B2}") == Escapes
    ensures HalfmoveAsWritten("\U{2082}") == Escapes && FullmoveAsWritten("\U{2082}") == Escapes
    ensures HalfmoveAsWritten("\U{2460}") == Escapes && FullmoveAsWritten("\U{2460}") == Escapes
    ensures ParseHalfmove("\U{B2}") == Err(LexicalError(HalfmoveNotDigits))
    ensures ParseFullmove("\U{2460}") == Err(LexicalError(FullmoveNotDigits))
  {
    assert IsDigitOnly("\U{B2}"[0]) && !IsPyDecimal("\U{B2}"[0]);
    assert IsDigitOnly("\U{2082}"[0]) && !IsPyDecimal("\U{2082}"[0]);
    assert IsDigitOnly("\U{2460}"[0]) && !IsPyDecimal("\U{2460}"[0]);
  }

  /** A counter of more ASCII digits than `int()` converts escapes both
      checks as written; the corrected checks read its value. */
  lemma LongCounterEscapes(s: string)
    requires AllDigits(s) && |s| > MaxStrDigits
    ensures HalfmoveAsWritten(s) == Escapes && FullmoveAsWritten(s) == Escapes
    ensures ParseHalfmove(s) == Ok(DigitsValue(s))
  {
    AllDigitsAscii(s);
  }

  /** The Arabic-Indic digit three passes `isdigit()` and `int()` reads it
      as 3, so both checks as written accept it; the corrected checks
      accept ASCII digits only and report a lexical error. */
  lemma NonAsciiDecimalAccepted()
    ensures HalfmoveAsWritten("\U{663}") == Returns(Ok(3))
    ensures FullmoveAsWritten("\U{663}") == Returns(Ok(3))
    ensures ParseHalfmove("\U{663}") == Err(LexicalError(HalfmoveNotDigits))
    ensures ParseFullmove("\U{663}") == Err(LexicalError(FullmoveNotDigits))
  {
    var s := "\U{663}";
    assert DecimalDigitOf(s[0]) == Some(3);
    assert s[..0] == [];
    assert !IsDecimalDigit(s[0]);
  }

  // ---------------------------------------------------------------------
  // Worked fields
  // ---------------------------------------------------------------------

  /** Side to move is case-sensitive; castling accepts any order and
      classifies a repeat and a stranger differently. */
  lemma WorkedSideAndCastling()
    ensures ParseSide("W") == Err(ParseError(BadSide("W")))
    ensures ParseCastling("KQkq") == Ok("KQkq") && ParseCastling("Qk") == Ok("Qk")
    ensures ParseCastling("KK") == Err(ParseError(DuplicateCastling('K')))
    ensures ParseCastling("x") == Err(LexicalError(BadCastlingChar('x')))
  {
    assert "KK"[..0] == [] && "KK"[..1] == "K";
    CastlingFirstFault("KK", 1);
    CastlingFirstFault("x", 0);
  }

  lemma WorkedEnPassant()
    ensures ParseEnPassant("e3") == Ok("e3") && ParseEnPassant("e6") == Ok("e6")
    ensures ParseEnPassant("e4") == Err(ParseError(EnPassantRank('4')))
    ensures ParseEnPassant("i3") == Err(LexicalError(EnPassantFile('i')))
    ensures ParseEnPassant("e") == Err(ParseError(EnPassantLength))
  {
  }

  /** "-1" fails on the '-' character; "0" is a valid clock but not a
      valid move number. */
  lemma WorkedCounters()
    ensures ParseHalfmove("0") == Ok(0)
    ensures ParseHalfmove("-1") == Err(LexicalError(HalfmoveNotDigits))
    ensures ParseFullmove("0") == Err(ParseError(FullmoveTooSmall))
    ensures ParseFullmove("1") == Ok(1)
  {
    assert !IsDecimalDigit("-1"[0]);
    assert "0"[..0] == [] && "1"[..0] == [];
  }
}
