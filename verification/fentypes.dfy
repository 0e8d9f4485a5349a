/** Shared vocabulary of the FEN validator: optional values, results, the
    two error kinds with their structured context, and the decoded record. */
module FenTypes {

  /** An optional value; a board cell is `None` (empty) or `Some(letter)`. */
  datatype Option<+T> = None | Some(value: T)

  /** The outcome of every validator: a decoded value or the first error. */
  datatype Result<+T> = Ok(value: T) | Err(error: FenErr) {
    predicate IsFailure() {
      Err?
    }

    function PropagateFailure<U>(): Result<U>
      requires Err?
    {
      Err(error)
    }

    function Extract(): T
      requires Ok?
    {
      value
    }
  }

  /** The values of the results from position `j` on, in order, or the
      error of the first one that failed. */
  function Collect<T>(rs: seq<Result<T>>, j: nat): (r: Result<seq<T>>)
    requires j <= |rs|
    ensures r.Ok? <==> forall k :: j <= k < |rs| ==> rs[k].Ok?
    ensures r.Ok? ==> |r.value| == |rs| - j && forall k :: j <= k < |rs| ==> rs[k] == Ok(r.value[k - j])
    decreases |rs| - j
  {
    if j == |rs| then Ok([])
    else if rs[j].Err? then Err(rs[j].error)
    else
      var rest := Collect(rs, j + 1);
      if rest.Err? then rest
      else
        var vs := [rs[j].value] + rest.value;
        assert forall k :: 1 <= k < |vs| ==> vs[k] == rest.value[k - 1];
        Ok(vs)
  }

  /** The first failing result decides the error; later ones are never
      looked at. */
  lemma {:induction false} CollectFirstError<T>(rs: seq<Result<T>>, j: nat, k: nat)
    requires j <= k < |rs|
    requires forall m :: j <= m < k ==> rs[m].Ok?
    requires rs[k].Err?
    ensures Collect(rs, j) == Err(rs[k].error)
    decreases k - j
  {
    if j < k {
      CollectFirstError(rs, j + 1, k);
    }
  }

  /** Results that all succeed collect to their values. */
  lemma CollectValues<T>(rs: seq<Result<T>>, vs: seq<T>)
    requires |rs| == |vs|
    requires forall k :: 0 <= k < |rs| ==> rs[k] == Ok(vs[k])
    ensures Collect(rs, 0) == Ok(vs)
  {
    var r := Collect(rs, 0);
    assert forall k :: 0 <= k < |rs| ==> rs[k].Ok?;
    assert forall k :: 0 <= k < |vs| ==> r.value[k] == vs[k];
    assert r.value == vs;
  }

  /** What went wrong, with the context needed to name the field, the rank
      index (1-based, as reported) and the offending character. */
  datatype Cause =
    | FieldCount(actual: nat)                 // not six whitespace-separated fields
    | RankCount(actual: nat)                  // not eight '/'-separated ranks
    | EightMixed(rank: nat)                   // '8' inside a rank that is not exactly "8"
    | BadPlacementChar(rank: nat, ch: char)   // character outside pieces and digits
    | RankWidth(rank: nat, width: nat)        // rank does not add up to eight cells
    | BadSide(side: string)                   // side to move is not "w" or "b"
    | BadCastlingChar(ch: char)               // castling character outside K, Q, k, q
    | DuplicateCastling(ch: char)             // castling flag given twice
    | EnPassantLength                         // en-passant square not two characters
    | EnPassantFile(ch: char)                 // en-passant file outside a..h
    | EnPassantRank(ch: char)                 // en-passant rank outside {3, 6}
    | HalfmoveNotDigits                       // halfmove clock not a digit string
    | HalfmoveNegative                        // halfmove clock below zero
    | FullmoveNotDigits                       // fullmove number not a digit string
    | FullmoveTooSmall                        // fullmove number below one

  /** The source's two exception classes: a lexical error is an individual
      character outside the alphabet allowed at its position; a parse error
      is a count, structure or range violation. */
  datatype FenErr = LexicalError(cause: Cause) | ParseError(cause: Cause) {
    /** The `kind` tag the exception carries. */
    function Kind(): (k: string)
      ensures k == "LEXICAL" <==> LexicalError?
      ensures k == "PARSE" <==> ParseError?
    {
      if LexicalError? then "LEXICAL" else "PARSE"
    }
  }

  type Cell = Option<char>
  type Row = seq<Cell>
  type Board = seq<Row>

  /** The decoded position, one field per FEN field. */
  datatype FenRecord = FenRecord(
    board: Board,
    sideToMove: string,
    castling: string,
    enPassant: string,
    halfmoveClock: int,
    fullmoveNumber: int)

  /** `n` empty cells. */
  function Empties(n: nat): (r: Row)
    ensures |r| == n
    ensures forall k :: 0 <= k < n ==> r[k] == None
  {
    seq(n, _ => None)
  }
}
