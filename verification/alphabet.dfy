/** Character classes of the validator: the twelve piece letters, the run
    digits 1..7, the castling flags, the en-passant files and ranks, decimal
    digits and whitespace. */
module Alphabet {

  /** The twelve piece letters: upper case for white, lower case for black. */
  const Pieces: string := "PNBRQKpnbrqk"
  /** The castling flags. */
  const CastlingFlags: string := "KQkq"
  const Files: string := "abcdefgh"
  const EnPassantRanks: string := "36"

  predicate IsPiece(c: char) {
    c in Pieces
  }

  /** A digit that stands for a run of one to seven empty cells. */
  predicate IsRunDigit(c: char) {
    '1' <= c <= '7'
  }

  predicate IsDecimalDigit(c: char) {
    '0' <= c <= '9'
  }

  function DigitValue(c: char): (v: nat)
    requires IsDecimalDigit(c)
    ensures v <= 9
  {
    (c as int) - ('0' as int)
  }

  function DigitChar(v: nat): (c: char)
    requires v <= 9
    ensures IsDecimalDigit(c) && DigitValue(c) == v
  {
    (('0' as int) + v) as char
  }

  /** Whitespace as Python's argument-less `str.split` and `str.strip` see
      it, restricted to ASCII: tab, line feed, vertical tab, form feed,
      carriage return, the four separators 0x1C..0x1F, and space. */
  predicate IsSpace(c: char) {
    ('\t' <= c <= '\r') || ('\U{1C}' <= c <= '\U{1F}') || c == ' '
  }

  /** How the placement scan classifies one character of a rank. */
  datatype Token = PieceToken(letter: char) | RunToken(len: nat) | EightToken | InvalidToken

  function Classify(c: char): (t: Token)
    ensures t.PieceToken? <==> IsPiece(c)
    ensures t.PieceToken? ==> t.letter == c
    ensures t.RunToken? <==> IsRunDigit(c)
    ensures t.RunToken? ==> 1 <= t.len <= 7 && DigitChar(t.len) == c
    ensures t.EightToken? <==> c == '8'
  {
    if IsPiece(c) then PieceToken(c)
    else if IsRunDigit(c) then RunToken(DigitValue(c))
    else if c == '8' then EightToken
    else InvalidToken
  }
}
