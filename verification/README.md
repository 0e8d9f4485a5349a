# FEN record validator, modelled in Dafny

This project models the validator and decoder of a chess board-notation
record (FEN). It takes one line of text and either decodes it into a record or
rejects it with a classified error. The record has six whitespace-separated
fields:

- the piece placement, as eight '/'-separated ranks of piece letters and
  run-length digits;
- the side to move;
- the castling ability;
- the en-passant target square;
- the halfmove clock;
- the fullmove number.

There are two error kinds. A `LexicalError` means a single character lies
outside the alphabet allowed at its position. A `ParseError` means a count,
structure or range is violated. The validator stops at the first error, in
field order. Inside the placement field it goes rank by rank, and inside a
rank character by character.

The modules follow the validator's structure:

- `FenTypes`: the result type, the two error kinds with their structured
  cause, and the decoded record. It also has `Collect`, the fail-fast walk
  over a sequence of results.
- `Alphabet`: the character classes. These are the twelve piece letters
  (`ALL_PIECES`), the run digits 1..7 (`DIGITS_1_7`), the castling flags,
  the en-passant files and ranks, and whitespace.
- `Split`: Python's `str.split('/')`, and `str.strip().split()` without
  arguments.
- `Numbers`: Python's `isdigit()`, `isdecimal()` and `int()` over the
  digit classes of the Unicode 15.0 character database, ASCII digit
  strings and their value, and decimal rendering.
- `Placement`: the rank scan and the placement decoder. It also holds a
  run-length encoder of rows, used only as the decoder's inverse.
- `Fields`: the field-count check and the five scalar validators.
- `Fen`: `parse_fen`, the fail-fast order, and the round trip
  "render, then parse" over valid records.
- `FenExamples`: the three example records the program offers, worked
  through end to end.

The rendering functions (`EncodeRank`, `EncodePlacement`, `Render`) do not
exist in the program. They are independent partners, there only to state
the round trips.

Three points of the validator's behaviour are worth stating outright:

- The castling field is returned as the text given (for example `"Qk"`),
  not as a set of flags.
- The second error kind's tag is `"PARSE"`; its message prefix is
  `"[SINTAXIS]"` (fen_parser_gui.py:58).
- A rank is compared with `"8"` before it is scanned. The width check
  applies only to scanned ranks.

The counter validators `ParseHalfmove` and `ParseFullmove`, and through them
`ParseFen`, accept ASCII digit strings of any length. That is the corrected
behaviour of the findings below. The counter checks exactly as the program
writes them, with Python's `isdigit()` and `int()`, are modelled beside them
as `HalfmoveAsWritten` and `FullmoveAsWritten`.

## Model

| member | source | states |
|---|---|---|
| FenTypes.FenErr.Kind | fen_parser_gui.py:50-58 | The kind tag is `"LEXICAL"` exactly for a lexical error and `"PARSE"` exactly for a parse error; no error is both. |
| FenTypes.Collect | fen_parser_gui.py:101-144 | Walking results in order succeeds exactly when every result succeeds; it then yields their values, position by position. |
| FenTypes.CollectFirstError | fen_parser_gui.py:101-144 | The first failing result decides the error; results after it are never consulted. |
| Alphabet.Classify | fen_parser_gui.py:70-71 | A rank character is a piece token exactly when it is one of the twelve letters, a run of 1..7 exactly when it is a digit 1..7 (with that length), and the '8' token exactly when it is '8'. |
| Split.SplitOn | fen_parser_gui.py:93 | Splitting on '/' keeps empty pieces: one more piece than separators, and no piece contains the separator. |
| Split.JoinSplit | fen_parser_gui.py:93 | Joining the pieces of a split with the separator gives back the original text. |
| Split.SplitJoin | fen_parser_gui.py:93 | Splitting a join of separator-free pieces gives back those pieces. |
| Split.Words | fen_parser_gui.py:201 | Every field that splitting on whitespace yields is non-empty and contains no whitespace. |
| Split.WordsCut | fen_parser_gui.py:201 | Any single whitespace character, tab included, separates fields: the text before it and the text after it split on their own, so any run of whitespace acts as one separator. |
| Split.WordsSingle | fen_parser_gui.py:201 | A non-empty text without whitespace is one field. |
| Split.Strip | fen_parser_gui.py:201 | `strip()` keeps the middle of the text that starts and ends with a non-whitespace character; everything removed before and after it is whitespace. |
| Split.WordsStrip | fen_parser_gui.py:201 | Stripping before splitting on whitespace does not change the fields. |
| Split.WordsJoin | fen_parser_gui.py:201 | Fields joined by single spaces split back into the same fields. |
| Numbers.AsciiDigit | fen_parser_gui.py:180-182 | An ASCII character passes `isdigit()` exactly when it is '0' to '9', and `int()` reads it as its usual value. |
| Numbers.AllDigitsAscii | fen_parser_gui.py:180-182 | The ASCII digit strings are exactly the ASCII texts that pass `isdigit()`, and every one of them passes `isdecimal()`. |
| Numbers.PyDecimalValueAscii | fen_parser_gui.py:182 | On ASCII digits, `int()` reads the same value as the plain decimal reading. |
| Numbers.PyInt | fen_parser_gui.py:182 | On a text that passed `isdigit()`, `int()` returns a value exactly when every character is decimal and there are at most 4300 digits; the value is that of the digits, each counted with its Unicode digit value, and on ASCII digits it is the plain decimal reading that the decimal rendering inverts. Otherwise it raises `ValueError`. |
| Numbers.DigitsValue | fen_parser_gui.py:182 | The value `int()` reads from a digit string has at most as many decimal digits as the string, and exactly as many when it has no leading zero. |
| Numbers.DigitsRoundTrip | fen_parser_gui.py:182 | A digit string without a leading zero, read as a number and written back in decimal, is the string itself. |
| Numbers.DecimalRoundTrip | fen_parser_gui.py:182 | Reading back the decimal rendering of a number gives the number. |
| Numbers.LeadingZero | fen_parser_gui.py:191 | A leading zero does not change a counter's value, so "01" reads as 1. |
| Placement.WidthSplit | fen_parser_gui.py:114-124 | A rank text's width is one cell per piece letter plus the sum of its run digits. |
| Placement.ScanRank | fen_parser_gui.py:109-137 | The scan succeeds exactly when every character is a piece letter or a digit 1..7. Its row then has the text's width, holds the text's letters in order and as many empty cells as the digits add up to. Its only errors are the mixed-'8' parse error and lexical errors. |
| Placement.ScanRankAppend | fen_parser_gui.py:109-137 | Cells are appended in reading order: scanning `a + b` gives `a`'s error, else `b`'s error, else `a`'s cells followed by `b`'s. With the one-character case above, this fixes the cell at every position. |
| Placement.DecodeRank | fen_parser_gui.py:105-142 | A rank is accepted exactly when it is "8" or a text of rank symbols of width eight. "8" gives eight empty cells. An accepted rank is a valid 8-cell row with the letters of the text, and it is the row the scan produced. A scan error is the rank's error. A scannable rank of another width is a parse error reporting its rank number and width. |
| Placement.DecodeRanks | fen_parser_gui.py:99-144 | Ranks numbered from 1 are accepted exactly when each is accepted on its own, and the board holds each rank's row at its position. |
| Placement.DecodePlacement | fen_parser_gui.py:92-144 | A placement without exactly seven '/' is a parse error reporting the rank count. Otherwise it is accepted exactly when each of its eight ranks is. An accepted board has eight rows, row k being the decoded rank k+1, and every cell empty or a piece letter. |
| Placement.DecodePlacementFirstFailure | fen_parser_gui.py:101-144 | In a placement of eight ranks, the first failing rank's error is the placement's error. |
| Placement.ScanRankFirstFault | fen_parser_gui.py:109-136 | The first character that is not a rank symbol decides the scan's error: a parse error for '8', a lexical error naming the character otherwise. |
| Placement.DecodeRankFirstFault | fen_parser_gui.py:105-141 | In a rank other than "8", a bad character is reported before the width check, whatever the width. |
| Placement.DecodeRanksFirstFailure | fen_parser_gui.py:101-144 | The first failing rank decides the placement's error; later ranks are not looked at. |
| Placement.DecodeEncodeRank | fen_parser_gui.py:101-142 | Any valid row, written run-length, decodes back to itself. |
| Placement.DecodeEncodePlacement | fen_parser_gui.py:92-144 | Any 8x8 board of valid cells, written as a placement field, decodes back to itself. |
| Placement.EightMixedIn | fen_parser_gui.py:126-131 | "3p8" is a parse error for a misplaced '8' at its rank number. |
| Placement.EightDoubled | fen_parser_gui.py:126-131 | "88" is not the whole-rank "8"; it is a parse error for a misplaced '8'. |
| Placement.PieceThenRuns | fen_parser_gui.py:114-124 | "p16" is a pawn in the first cell followed by seven empty cells. |
| Placement.TwoRunsOfFour | fen_parser_gui.py:119-124 | "44" is two runs of four and decodes to an empty rank. |
| Placement.EightRunsOfOne | fen_parser_gui.py:119-124 | "11111111" decodes to an empty rank; runs need not alternate with letters. |
| Fields.CheckFieldCount | fen_parser_gui.py:86-90 | A record is accepted for further checks exactly when it has six fields; otherwise a parse error reports the count. |
| Fields.ParseSide | fen_parser_gui.py:146-149 | Side to move is accepted exactly when it is "w" or "b" and is then returned as given; anything else is a parse error. |
| Fields.CastlingFault | fen_parser_gui.py:155-162 | The flag scan finds no fault exactly when every character is a flag not seen before and none repeats. |
| Fields.ParseCastling | fen_parser_gui.py:151-165 | Castling is accepted exactly when it is "-" or distinct flags from K, Q, k, q in any order, and it is returned as given. |
| Fields.CastlingFirstFault | fen_parser_gui.py:157-162 | The first offending castling character decides the error: a non-flag is lexical, a repeated flag is a parse error. |
| Fields.CastlingAtMostFour | fen_parser_gui.py:151-165 | An accepted castling field is at most four characters long. |
| Fields.ParseEnPassant | fen_parser_gui.py:167-177 | En passant is accepted exactly when it is "-" or a file a..h followed by rank 3 or 6. Otherwise the length is checked first (parse error), then the file (lexical error), then the rank (parse error). |
| Fields.ParseHalfmove | fen_parser_gui.py:179-186 | The clock is accepted exactly when it is a non-empty digit string, and its value is then that of the digits. Every error is lexical: the "negative" parse error cannot be raised. |
| Fields.ParseFullmove | fen_parser_gui.py:188-194 | The move number is accepted exactly when it is a digit string of value at least one. A non-digit is a lexical error; a value of zero is a parse error. |
| Fields.CountersRoundTrip | fen_parser_gui.py:179-194 | A number written in decimal reads back as itself in the halfmove clock. It does the same as a move number when at least one; "0" there is a parse error. |
| Fields.HalfmoveAsWritten | fen_parser_gui.py:179-186 | Under Python's Unicode 15.0 digit tables, the clock check as written is a lexical error exactly on texts failing `isdigit()`. It lets `int()`'s `ValueError` escape exactly on texts that pass `isdigit()` but hold a non-decimal digit or have more than 4300 digits. It accepts exactly the remaining texts, the decimal strings of any script, with their `int()` value. |
| Fields.FullmoveAsWritten | fen_parser_gui.py:188-194 | Under the same tables, the move-number check as written has the same lexical error and the same escapes. It accepts exactly the decimal strings within the bound whose value is at least one, and gives the parse error exactly on those whose value is zero. |
| Fields.AsWrittenAgrees | fen_parser_gui.py:179-194 | Under the same tables, a counter check as written and its corrected form give the same outcome exactly on texts that fail `isdigit()` and on ASCII digit strings of at most 4300 digits. |
| Fields.NonDecimalDigitsEscape | fen_parser_gui.py:180-182 | Counters written as ², ₂ or ① escape both checks as written, while the corrected checks report lexical errors. |
| Fields.LongCounterEscapes | fen_parser_gui.py:182 | An ASCII digit counter of more than 4300 digits escapes both checks as written, while the corrected clock check reads its value. |
| Fields.NonAsciiDecimalAccepted | fen_parser_gui.py:179-194 | The Arabic-Indic three is accepted as 3 by both checks as written, while the corrected checks report lexical errors. |
| Fields.WorkedSideAndCastling | fen_parser_gui.py:146-165 | "W" is a parse error; "KQkq" and "Qk" are accepted; "KK" is a duplicate (parse error); "x" is a lexical error. |
| Fields.WorkedEnPassant | fen_parser_gui.py:167-177 | "e3" and "e6" are accepted; "e4" is a parse error for its rank, "i3" a lexical error for its file, "e" a parse error for its length. |
| Fields.WorkedCounters | fen_parser_gui.py:179-194 | Halfmove "0" is 0 and "-1" a lexical error; fullmove "0" is a parse error and "1" is 1. |
| Fen.ParseFen | fen_parser_gui.py:196-220 | A record with other than six fields is a parse error reporting the count. Otherwise the result is that of decoding the six fields, and an accepted record consists of the decoded fields and meets every field's invariant. |
| Fen.DecodeFields | fen_parser_gui.py:204-220 | An accepted record holds the decoded board, the three text fields as given and the counters' values, and satisfies the record invariant. |
| Fen.ParseFenAccepts | fen_parser_gui.py:201-211 | A record is accepted exactly when it has six fields and each field passes its own validator. |
| Fen.DecodeFieldsAccepts | fen_parser_gui.py:206-211 | Six fields are accepted exactly when each passes its own validator. |
| Fen.DecodeFieldsOk | fen_parser_gui.py:206-211 | The fail-fast chain accepts exactly when all six validators accept their fields. |
| Fen.ParseFenFirstError | fen_parser_gui.py:206-211 | When fields 0..k-1 pass and field k fails, the record fails with field k's error; later fields are never looked at. |
| Fen.DecodeFieldsValues | fen_parser_gui.py:213-220 | When every field passes, the record holds exactly what each validator returned. |
| Fen.ParseRender | fen_parser_gui.py:196-220 | Round trip: every valid record, written as one line of FEN, parses back to itself. |
| FenExamples.StartPosition | fen_parser_gui.py:366-367 | The standard initial position is accepted: white to move, all four castling rights, no en-passant square, counters 0 and 1, the back ranks and pawns in place and ranks 3 to 6 empty. |
| FenExamples.GamePosition | fen_parser_gui.py:364-365 | The middlegame example is accepted with black to move, no castling, no en-passant square, counters 1 and 27. |
| FenExamples.FirstRankTooWide | fen_parser_gui.py:138-141 | The example's first rank "2r3k7" is a parse error reporting width 14 at rank 1. |
| FenExamples.FifthRankBadChar | fen_parser_gui.py:133-136 | Its fifth rank "P3C3", on its own, is a lexical error for 'C' at rank 5. |
| FenExamples.BadFenFailsAtFirstRank | fen_parser_gui.py:368-369 | The invalid example is rejected for its first rank's width, never for the 'C' in rank 5. |

## Left out

- The Tkinter interface, the board drawing and the Unicode piece glyphs: they only consume the decoded record or the error.
- Error messages: each error carries a structured cause (field, rank number, offending character, count) instead of the Spanish message text.
- The base class `FenError` with kind `"FEN_ERROR"`: the validator never raises it directly, so the model has only the two subclasses.
- Split.Words: treats only ASCII whitespace (tab through carriage return, 0x1C..0x1F, space) as a field separator. Python's `str.split()` and `str.strip()` also split on Unicode spaces such as U+00A0 and U+2028.
- Numbers.DecimalDigitOf: the decimal digits are those of the Unicode 15.0 character database, which Python 3.12 uses. Other Python versions use other tables. Older ones lack some of these digits. Python 3.14 (Unicode 16.0) adds digits of further scripts, such as Garay, Gurung Khema, Kirat Rai, Ol Onal and Sunuwar, which the model treats as non-digits. On such a version the checks as written accept a counter in those digits, where `Fields.HalfmoveAsWritten` and `Fields.FullmoveAsWritten` report a lexical error.
- Numbers.IsDigitOnly: likewise follows the Unicode 15.0 tables. Digit-only characters added in later Unicode versions are treated as non-digits.
- Fields.HalfmoveAsWritten: its characterisation is exact only for Python versions whose character tables are Unicode 15.0; see the `Numbers.DecimalDigitOf` line.
- Fields.FullmoveAsWritten: the same restriction to the Unicode 15.0 tables.
- Numbers.MaxStrDigits: the 4300-digit bound is CPython's default. It is absent before Python 3.11, 3.10.7, 3.9.14 and 3.8.14, and `sys.set_int_max_str_digits` can change it. Where it is absent or larger, long counters are read as values and do not escape.
- Integer width: counter values are unbounded integers, as Python's `int` values are. Only the conversion from text is bounded (`Numbers.MaxStrDigits`), and the corrected validators read a digit string of any length.

## Findings

| source | as written | input that shows it | evidently intended | confidence | as-written member | corrected member |
|---|---|---|---|---|---|---|
| fen_parser_gui.py:179-194 | The counter checks test `isdigit()` and then call `int()`. `isdigit()` also holds for digits that are not decimal: ¹ ² ³, ⁰ to ⁹, ₀ to ₉, ① to ⑨, the Ethiopic digits and others. `int()` rejects these with a `ValueError`, which is neither a `LexicalError` nor a `ParseError`. | a halfmove clock or fullmove number field "²" or "₂", e.g. `8/8/8/8/8/8/8/8 w - - ² 1` | A lexical error, as for any other non-decimal counter text | not executed; high (documented Python behaviour of `str.isdigit` and `int`) | Fields.HalfmoveAsWritten, Fields.FullmoveAsWritten, Fields.NonDecimalDigitsEscape | Fields.ParseHalfmove, Fields.ParseFullmove |
| fen_parser_gui.py:179-194 | `int()` on a counter of more than 4300 digits raises `ValueError` on CPython 3.11 and later, and on 3.10.7, 3.9.14 and 3.8.14. The error escapes the validator's error classes. | a halfmove clock of 4301 ASCII digits | The counter's value, or else a `FenError`; never an escaping `ValueError`. The corrected checks read the value. | not executed; high on the Python versions named, absent on earlier ones | Fields.HalfmoveAsWritten, Fields.FullmoveAsWritten, Fields.LongCounterEscapes | Fields.ParseHalfmove, Fields.ParseFullmove |
| fen_parser_gui.py:179-194 | `isdigit()` and `int()` accept decimal digits of every script, so the checks accept the Arabic-Indic "٣" as 3. Every other field of the record accepts ASCII only. | `8/8/8/8/8/8/8/8 w - - ٣ 1` | A lexical error, since FEN counters are written in ASCII digits | not executed; medium (the source does not say whether other scripts are meant) | Fields.HalfmoveAsWritten, Fields.FullmoveAsWritten, Fields.NonAsciiDecimalAccepted | Fields.ParseHalfmove, Fields.ParseFullmove |
