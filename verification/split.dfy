/** String splitting as the validator uses it: `split('/')` on the placement
    field, and `strip()` followed by argument-less `split()` on the whole
    record. Each comes with its inverse join and a round-trip lemma. */
module Split {
  import opened Alphabet

  // ---------------------------------------------------------------------
  // Splitting on a separator character
  // ---------------------------------------------------------------------

  function Count(s: string, c: char): (n: nat)
    ensures n <= |s|
  {
    if |s| == 0 then 0 else (if s[0] == c then 1 else 0) + Count(s[1..], c)
  }

  /** Python `s.split(sep)`: every occurrence of `sep` cuts, so empty pieces
      are kept and the empty string gives one empty piece. */
  function SplitOn(s: string, sep: char): (r: seq<string>)
    ensures |r| == Count(s, sep) + 1
    ensures forall k :: 0 <= k < |r| ==> sep !in r[k]
  {
    if |s| == 0 then [[]]
    else
      var rest := SplitOn(s[1..], sep);
      if s[0] == sep then [[]] + rest
      else [[s[0]] + rest[0]] + rest[1..]
  }

  /** Python `sep.join(ps)`. */
  function JoinOn(ps: seq<string>, sep: char): string
    requires |ps| >= 1
  {
    if |ps| == 1 then ps[0] else ps[0] + [sep] + JoinOn(ps[1..], sep)
  }

  /** Joining the pieces back restores the string. */
  lemma {:induction false} JoinSplit(s: string, sep: char)
    ensures JoinOn(SplitOn(s, sep), sep) == s
  {
    if |s| == 0 {
    } else {
      var rest := SplitOn(s[1..], sep);
      JoinSplit(s[1..], sep);
      if s[0] == sep {
        assert SplitOn(s, sep) == [[]] + rest;
        assert ([[]] + rest)[1..] == rest;
      } else {
        var r := SplitOn(s, sep);
        assert r == [[s[0]] + rest[0]] + rest[1..];
        if |rest| == 1 {
          assert JoinOn(rest, sep) == rest[0];
        } else {
          assert JoinOn(rest, sep) == rest[0] + [sep] + JoinOn(rest[1..], sep);
          assert r[1..] == rest[1..];
        }
      }
    }
  }

  /** Splitting a join of separator-free pieces gives the pieces back. */
  lemma {:induction false} SplitJoin(ps: seq<string>, sep: char)
    requires |ps| >= 1
    requires forall k :: 0 <= k < |ps| ==> sep !in ps[k]
    ensures SplitOn(JoinOn(ps, sep), sep) == ps
  {
    if |ps| == 1 {
      SplitFree(ps[0], sep);
    } else {
      SplitJoin(ps[1..], sep);
      SplitPrefix(ps[0], [sep] + JoinOn(ps[1..], sep), sep);
      var tail := JoinOn(ps[1..], sep);
      assert SplitOn([sep] + tail, sep) == [[]] + SplitOn(tail, sep) by {
        assert ([sep] + tail)[1..] == tail;
      }
      assert ps[0] + [sep] + tail == ps[0] + ([sep] + tail);
      assert JoinOn(ps, sep) == ps[0] + ([sep] + tail);
      assert ([[]] + SplitOn(tail, sep))[1..] == ps[1..];
      assert ps[0] + [] == ps[0];
      assert ps == [ps[0]] + ps[1..];
    }
  }

  /** A separator-free string splits into itself. */
  lemma {:induction false} SplitFree(s: string, sep: char)
    requires sep !in s
    ensures SplitOn(s, sep) == [s]
  {
    if |s| > 0 {
      SplitFree(s[1..], sep);
      assert [s[0]] + s[1..] == s;
    }
  }

  /** A separator-free prefix glues onto the first piece of the rest. */
  lemma {:induction false} SplitPrefix(a: string, b: string, sep: char)
    requires sep !in a
    ensures SplitOn(a + b, sep) == [a + SplitOn(b, sep)[0]] + SplitOn(b, sep)[1..]
  {
    if |a| == 0 {
      assert a + b == b;
      var r := SplitOn(b, sep);
      assert r == [r[0]] + r[1..];
      assert a + r[0] == r[0];
    } else {
      var r := SplitOn(b, sep);
      var s := a + b;
      SplitPrefix(a[1..], b, sep);
      var t := SplitOn(a[1..] + b, sep);
      assert s[0] == a[0] && s[0] != sep && s[1..] == a[1..] + b;
      assert SplitOn(s, sep) == [[a[0]] + t[0]] + t[1..];
      assert t[0] == a[1..] + r[0] && t[1..] == r[1..];
      assert [a[0]] + (a[1..] + r[0]) == a + r[0];
    }
  }

  // ---------------------------------------------------------------------
  // Whitespace: strip() and split()
  // ---------------------------------------------------------------------

  predicate NoSpace(s: string) {
    forall k :: 0 <= k < |s| ==> !IsSpace(s[k])
  }

  /** Python `s.lstrip()`. */
  function StripLeft(s: string): (r: string)
    ensures |r| <= |s| && r == s[|s| - |r|..]
    ensures |r| > 0 ==> !IsSpace(r[0])
    ensures forall k :: 0 <= k < |s| - |r| ==> IsSpace(s[k])
  {
    if |s| > 0 && IsSpace(s[0]) then StripLeft(s[1..]) else s
  }

  /** Python `s.rstrip()`. */
  function StripRight(s: string): (r: string)
    ensures |r| <= |s| && r == s[..|r|]
    ensures |r| > 0 ==> !IsSpace(r[|r| - 1])
    ensures forall k :: |r| <= k < |s| ==> IsSpace(s[k])
  {
    if |s| > 0 && IsSpace(s[|s| - 1]) then StripRight(s[..|s| - 1]) else s
  }

  /** Python `s.strip()`: the middle of `s` that starts and ends with a
      non-whitespace character, everything before and after it being
      whitespace. */
  function Strip(s: string): (r: string)
    ensures |r| > 0 ==> !IsSpace(r[0]) && !IsSpace(r[|r| - 1])
    ensures var a := |s| - |StripLeft(s)|;
            && a + |r| <= |s| && r == s[a..a + |r|]
            && (forall k :: 0 <= k < a ==> IsSpace(s[k]))
            && (forall k :: a + |r| <= k < |s| ==> IsSpace(s[k]))
  {
    StripRight(StripLeft(s))
  }

  /** The longest whitespace-free prefix. */
  function WordPrefix(s: string): (w: string)
    ensures |w| <= |s| && w == s[..|w|] && NoSpace(w)
    ensures |w| < |s| ==> IsSpace(s[|w|])
  {
    if |s| == 0 || IsSpace(s[0]) then [] else [s[0]] + WordPrefix(s[1..])
  }

  /** Python `s.split()`: the maximal whitespace-free runs, in order. */
  function Words(s: string): (ws: seq<string>)
    ensures forall k :: 0 <= k < |ws| ==> |ws[k]| > 0 && NoSpace(ws[k])
    decreases |s|
  {
    if |s| == 0 then []
    else if IsSpace(s[0]) then Words(s[1..])
    else
      var w := WordPrefix(s);
      [w] + Words(s[|w|..])
  }

  /** The fields joined with single spaces, as a FEN record is written. */
  function JoinWords(ws: seq<string>): string
  {
    if |ws| == 0 then [] else if |ws| == 1 then ws[0] else ws[0] + " " + JoinWords(ws[1..])
  }

  predicate ValidWords(ws: seq<string>) {
    forall k :: 0 <= k < |ws| ==> |ws[k]| > 0 && NoSpace(ws[k])
  }

  /** Whitespace does not count: leading whitespace disappears. */
  lemma {:induction false} WordsSkipSpaces(s: string, n: nat)
    requires n <= |s|
    requires forall k :: 0 <= k < n ==> IsSpace(s[k])
    ensures Words(s) == Words(s[n..])
  {
    if n > 0 {
      WordsSkipSpaces(s[1..], n - 1);
      assert s[1..][n - 1..] == s[n..];
    }
  }

  /** Trailing whitespace disappears too. */
  lemma {:induction false} WordsDropTrailing(s: string, n: nat)
    requires n <= |s|
    requires forall k :: n <= k < |s| ==> IsSpace(s[k])
    ensures Words(s) == Words(s[..n])
    decreases |s|
  {
    if n == |s| {
      assert s[..n] == s;
    } else if n == 0 {
      WordsSkipSpaces(s, |s|);
      assert s[|s|..] == [];
      assert s[..0] == [];
    } else if IsSpace(s[0]) {
      WordsDropTrailing(s[1..], n - 1);
      assert s[1..][..n - 1] == s[..n][1..];
    } else {
      var w := WordPrefix(s);
      var w' := WordPrefix(s[..n]);
      WordPrefixCut(s, n);
      assert w' == w;
      WordsDropTrailing(s[|w|..], n - |w|);
      assert s[|w|..][..n - |w|] == s[..n][|w|..];
    }
  }

  /** The first word is unaffected by cutting off only trailing whitespace. */
  lemma {:induction false} WordPrefixCut(s: string, n: nat)
    requires 0 < n <= |s|
    requires forall k :: n <= k < |s| ==> IsSpace(s[k])
    ensures WordPrefix(s[..n]) == WordPrefix(s) && |WordPrefix(s)| <= n
  {
    if IsSpace(s[0]) {
      assert s[..n][0] == s[0];
    } else if n == 1 {
      if |s| > 1 {
        assert IsSpace(s[1]);
        assert WordPrefix(s[1..]) == [];
      }
      assert WordPrefix(s[..n][1..]) == [];
    } else {
      WordPrefixCut(s[1..], n - 1);
      assert s[1..][..n - 1] == s[..n][1..];
    }
  }

  /** Python's `strip()` before `split()` changes nothing. */
  lemma WordsStrip(s: string)
    ensures Words(Strip(s)) == Words(s)
  {
    var l := StripLeft(s);
    WordsSkipSpaces(s, |s| - |l|);
    var r := StripRight(l);
    WordsDropTrailing(l, |r|);
  }

  /** A word followed by the rest of the input. */
  lemma {:induction false} WordPrefixOf(w: string, rest: string)
    requires NoSpace(w)
    requires |rest| == 0 || IsSpace(rest[0])
    ensures WordPrefix(w + rest) == w
  {
    if |w| == 0 {
      assert w + rest == rest;
    } else {
      WordPrefixOf(w[1..], rest);
      assert (w + rest)[1..] == w[1..] + rest;
      assert [w[0]] + w[1..] == w;
    }
  }

  /** Text after a whitespace character does not reach the first word. */
  lemma {:induction false} WordPrefixAppend(a: string, rest: string)
    requires |rest| > 0 && IsSpace(rest[0])
    ensures WordPrefix(a + rest) == WordPrefix(a)
  {
    if |a| == 0 {
      assert a + rest == rest;
    } else if !IsSpace(a[0]) {
      WordPrefixAppend(a[1..], rest);
      assert (a + rest)[1..] == a[1..] + rest;
    }
  }

  /** Any whitespace character separates fields: the text on either side
      splits on its own, whatever whitespace surrounds it. */
  lemma {:induction false} WordsCut(a: string, c: char, b: string)
    requires IsSpace(c)
    ensures Words(a + [c] + b) == Words(a) + Words(b)
    decreases |a|
  {
    var rest := [c] + b;
    var s := a + rest;
    assert a + [c] + b == s;
    if |a| == 0 {
      assert s == rest && rest[1..] == b;
    } else if IsSpace(a[0]) {
      WordsCut(a[1..], c, b);
      assert s[1..] == a[1..] + [c] + b;
    } else {
      WordsCutWord(a, c, b);
    }
  }

  /** `WordsCut` when `a` starts with a word. */
  lemma {:induction false} WordsCutWord(a: string, c: char, b: string)
    requires IsSpace(c) && |a| > 0 && !IsSpace(a[0])
    ensures Words(a + [c] + b) == Words(a) + Words(b)
    decreases |a|, 0
  {
    var rest := [c] + b;
    var s := a + rest;
    assert a + [c] + b == s;
    var w := WordPrefix(a);
    WordPrefixAppend(a, rest);
    assert Words(s) == [w] + Words(s[|w|..]);
    assert Words(a) == [w] + Words(a[|w|..]);
    assert s[|w|..] == a[|w|..] + [c] + b;
    WordsCut(a[|w|..], c, b);
  }

  /** A non-empty text without whitespace is a single field. */
  lemma WordsSingle(w: string)
    requires |w| > 0 && NoSpace(w)
    ensures Words(w) == [w]
  {
    WordPrefixOf(w, []);
    assert w + [] == w;
    assert w[|w|..] == [];
  }

  /** Splitting fields joined by single spaces gives the fields back. */
  lemma {:induction false} WordsJoin(ws: seq<string>)
    requires ValidWords(ws)
    ensures Words(JoinWords(ws)) == ws
  {
    if |ws| == 0 {
    } else if |ws| == 1 {
      WordPrefixOf(ws[0], []);
      assert ws[0] + [] == ws[0];
      assert ws[0][|ws[0]|..] == [];
    } else {
      var w := ws[0];
      var tail := JoinWords(ws[1..]);
      var s := w + " " + tail;
      assert s == w + (" " + tail);
      WordPrefixOf(w, " " + tail);
      assert s[|w|..] == " " + tail;
      assert (" " + tail)[1..] == tail;
      WordsJoin(ws[1..]);
      assert ws == [w] + ws[1..];
    }
  }
}
