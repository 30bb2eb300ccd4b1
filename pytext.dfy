/**
 * The pieces of Python's text handling the parser relies on: the newline
 * translation of `Path.read_text()`, `str.split` on a one-character separator,
 * `str.startswith`, and `shlex.split` restricted to text without quote or
 * backslash characters, where it splits on runs of the shlex whitespace
 * characters.
 */
module PyText {

  /**
   * `Path.read_text()` reads in universal-newline mode: `"\r\n"` and a lone
   * `"\r"` both become `"\n"`, so no carriage return is left.
   */
  function ReadText(raw: string): (text: string)
    ensures '\r' !in text
    decreases |raw|
  {
    if raw == [] then []
    else if raw[0] == '\r' then
      if |raw| >= 2 && raw[1] == '\n' then ['\n'] + ReadText(raw[2..]) else ['\n'] + ReadText(raw[1..])
    else [raw[0]] + ReadText(raw[1..])
  }

  /** `s.startswith(prefix)`. */
  predicate StartsWith(s: string, prefix: string)
  {
    |prefix| <= |s| && s[..|prefix|] == prefix
  }

  /** `s.split(sep)`: the pieces between separators; never empty. */
  function Split(s: string, sep: char): (pieces: seq<string>)
    ensures |pieces| >= 1
    ensures forall i :: 0 <= i < |pieces| ==> sep !in pieces[i]
    decreases |s|
  {
    if s == [] then [[]]
    else
      var rest := Split(s[1..], sep);
      if s[0] == sep then [[]] + rest
      else [[s[0]] + rest[0]] + rest[1..]
  }

  /** `sep.join(pieces)`, the inverse of `Split`. */
  function Join(pieces: seq<string>, sep: char): string
    requires |pieces| >= 1
  {
    if |pieces| == 1 then pieces[0] else pieces[0] + [sep] + Join(pieces[1..], sep)
  }

  /** `[x for x in xs if x.startswith(prefix)]`. */
  function Filter(xs: seq<string>, prefix: string): (kept: seq<string>)
    ensures forall i :: 0 <= i < |kept| ==> StartsWith(kept[i], prefix) && kept[i] in xs
    ensures forall x :: x in xs && StartsWith(x, prefix) ==> x in kept
    ensures |kept| <= |xs|
  {
    if xs == [] then []
    else if StartsWith(xs[0], prefix) then [xs[0]] + Filter(xs[1..], prefix)
    else Filter(xs[1..], prefix)
  }

  /** The characters `shlex` treats as whitespace. */
  predicate IsBlank(c: char)
  {
    c == ' ' || c == '\t' || c == '\r' || c == '\n'
  }

  /** A shell word: a non-empty run of non-blank characters. */
  predicate IsWord(w: string)
  {
    w != [] && forall i :: 0 <= i < |w| ==> !IsBlank(w[i])
  }

  /** Length of the run of non-blank characters at the start of `s`. */
  function WordEnd(s: string): (n: nat)
    ensures n <= |s|
    ensures forall i :: 0 <= i < n ==> !IsBlank(s[i])
    ensures n < |s| ==> IsBlank(s[n])
    decreases |s|
  {
    if s == [] || IsBlank(s[0]) then 0 else 1 + WordEnd(s[1..])
  }

  /** Text made of blanks only, the empty text included. */
  predicate AllBlank(b: string)
  {
    forall i :: 0 <= i < |b| ==> IsBlank(b[i])
  }

  /**
   * `shlex.split(s)` on text with no quote or backslash characters: the maximal
   * runs of non-blank characters, in order (`TokensPadded` and `PaddedTokens`).
   */
  function Tokens(s: string): (words: seq<string>)
    ensures forall i :: 0 <= i < |words| ==> IsWord(words[i])
    ensures words == [] <==> AllBlank(s)
    decreases |s|
  {
    if s == [] then []
    else if IsBlank(s[0]) then Tokens(s[1..])
    else
      var n := WordEnd(s);
      [s[..n]] + Tokens(s[n..])
  }

  /** Words written out with one space before each: `"".join(" " + w for w in ws)`. */
  function Unwords(ws: seq<string>): string
  {
    if ws == [] then [] else [' '] + ws[0] + Unwords(ws[1..])
  }

  /**
   * Words laid out between blank runs:
   * `gaps[0] + ws[0] + gaps[1] + ... + ws[n - 1] + gaps[n]`.
   */
  function Padded(ws: seq<string>, gaps: seq<string>): string
    requires |gaps| == |ws| + 1
    decreases |ws|
  {
    if ws == [] then gaps[0] else gaps[0] + ws[0] + Padded(ws[1..], gaps[1..])
  }

  /** Blank runs that lay out `n` words: all blank, and non-empty between two words. */
  predicate Separates(gaps: seq<string>, n: nat)
  {
    && |gaps| == n + 1
    && (forall k :: 0 <= k < |gaps| ==> AllBlank(gaps[k]))
    && (forall k :: 0 < k < n ==> gaps[k] != [])
  }

  /** The blank runs around the tokens of `s`, the leading and trailing ones included. */
  function Gaps(s: string): (gaps: seq<string>)
    ensures |gaps| == |Tokens(s)| + 1
    decreases |s|
  {
    if s == [] then [[]]
    else if IsBlank(s[0]) then
      var g := Gaps(s[1..]);
      [[s[0]] + g[0]] + g[1..]
    else [[]] + Gaps(s[WordEnd(s)..])
  }

  // ---------------------------------------------------------------------
  // Read text.

  /** Text that does not end inside a `"\r\n"` translates piecewise. */
  lemma {:induction false} ReadTextAppend(a: string, b: string)
    requires a == [] || a[|a| - 1] != '\r'
    ensures ReadText(a + b) == ReadText(a) + ReadText(b)
    decreases |a|
  {
    if a == [] {
      assert a + b == b;
    } else {
      var s := a + b;
      assert s[0] == a[0];
      if a[0] == '\r' {
        assert |a| >= 2;
        assert s[1] == a[1];
        if a[1] == '\n' {
          assert s[2..] == a[2..] + b;
          ReadTextAppend(a[2..], b);
        } else {
          assert s[1..] == a[1..] + b;
          ReadTextAppend(a[1..], b);
        }
      } else {
        assert s[1..] == a[1..] + b;
        ReadTextAppend(a[1..], b);
      }
    }
  }

  /** Text without carriage returns is read unchanged. */
  lemma {:induction false} ReadTextPlain(s: string)
    requires '\r' !in s
    ensures ReadText(s) == s
    decreases |s|
  {
    if s != [] {
      assert s[0] in s;
      assert forall c :: c in s[1..] ==> c in s;
      ReadTextPlain(s[1..]);
      assert [s[0]] + s[1..] == s;
    }
  }

  /** A text that ends a line ends a line once read. */
  lemma {:induction false} ReadTextEndsLine(s: string)
    requires s != [] && (s[|s| - 1] == '\n' || s[|s| - 1] == '\r')
    ensures ReadText(s) != [] && ReadText(s)[|ReadText(s)| - 1] == '\n'
    decreases |s|
  {
    if s[0] == '\r' && |s| >= 2 && s[1] == '\n' {
      if |s| > 2 {
        ReadTextEndsLine(s[2..]);
      }
    } else if |s| > 1 {
      ReadTextEndsLine(s[1..]);
    }
  }

  // ---------------------------------------------------------------------
  // Split and Join are inverse to each other.

  lemma {:induction false} JoinSplit(s: string, sep: char)
    ensures Join(Split(s, sep), sep) == s
    decreases |s|
  {
    if s != [] {
      var rest := Split(s[1..], sep);
      JoinSplit(s[1..], sep);
      if s[0] == sep {
        assert ([[]] + rest)[1..] == rest;
      } else {
        var pieces := [[s[0]] + rest[0]] + rest[1..];
        if |rest| > 1 {
          assert pieces[1..] == rest[1..];
          assert Join(rest, sep) == rest[0] + [sep] + Join(rest[1..], sep);
        }
      }
    }
  }

  /** A piece free of the separator splits to itself. */
  lemma {:induction false} SplitWord(w: string, sep: char)
    requires sep !in w
    ensures Split(w, sep) == [w]
    decreases |w|
  {
    if w != [] {
      SplitWord(w[1..], sep);
      assert [w[0]] + w[1..] == w;
    }
  }

  /** Splitting at the first separator. */
  lemma {:induction false} SplitAtSeparator(w: string, sep: char, t: string)
    requires sep !in w
    ensures Split(w + [sep] + t, sep) == [w] + Split(t, sep)
    decreases |w|
  {
    if w == [] {
      assert w + [sep] + t == [sep] + t;
      assert ([sep] + t)[1..] == t;
    } else {
      var s := w + [sep] + t;
      assert s[0] == w[0] && s[1..] == w[1..] + [sep] + t;
      SplitAtSeparator(w[1..], sep, t);
      assert [w[0]] + w[1..] == w;
    }
  }

  lemma {:induction false} SplitJoin(pieces: seq<string>, sep: char)
    requires |pieces| >= 1
    requires forall i :: 0 <= i < |pieces| ==> sep !in pieces[i]
    ensures Split(Join(pieces, sep), sep) == pieces
    decreases |pieces|
  {
    if |pieces| == 1 {
      SplitWord(pieces[0], sep);
    } else {
      SplitJoin(pieces[1..], sep);
      SplitAtSeparator(pieces[0], sep, Join(pieces[1..], sep));
      assert [pieces[0]] + pieces[1..] == pieces;
    }
  }

  /** A character in none of the pieces, other than the separator, is not in their join. */
  lemma {:induction false} JoinAvoids(pieces: seq<string>, sep: char, c: char)
    requires |pieces| >= 1 && c != sep
    requires forall i :: 0 <= i < |pieces| ==> c !in pieces[i]
    ensures c !in Join(pieces, sep)
    decreases |pieces|
  {
    if |pieces| > 1 {
      JoinAvoids(pieces[1..], sep, c);
    }
  }

  /** `Split` on a text with a known first character. */
  lemma SplitCons(c: char, t: string, sep: char)
    ensures var rest := Split(t, sep);
            Split([c] + t, sep) == if c == sep then [[]] + rest else [[c] + rest[0]] + rest[1..]
  {
    assert ([c] + t)[1..] == t;
  }

  /** The slice algebra of one step of `SplitAppend`, for a first character that is not the separator. */
  lemma InitConsPiece(c: char, ta: seq<string>, tb: seq<string>)
    requires |ta| >= 2
    ensures var r := ta[..|ta| - 1] + tb;
            [[c] + r[0]] + r[1..] == ([[c] + ta[0]] + ta[1..])[..|ta| - 1] + tb
  {
    var r := ta[..|ta| - 1] + tb;
    assert r[0] == ta[0];
    assert r[1..] == ta[1..|ta| - 1] + tb;
    assert ([[c] + ta[0]] + ta[1..])[..|ta| - 1] == [[c] + ta[0]] + ta[1..|ta| - 1];
  }

  /** The slice algebra of one step of `SplitAppend`, for a separator as first character. */
  lemma InitConsEmpty(ta: seq<string>, tb: seq<string>)
    requires |ta| >= 1
    ensures [[]] + (ta[..|ta| - 1] + tb) == ([[]] + ta)[..|ta| - 1 + 1] + tb
  {
    assert ([[]] + ta)[..|ta|] == [[]] + ta[..|ta| - 1];
  }

  /**
   * Text that ends with a separator contributes its complete lines to a longer
   * text, and its trailing empty piece is where the rest starts.
   */
  lemma {:induction false} SplitAppend(a: string, b: string, sep: char)
    requires a != [] && a[|a| - 1] == sep
    ensures |Split(a, sep)| >= 2
    ensures Split(a + b, sep) == Split(a, sep)[..|Split(a, sep)| - 1] + Split(b, sep)
    decreases |a|
  {
    var c, t := a[0], a[1..];
    assert a == [c] + t;
    assert a + b == [c] + (t + b);
    SplitCons(c, t, sep);
    SplitCons(c, t + b, sep);
    if t == [] {
      assert t + b == b;
    } else {
      SplitAppend(t, b, sep);
      var ta := Split(t, sep);
      if c == sep {
        InitConsEmpty(ta, Split(b, sep));
      } else {
        InitConsPiece(c, ta, Split(b, sep));
      }
    }
  }

  // ---------------------------------------------------------------------
  // Filter distributes over concatenation.

  lemma {:induction false} FilterAppend(xs: seq<string>, ys: seq<string>, prefix: string)
    ensures Filter(xs + ys, prefix) == Filter(xs, prefix) + Filter(ys, prefix)
    decreases |xs|
  {
    if xs != [] {
      assert (xs + ys)[0] == xs[0];
      assert (xs + ys)[1..] == xs[1..] + ys;
      FilterAppend(xs[1..], ys, prefix);
    } else {
      assert xs + ys == ys;
    }
  }

  /**
   * The last element kept by `Filter` is the element at the highest index that
   * satisfies the predicate.
   */
  lemma {:induction false} FilterLast(xs: seq<string>, prefix: string, j: nat)
    requires j < |xs| && StartsWith(xs[j], prefix)
    requires forall k :: j < k < |xs| ==> !StartsWith(xs[k], prefix)
    ensures Filter(xs, prefix) != []
    ensures Filter(xs, prefix)[|Filter(xs, prefix)| - 1] == xs[j]
  {
    assert xs == xs[..j] + [xs[j]] + xs[j + 1..];
    FilterAppend(xs[..j] + [xs[j]], xs[j + 1..], prefix);
    FilterAppend(xs[..j], [xs[j]], prefix);
    FilterNone(xs[j + 1..], prefix);
    assert [xs[j]][1..] == [];
  }

  lemma {:induction false} FilterNone(xs: seq<string>, prefix: string)
    requires forall k :: 0 <= k < |xs| ==> !StartsWith(xs[k], prefix)
    ensures Filter(xs, prefix) == []
    decreases |xs|
  {
    if xs != [] {
      FilterNone(xs[1..], prefix);
    }
  }

  // ---------------------------------------------------------------------
  // Tokens.

  /** The word at the start of `s` is determined by its end position. */
  lemma WordEndAt(s: string, n: nat)
    requires n <= |s|
    requires forall i :: 0 <= i < n ==> !IsBlank(s[i])
    requires n < |s| ==> IsBlank(s[n])
    ensures WordEnd(s) == n
  {
  }

  /** Text followed by text that starts with a blank tokenises piecewise. */
  lemma {:induction false} TokensAppend(a: string, b: string)
    requires b == [] || IsBlank(b[0])
    ensures Tokens(a + b) == Tokens(a) + Tokens(b)
    decreases |a|
  {
    if a == [] {
      assert a + b == b;
    } else {
      var s := a + b;
      assert s[0] == a[0];
      if IsBlank(a[0]) {
        assert s[1..] == a[1..] + b;
        TokensAppend(a[1..], b);
      } else {
        var n := WordEnd(a);
        WordEndAt(s, n);
        assert s[..n] == a[..n];
        assert s[n..] == a[n..] + b;
        TokensAppend(a[n..], b);
      }
    }
  }

  /** Blanks in front of a text separate nothing. */
  lemma {:induction false} BlanksDropped(b: string, s: string)
    requires AllBlank(b)
    ensures Tokens(b + s) == Tokens(s)
    decreases |b|
  {
    if b != [] {
      assert (b + s)[0] == b[0];
      assert (b + s)[1..] == b[1..] + s;
      BlanksDropped(b[1..], s);
    } else {
      assert b + s == s;
    }
  }

  /** A single word tokenises to itself. */
  lemma TokensOfWord(w: string)
    requires IsWord(w)
    ensures Tokens(w) == [w]
  {
    WordEndAt(w, |w|);
    assert w[..|w|] == w;
    assert w[|w|..] == [];
  }

  /** `Unwords` and `Tokens` are inverse on lists of words. */
  lemma TokensUnwords(ws: seq<string>)
    requires forall i :: 0 <= i < |ws| ==> IsWord(ws[i])
    ensures Tokens(Unwords(ws)) == ws
  {
    UnwordsPadded(ws);
    TokensPadded(ws, seq(|ws|, _ => " ") + [[]]);
  }

  /** Words laid out between any blank runs tokenise back to the words. */
  lemma {:induction false} TokensPadded(ws: seq<string>, gaps: seq<string>)
    requires forall i :: 0 <= i < |ws| ==> IsWord(ws[i])
    requires Separates(gaps, |ws|)
    ensures Tokens(Padded(ws, gaps)) == ws
    decreases |ws|
  {
    if ws == [] {
      BlanksDropped(gaps[0], []);
      assert gaps[0] + [] == gaps[0];
    } else {
      var rest := Padded(ws[1..], gaps[1..]);
      assert Padded(ws, gaps) == gaps[0] + (ws[0] + rest);
      BlanksDropped(gaps[0], ws[0] + rest);
      if |ws| > 1 {
        assert rest == gaps[1] + ws[1] + Padded(ws[2..], gaps[2..]);
        assert rest[0] == gaps[1][0];
      }
      assert rest == [] || IsBlank(rest[0]);
      TokensAppend(ws[0], rest);
      TokensOfWord(ws[0]);
      TokensPadded(ws[1..], gaps[1..]);
      assert [ws[0]] + ws[1..] == ws;
    }
  }

  /** Moving a blank into the leading run. */
  lemma PaddedCons(ws: seq<string>, gaps: seq<string>, c: char)
    requires |gaps| == |ws| + 1
    ensures Padded(ws, [[c] + gaps[0]] + gaps[1..]) == [c] + Padded(ws, gaps)
  {
    var moved := [[c] + gaps[0]] + gaps[1..];
    if ws == [] {
      assert moved[0] == [c] + gaps[0];
    } else {
      var tail := Padded(ws[1..], gaps[1..]);
      assert Padded(ws, moved) == ([c] + gaps[0]) + ws[0] + tail by {
        assert moved[0] == [c] + gaps[0];
        assert moved[1..] == gaps[1..];
      }
      assert ([c] + gaps[0]) + ws[0] + tail == [c] + (gaps[0] + ws[0] + tail) by {
        ConsAssociates(c, gaps[0], ws[0], tail);
      }
    }
  }

  lemma ConsAssociates(c: char, a: string, b: string, t: string)
    ensures ([c] + a) + b + t == [c] + (a + b + t)
  {
  }

  /** One more word in front, with an empty leading run. */
  lemma PaddedWord(w: string, ws: seq<string>, gaps: seq<string>)
    requires |gaps| == |ws| + 1
    ensures Padded([w] + ws, [[]] + gaps) == w + Padded(ws, gaps)
  {
    assert ([w] + ws)[1..] == ws;
    assert ([[]] + gaps)[1..] == gaps;
    assert [] + w == w;
  }

  /** A blank moved into the leading run keeps the runs separating. */
  lemma SeparatesCons(gaps: seq<string>, n: nat, c: char)
    requires Separates(gaps, n) && IsBlank(c)
    ensures Separates([[c] + gaps[0]] + gaps[1..], n)
  {
    var moved := [[c] + gaps[0]] + gaps[1..];
    assert AllBlank(moved[0]);
    assert forall k :: 0 < k < |moved| ==> moved[k] == gaps[k];
  }

  /** A word in front of runs that start with a blank, or of no word. */
  lemma SeparatesWord(gaps: seq<string>, n: nat)
    requires Separates(gaps, n) && (n == 0 || gaps[0] != [])
    ensures Separates([[]] + gaps, n + 1)
  {
    var more := [[]] + gaps;
    assert forall k :: 0 < k < |more| ==> more[k] == gaps[k - 1];
  }

  /**
   * Every text is its tokens laid out between its blank runs: so the tokens are
   * the maximal non-blank runs of the text, in order.
   */
  lemma {:induction false} PaddedTokens(s: string)
    ensures Separates(Gaps(s), |Tokens(s)|)
    ensures Padded(Tokens(s), Gaps(s)) == s
    decreases |s|
  {
    if s != [] {
      if IsBlank(s[0]) {
        var t := s[1..];
        var ws, gaps := Tokens(t), Gaps(t);
        assert Separates(gaps, |ws|) && Padded(ws, gaps) == t by {
          PaddedTokens(t);
        }
        assert Tokens(s) == ws;
        assert Gaps(s) == [[s[0]] + gaps[0]] + gaps[1..];
        PaddedCons(ws, gaps, s[0]);
        SeparatesCons(gaps, |ws|, s[0]);
        assert [s[0]] + t == s;
      } else {
        var n := WordEnd(s);
        var t := s[n..];
        var ws, gaps := Tokens(t), Gaps(t);
        assert Separates(gaps, |ws|) && Padded(ws, gaps) == t by {
          PaddedTokens(t);
        }
        assert Tokens(s) == [s[..n]] + ws;
        assert Gaps(s) == [[]] + gaps;
        PaddedWord(s[..n], ws, gaps);
        assert s[..n] + t == s;
        if ws != [] {
          assert t != [] && IsBlank(t[0]);
          assert gaps[0] == [t[0]] + Gaps(t[1..])[0];
        }
        SeparatesWord(gaps, |ws|);
      }
    }
  }

  /** `Unwords` lays its words out between single spaces. */
  lemma {:induction false} UnwordsPadded(ws: seq<string>)
    ensures Separates(seq(|ws|, _ => " ") + [[]], |ws|)
    ensures Unwords(ws) == Padded(ws, seq(|ws|, _ => " ") + [[]])
    decreases |ws|
  {
    var gaps := seq(|ws|, _ => " ") + [[]];
    if ws != [] {
      UnwordsPadded(ws[1..]);
      assert gaps[1..] == seq(|ws| - 1, _ => " ") + [[]];
    }
  }
}
