// The two Python string operations the authorization header parser relies on:
// `str.split()` with no argument (split on runs of whitespace, dropping empty
// pieces) and `str.lower()`.

module PyStr {

  /** Python's `str.isspace()` for one character: the C0 separators
      U+0009..U+000D and U+001C..U+001F, the space, and the Unicode
      whitespace characters U+0085, U+00A0, U+1680, U+2000..U+200A,
      U+2028, U+2029, U+202F, U+205F and U+3000. */
  predicate IsSpace(c: char) {
    var n := c as int;
    (9 <= n <= 13) || (28 <= n <= 32) || n == 0x85 || n == 0xA0 || n == 0x1680
    || (0x2000 <= n <= 0x200A) || n == 0x2028 || n == 0x2029 || n == 0x202F
    || n == 0x205F || n == 0x3000
  }

  predicate AllSpace(s: string) {
    forall i :: 0 <= i < |s| ==> IsSpace(s[i])
  }

  /** A piece that `str.split()` can return: non-empty, no whitespace. */
  predicate IsWord(w: string) {
    |w| > 0 && forall i :: 0 <= i < |w| ==> !IsSpace(w[i])
  }

  /** Length of the longest whitespace-free prefix of `s`. */
  function WordLength(s: string): (n: nat)
    ensures n <= |s|
    ensures forall i :: 0 <= i < n ==> !IsSpace(s[i])
    ensures n == |s| || IsSpace(s[n])
  {
    if s == [] || IsSpace(s[0]) then 0 else 1 + WordLength(s[1..])
  }

  /** `s.split()`: the maximal whitespace-free runs of `s`, in order. */
  function Words(s: string): (ws: seq<string>)
    ensures ws == [] <==> AllSpace(s)
    decreases |s|
  {
    if s == [] then []
    else if IsSpace(s[0]) then
      assert AllSpace(s) <==> AllSpace(s[1..]) by {
        assert forall i :: 0 < i < |s| ==> s[i] == s[1..][i - 1];
      }
      Words(s[1..])
    else
      var n := WordLength(s);
      [s[..n]] + Words(s[n..])
  }

  /** Every piece of the split is a word. */
  lemma {:induction false} WordsAreWords(s: string)
    ensures forall i :: 0 <= i < |Words(s)| ==> IsWord(Words(s)[i])
    decreases |s|
  {
    if s == [] {
    } else if IsSpace(s[0]) {
      WordsAreWords(s[1..]);
    } else {
      var n := WordLength(s);
      WordsAreWords(s[n..]);
      assert IsWord(s[..n]);
      assert Words(s) == [s[..n]] + Words(s[n..]);
    }
  }

  /** Python's `str.lower()` on ASCII letters; every other character is kept.
      Python also lowers U+212A KELVIN SIGN to "k" and U+0130 to "i" followed
      by U+0307; neither result can equal a lower-case word without "i" or
      "k", such as "bearer", so for that comparison the two agree. */
  function LowerChar(c: char): char {
    if 'A' <= c <= 'Z' then (c as int + 32) as char else c
  }

  function Lower(s: string): string {
    seq(|s|, i requires 0 <= i < |s| => LowerChar(s[i]))
  }

  /** The header scheme test: `w.lower() == "bearer"` holds exactly for the
      64 upper/lower-case spellings of "Bearer". */
  lemma LowerIsBearer(w: string)
    ensures Lower(w) == "bearer" <==>
      |w| == 6 && forall i :: 0 <= i < 6 ==> w[i] == "bearer"[i] || w[i] == "BEARER"[i]
  {
    if |w| == 6 && forall i :: 0 <= i < 6 ==> w[i] == "bearer"[i] || w[i] == "BEARER"[i] {
      assert forall i :: 0 <= i < 6 ==> Lower(w)[i] == "bearer"[i];
    }
  }

  // ---------------------------------------------------------------------
  // A string laid out as words separated by whitespace, and the round trip
  // `Words(Layout(ws, gaps)) == ws`.

  /** `gaps[0] + ws[0] + gaps[1] + ws[1] + ... + ws[n-1] + gaps[n]`. */
  function Layout(ws: seq<string>, gaps: seq<string>): string
    requires |gaps| == |ws| + 1
  {
    if ws == [] then gaps[0] else gaps[0] + ws[0] + Layout(ws[1..], gaps[1..])
  }

  /** `gaps` are whitespace, the inner ones non-empty, and every `ws[i]` is a word. */
  predicate Separates(ws: seq<string>, gaps: seq<string>) {
    && |gaps| == |ws| + 1
    && (forall i :: 0 <= i < |gaps| ==> AllSpace(gaps[i]))
    && (forall i :: 0 < i < |ws| ==> gaps[i] != [])
    && (forall i :: 0 <= i < |ws| ==> IsWord(ws[i]))
  }

  /** Leading whitespace does not change the split. */
  lemma {:induction false} WordsSkipSpace(g: string, s: string)
    requires AllSpace(g)
    ensures Words(g + s) == Words(s)
    decreases |g|
  {
    if g != [] {
      assert (g + s)[0] == g[0] && (g + s)[1..] == g[1..] + s;
      assert AllSpace(g[1..]) by {
        assert forall i :: 0 <= i < |g| - 1 ==> g[1..][i] == g[i + 1];
      }
      WordsSkipSpace(g[1..], s);
      assert IsSpace(g[0]);
    } else {
      assert g + s == s;
    }
  }

  /** A word followed by whitespace or the end of the string is split off whole. */
  lemma WordsWordThen(w: string, s: string)
    requires IsWord(w)
    requires s == [] || IsSpace(s[0])
    ensures Words(w + s) == [w] + Words(s)
  {
    var t := w + s;
    var n := WordLength(t);
    assert forall i :: 0 <= i < |w| ==> t[i] == w[i];
    assert s != [] ==> t[|w|] == s[0];
    assert n == |w|;
    assert t[..n] == w && t[n..] == s;
  }

  lemma {:induction false} WordsOfLayout(ws: seq<string>, gaps: seq<string>)
    requires Separates(ws, gaps)
    ensures Words(Layout(ws, gaps)) == ws
    decreases |ws|
  {
    if ws != [] {
      var rest := Layout(ws[1..], gaps[1..]);
      SeparatesTail(ws, gaps);
      WordsOfLayout(ws[1..], gaps[1..]);
      LayoutCons(ws, gaps);
      assert Layout(ws, gaps) == gaps[0] + (ws[0] + rest);
      WordsSkipSpace(gaps[0], ws[0] + rest);
      WordsWordThen(ws[0], rest);
      assert [ws[0]] + ws[1..] == ws;
    } else {
      WordsSkipSpace(gaps[0], []);
    }
  }

  /** The tail of a layout is a layout that starts with whitespace or is empty. */
  lemma SeparatesTail(ws: seq<string>, gaps: seq<string>)
    requires Separates(ws, gaps) && ws != []
    ensures IsWord(ws[0]) && AllSpace(gaps[0]) && Separates(ws[1..], gaps[1..])
    ensures var rest := Layout(ws[1..], gaps[1..]); rest == [] || IsSpace(rest[0])
  {
    assert forall i :: 0 <= i < |gaps| - 1 ==> gaps[1..][i] == gaps[i + 1];
    assert forall i :: 0 <= i < |ws| - 1 ==> ws[1..][i] == ws[i + 1];
    if |ws| > 1 {
      assert gaps[1] != [] && IsSpace(gaps[1][0]);
      LayoutCons(ws[1..], gaps[1..]);
    }
  }

  /** The whitespace around and between the words of `s`, so that `s` is
      `Layout(Words(s), Gaps(s))`. */
  function Gaps(s: string): (gs: seq<string>)
    ensures |gs| == |Words(s)| + 1
    ensures s != [] && IsSpace(s[0]) ==> gs[0] != []
    decreases |s|
  {
    if s == [] then [[]]
    else if IsSpace(s[0]) then
      var g := Gaps(s[1..]);
      [[s[0]] + g[0]] + g[1..]
    else
      [[]] + Gaps(s[WordLength(s)..])
  }

  /** Every string is its own words laid out with its own whitespace: together
      with WordsOfLayout, `Words` is exactly the inverse of `Layout`. */
  lemma {:induction false} SplitLayout(s: string)
    ensures Separates(Words(s), Gaps(s))
    ensures Layout(Words(s), Gaps(s)) == s
    decreases |s|
  {
    if s == [] {
    } else if IsSpace(s[0]) {
      SplitLayout(s[1..]);
      var ws, g := Words(s[1..]), Gaps(s[1..]);
      assert Words(s) == ws && Gaps(s) == [[s[0]] + g[0]] + g[1..];
      SeparatesSpace(s[0], ws, g);
      LayoutPrepend(s[0], ws, g);
      assert s == [s[0]] + s[1..];
    } else {
      var n := WordLength(s);
      SplitLayout(s[n..]);
      WordStep(s);
      LayoutOfWordStep(s, n, Words(s[n..]), Gaps(s[n..]), Words(s), Gaps(s));
    }
  }

  lemma LayoutOfWordStep(s: string, n: nat, ws: seq<string>, g: seq<string>,
                         ws': seq<string>, g': seq<string>)
    requires n <= |s| && IsWord(s[..n])
    requires Separates(ws, g) && Layout(ws, g) == s[n..] && (ws != [] ==> g[0] != [])
    requires ws' == [s[..n]] + ws && g' == [[]] + g
    ensures Separates(ws', g') && Layout(ws', g') == s
  {
    SeparatesWord(s[..n], ws, g);
    assert s == s[..n] + s[n..];
  }

  /** One unfolding of `Words` and `Gaps` at a word. */
  lemma WordStep(s: string)
    requires s != [] && !IsSpace(s[0])
    ensures var n := WordLength(s);
      && IsWord(s[..n])
      && Words(s) == [s[..n]] + Words(s[n..]) && Gaps(s) == [[]] + Gaps(s[n..])
      && (Words(s[n..]) != [] ==> Gaps(s[n..])[0] != [])
  {
  }

  /** `Layout` of a non-empty word list, one step unfolded. */
  lemma LayoutCons(ws: seq<string>, gaps: seq<string>)
    requires |gaps| == |ws| + 1 && ws != []
    ensures Layout(ws, gaps) == gaps[0] + ws[0] + Layout(ws[1..], gaps[1..])
  {
  }

  /** Prepending a character to the first gap prepends it to the layout. */
  lemma LayoutPrepend(c: char, ws: seq<string>, g: seq<string>)
    requires |g| == |ws| + 1
    ensures Layout(ws, [[c] + g[0]] + g[1..]) == [c] + Layout(ws, g)
  {
    var gs := [[c] + g[0]] + g[1..];
    if ws != [] {
      assert gs[1..] == g[1..];
      LayoutCons(ws, gs);
      LayoutCons(ws, g);
    }
  }

  /** A whitespace character in front of a layout joins its first gap. */
  lemma SeparatesSpace(c: char, ws: seq<string>, g: seq<string>)
    requires IsSpace(c) && Separates(ws, g)
    ensures Separates(ws, [[c] + g[0]] + g[1..])
  {
    var gs := [[c] + g[0]] + g[1..];
    assert AllSpace(gs[0]) by {
      assert forall i :: 1 <= i < |gs[0]| ==> gs[0][i] == g[0][i - 1];
    }
    assert forall i :: 1 <= i < |gs| ==> gs[i] == g[i];
  }

  /** A word in front of a layout that starts with whitespace (or is empty)
      becomes its first word, behind an empty gap. */
  lemma SeparatesWord(w: string, ws: seq<string>, g: seq<string>)
    requires IsWord(w) && Separates(ws, g) && (ws != [] ==> g[0] != [])
    ensures Separates([w] + ws, [[]] + g)
    ensures Layout([w] + ws, [[]] + g) == w + Layout(ws, g)
  {
    var gs := [[]] + g;
    assert forall i :: 1 <= i < |gs| ==> gs[i] == g[i - 1];
    assert forall i :: 1 <= i < |ws| + 1 ==> ([w] + ws)[i] == ws[i - 1];
    LayoutCons([w] + ws, gs);
    assert ([w] + ws)[1..] == ws && gs[1..] == g;
  }
}
