/** The text side of the cache keys: `_WHITESPACE_RE.sub(" ", sql).strip()`. */
module SqlText {

  /** The characters Python's `\s` and `str.strip()` treat as white space. */
  predicate Space(c: char) {
    || '\t' <= c <= '\r' || '\U{1c}' <= c <= ' ' || c == '\U{85}' || c == '\U{a0}' || c == '\U{1680}'
    || '\U{2000}' <= c <= '\U{200a}' || c == '\U{2028}' || c == '\U{2029}' || c == '\U{202f}'
    || c == '\U{205f}' || c == '\U{3000}'
  }

  /** The substitution: each maximal run of white space becomes one blank. `inRun` says whether the
      character before `s` was white space. */
  function Squeezed(s: string, inRun: bool): string {
    if s == "" then ""
    else if !Space(s[0]) then [s[0]] + Squeezed(s[1..], false)
    else if inRun then Squeezed(s[1..], true)
    else " " + Squeezed(s[1..], true)
  }

  function LStrip(s: string): string { if s != "" && Space(s[0]) then LStrip(s[1..]) else s }

  function RStrip(s: string): string { if s != "" && Space(s[|s| - 1]) then RStrip(s[..|s| - 1]) else s }

  function Collapsed(s: string): string { RStrip(LStrip(Squeezed(s, false))) }

  /** A word has characters, none of them white space. */
  predicate IsWord(w: string) { w != "" && forall i :: 0 <= i < |w| ==> !Space(w[i]) }

  /** The words of a text: its maximal runs of characters that are not white space. */
  function Words(s: string): (ws: seq<string>)
    ensures s != "" && !Space(s[0]) ==> ws != []
    ensures forall i :: 0 <= i < |ws| ==> IsWord(ws[i])
  {
    if s == "" then []
    else
      var rest := Words(s[1..]);
      if Space(s[0]) then rest
      else if |s| == 1 || Space(s[1]) then [[s[0]]] + rest
      else [[s[0]] + rest[0]] + rest[1..]
  }

  /** What stands behind a word: nothing, or a blank and more words. */
  function Behind(ws: seq<string>): string {
    if ws == [] then "" else " " + ws[0] + Behind(ws[1..])
  }

  function Joined(ws: seq<string>): string {
    if ws == [] then "" else ws[0] + Behind(ws[1..])
  }

  lemma {:induction false} RStripCons(c: char, s: string)
    ensures RStrip([c] + s) == if Space(c) && RStrip(s) == "" then "" else [c] + RStrip(s)
    decreases |s|
  {
    var t := [c] + s;
    if s == "" {
      assert t[..0] == "";
    } else {
      assert t[|t| - 1] == s[|s| - 1] && t[..|t| - 1] == [c] + s[..|s| - 1];
      if Space(s[|s| - 1]) {
        RStripCons(c, s[..|s| - 1]);
      }
    }
  }

  /** Squeezed and stripped on the right, a text is its words, one blank before each but the first;
      a leading blank stays when the text begins with white space and is not behind any. */
  lemma {:induction false} SqueezedWords(s: string, inRun: bool)
    ensures RStrip(Squeezed(s, inRun))
            == if inRun || s == "" || !Space(s[0]) then Joined(Words(s)) else Behind(Words(s))
  {
    if s != "" {
      var blank := Space(s[0]);
      SqueezedWords(s[1..], blank);
      RStripCons(if blank then ' ' else s[0], Squeezed(s[1..], blank));
      if !blank && |s| > 1 && !Space(s[1]) {
        assert [s[0]] + (Words(s[1..])[0] + Behind(Words(s[1..])[1..]))
            == ([s[0]] + Words(s[1..])[0]) + Behind(Words(s[1..])[1..]);
      } else if blank && !inRun && Words(s[1..]) != [] {
        var ws := Words(s[1..]);
        assert IsWord(ws[0]);
        assert " " + (ws[0] + Behind(ws[1..])) == " " + ws[0] + Behind(ws[1..]);
      }
    }
  }

  lemma {:induction false} SqueezedFront(s: string)
    ensures Squeezed(s, true) != "" ==> !Space(Squeezed(s, true)[0])
  {
    if s != "" && Space(s[0]) {
      SqueezedFront(s[1..]);
    }
  }

  lemma CollapsedIsWords(s: string)
    ensures Collapsed(s) == Joined(Words(s))
  {
    var inRun := s != "" && Space(s[0]);
    SqueezedFront(s);
    SqueezedWords(s, inRun);
    if inRun {
      assert LStrip(Squeezed(s, false)) == LStrip(Squeezed(s[1..], true)) == Squeezed(s, true);
    }
  }

  lemma {:induction false} WordsOfWord(w: string, t: string)
    requires IsWord(w) && (t == "" || Space(t[0]))
    ensures Words(w + t) == [w] + Words(t)
  {
    assert w == [w[0]] + w[1..];
    assert (w + t)[1..] == w[1..] + t;
    if |w| > 1 {
      assert (w + t)[1] == w[1];
      assert IsWord(w[1..]);
      WordsOfWord(w[1..], t);
    } else {
      assert w[1..] + t == t && w == [w[0]];
      assert t != "" ==> (w + t)[1] == t[0];
    }
  }

  lemma WordsOfBlank(t: string)
    ensures Words(" " + t) == Words(t)
  {
    assert (" " + t)[1..] == t;
  }

  lemma NoWords()
    ensures Words("") == []
  {
  }

  lemma {:induction false} WordsOfBehind(ws: seq<string>)
    requires forall i :: 0 <= i < |ws| ==> IsWord(ws[i])
    ensures Words(Behind(ws)) == ws && (ws != [] ==> Space(Behind(ws)[0]))
  {
    hide Words;
    if ws == [] {
      NoWords();
    } else {
      WordsOfBehind(ws[1..]);
      WordsOfWord(ws[0], Behind(ws[1..]));
      WordsOfBlank(ws[0] + Behind(ws[1..]));
      assert Behind(ws) == " " + (ws[0] + Behind(ws[1..]));
    }
  }

  lemma WordsOfJoined(ws: seq<string>)
    requires forall i :: 0 <= i < |ws| ==> IsWord(ws[i])
    ensures Words(Joined(ws)) == ws
  {
    if ws != [] {
      WordsOfBehind(ws[1..]);
      WordsOfWord(ws[0], Behind(ws[1..]));
    }
  }

  /** Two statements share a key exactly when they have the same words. */
  lemma SameKeyIffSameWords(a: string, b: string)
    ensures Collapsed(a) == Collapsed(b) <==> Words(a) == Words(b)
  {
    CollapsedIsWords(a);
    CollapsedIsWords(b);
    WordsOfJoined(Words(a));
    WordsOfJoined(Words(b));
  }

  /** White space inside a string literal is collapsed too, so two statements asking for different
      values can share a key. */
  lemma LiteralsCanShareAKey()
    ensures "N'a  b'" != "N'a b'" && Collapsed("N'a  b'") == Collapsed("N'a b'")
  {
    var a, b := "N'a  b'", "N'a b'";
    assert Squeezed("  b'", false) == " b'" == Squeezed(" b'", false);
    assert a[3..] == "  b'" && b[3..] == " b'";
    assert Squeezed(a, false) == Squeezed(b, false);
  }
}
