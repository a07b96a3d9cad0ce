// The one-line lists of the config: words separated by commas, spaces or both.

module Words {
  import opened Text

  predicate IsSep(c: char) { c == ',' || IsSpace(c) || c == '\n' }

  function WordEnd(s: string): (n: nat)
    ensures n <= |s| && (n < |s| ==> IsSep(s[n])) && forall i | 0 <= i < n :: !IsSep(s[i])
  {
    if s == "" || IsSep(s[0]) then 0 else WordEnd(s[1..]) + 1
  }

  // The words of a text, however they are separated.
  function WordsOf(s: string): seq<string>
    decreases |s|
  {
    if s == "" then []
    else if IsSep(s[0]) then WordsOf(s[1..])
    else [s[..WordEnd(s)]] + WordsOf(s[WordEnd(s)..])
  }

  function CommaJoin(words: seq<string>): string {
    if words == [] then "" else if |words| == 1 then words[0] else words[0] + ", " + CommaJoin(words[1..])
  }

  // A word the format can hold: no separator in it, no comment mark in front.
  predicate Word(w: string) { w != "" && !IsMark(w[0]) && forall i | 0 <= i < |w| :: !IsSep(w[i]) }

  predicate AllWords(words: seq<string>) { forall i | 0 <= i < |words| :: Word(words[i]) }

  lemma {:induction false} WordEndAt(w: string, rest: string)
    requires (forall i | 0 <= i < |w| :: !IsSep(w[i])) && (rest == "" || IsSep(rest[0]))
    ensures WordEnd(w + rest) == |w|
  {
    if w == "" {
      assert w + rest == rest;
    } else {
      assert (w + rest)[1..] == w[1..] + rest;
      WordEndAt(w[1..], rest);
    }
  }

  lemma FirstWord(w: string, rest: string)
    requires Word(w) && (rest == "" || IsSep(rest[0]))
    ensures WordsOf(w + rest) == [w] + WordsOf(rest)
  {
    WordEndAt(w, rest);
    assert (w + rest)[..|w|] == w && (w + rest)[|w|..] == rest;
  }

  // Joined with ", " and split again, a list of words is the same list; and joined it is a
  // text the format can hold.
  lemma {:induction false} JoinedWords(words: seq<string>)
    requires AllWords(words)
    ensures WordsOf(CommaJoin(words)) == words
    ensures Clean(CommaJoin(words)) && (words != [] ==> CommaJoin(words) != "" && CommaJoin(words)[0] == words[0][0])
  {
    if |words| == 1 {
      assert words[0] + "" == words[0];
      FirstWord(words[0], "");
      WordIsClean(words[0]);
    } else if words != [] {
      var rest := CommaJoin(words[1..]);
      JoinedWords(words[1..]);
      FirstWord(words[0], ", " + rest);
      SkipComma(rest);
      assert words[0] + ", " + rest == words[0] + (", " + rest);
      WordIsClean(words[0]);
      assert words == [words[0]] + words[1..];
      CleanJoin(words[0], ", ", rest);
    }
  }

  lemma SkipComma(rest: string)
    ensures WordsOf(", " + rest) == WordsOf(rest)
  {
    var s := ", " + rest;
    assert s[1..] == " " + rest && (" " + rest)[1..] == rest;
  }

  lemma WordIsClean(w: string)
    requires Word(w)
    ensures Clean(w)
  {
    forall i: nat | i < |w| ensures !StartsNote(w, i) {
      if i > 0 { assert !IsSep(w[i - 1]); }
    }
    assert !IsSep(w[0]) && !IsSep(w[|w| - 1]);
  }

  // Two clean texts with a gap that holds no mark between them.
  lemma CleanJoin(a: string, gap: string, b: string)
    requires Clean(a) && Clean(b) && a != "" && b != "" && OneLine(gap) && gap != ""
    requires forall i | 0 <= i < |gap| :: !IsMark(gap[i])
    ensures Clean(a + gap + b)
  {
    var t := a + gap + b;
    assert t[0] == a[0] && t[|t| - 1] == b[|b| - 1];
    forall i: nat | i < |t| ensures !StartsNote(t, i) {
      if i < |a| {
        assert !StartsNote(a, i);
        assert t[i] == a[i] && (i > 0 ==> t[i - 1] == a[i - 1]);
      } else if i < |a| + |gap| {
        assert t[i] == gap[i - |a|];
      } else {
        var j := i - |a| - |gap|;
        assert t[i] == b[j];
        assert !StartsNote(b, 0) && !StartsNote(b, j);
        if j > 0 { assert t[i - 1] == b[j - 1]; }
      }
    }
  }

  // One more word on a line of its own.
  lemma {:induction false} WordAdded(s: string, w: string)
    requires Word(w)
    ensures WordsOf(s + "\n" + w) == WordsOf(s) + [w]
    decreases |s|
  {
    var t := s + "\n" + w;
    if s == "" {
      assert t[1..] == w && w + "" == w;
      FirstWord(w, "");
    } else if IsSep(s[0]) {
      assert t[1..] == s[1..] + "\n" + w;
      WordAdded(s[1..], w);
    } else {
      var n := WordEnd(s);
      var rest := s[n..] + "\n" + w;
      WordEndAt(s[..n], rest);
      assert s[..n] + rest == t && t[..n] == s[..n] && t[n..] == rest;
      WordAdded(s[n..], w);
    }
  }
}
