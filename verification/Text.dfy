// Line-level text operations shared by the config document and the profile headers:
// trimming, inline comments and line splitting, with space and tab as whitespace and
// newline as the only line break.

module Text {
  datatype Option<+T> = None | Some(value: T)

  predicate IsSpace(c: char) { c == ' ' || c == '\t' }

  predicate IsMark(c: char) { c == '#' || c == ';' }

  function LStrip(s: string): string {
    if s != "" && IsSpace(s[0]) then LStrip(s[1..]) else s
  }

  function RStrip(s: string): (r: string)
    ensures |r| <= |s|
  {
    if s != "" && IsSpace(s[|s| - 1]) then RStrip(s[..|s| - 1]) else s
  }

  function Strip(s: string): string { RStrip(LStrip(s)) }

  predicate AllSpace(s: string) { forall i | 0 <= i < |s| :: IsSpace(s[i]) }

  predicate Trimmed(s: string) {
    s != "" ==> !IsSpace(s[0]) && !IsSpace(s[|s| - 1])
  }

  predicate OneLine(s: string) { '\n' !in s }

  lemma {:induction false} LStripShape(s: string)
    ensures LStrip(s) == "" <==> AllSpace(s)
    ensures LStrip(s) != "" ==> !IsSpace(LStrip(s)[0])
    ensures |LStrip(s)| <= |s| && LStrip(s) == s[|s| - |LStrip(s)|..]
    ensures AllSpace(s[..|s| - |LStrip(s)|])
  {
    if s != "" && IsSpace(s[0]) {
      LStripShape(s[1..]);
      assert s == [s[0]] + s[1..];
      var cut := |s| - |LStrip(s)|;
      assert s[..cut] == [s[0]] + s[1..][..cut - 1];
      assert AllSpace(s) <==> AllSpace(s[1..]);
    }
  }

  lemma {:induction false} RStripShape(s: string)
    ensures RStrip(s) == "" <==> AllSpace(s)
    ensures RStrip(s) != "" ==> !IsSpace(RStrip(s)[|RStrip(s)| - 1])
    ensures |RStrip(s)| <= |s| && RStrip(s) == s[..|RStrip(s)|]
    ensures AllSpace(s[|RStrip(s)|..])
  {
    if s != "" && IsSpace(s[|s| - 1]) {
      var t := s[..|s| - 1];
      RStripShape(t);
      assert s == t + [s[|s| - 1]];
      assert s[|RStrip(s)|..] == t[|RStrip(s)|..] + [s[|s| - 1]];
      assert AllSpace(s) <==> AllSpace(t);
    }
  }

  lemma {:induction false} LStripPad(pad: string, s: string)
    requires AllSpace(pad)
    ensures LStrip(pad + s) == LStrip(s)
  {
    if pad == "" {
      assert pad + s == s;
    } else {
      assert (pad + s)[1..] == pad[1..] + s;
      LStripPad(pad[1..], s);
    }
  }

  lemma {:induction false} RStripPad(s: string, pad: string)
    requires AllSpace(pad)
    ensures RStrip(s + pad) == RStrip(s)
  {
    if pad == "" {
      assert s + pad == s;
    } else {
      assert (s + pad)[..|s + pad| - 1] == s + pad[..|pad| - 1];
      RStripPad(s, pad[..|pad| - 1]);
    }
  }

  // Trimming is idempotent, and padding around a trimmed text is exactly what it removes.
  lemma StripPadded(left: string, s: string, right: string)
    requires AllSpace(left) && AllSpace(right) && Trimmed(s)
    ensures Strip(left + s + right) == s
  {
    assert left + s + right == left + (s + right);
    LStripPad(left, s + right);
    if s == "" {
      assert s + right == right;
      LStripShape(right);
    } else {
      assert (s + right)[0] == s[0];
      RStripPad(s, right);
    }
  }

  lemma StripIsTrimmed(s: string)
    ensures Trimmed(Strip(s))
    ensures OneLine(s) ==> OneLine(Strip(s))
    ensures Trimmed(s) ==> Strip(s) == s
    ensures Strip(s) == "" <==> AllSpace(s)
  {
    hide LStrip, RStrip;
    var t := LStrip(s);
    LStripShape(s);
    RStripShape(t);
    var r := RStrip(t);
    if r != "" { assert r[0] == t[0]; }
    if OneLine(s) { assert OneLine(t) && OneLine(r); }
    if Trimmed(s) {
      StripPadded("", s, "");
      assert "" + s + "" == s;
    }
    if t != "" { assert !AllSpace(t); }
  }

  // str.strip, with the newline as one more space.
  predicate IsWhite(c: char) { IsSpace(c) || c == '\n' }

  function TrimLeft(s: string): string { if s != "" && IsWhite(s[0]) then TrimLeft(s[1..]) else s }

  function TrimRight(s: string): string {
    if s != "" && IsWhite(s[|s| - 1]) then TrimRight(s[..|s| - 1]) else s
  }

  function Trim(s: string): string { TrimRight(TrimLeft(s)) }

  // ----- inline comments -----

  // A comment mark opens the text or follows whitespace.
  predicate StartsNote(t: string, i: nat) {
    i < |t| && IsMark(t[i]) && (i == 0 || IsSpace(t[i - 1]))
  }

  function NoteAt(t: string, i: nat): (n: nat)
    requires i <= |t|
    ensures i <= n <= |t|
    ensures n < |t| ==> StartsNote(t, n)
    ensures forall j | i <= j < n :: !StartsNote(t, j)
    decreases |t| - i
  {
    if i == |t| then i else if StartsNote(t, i) then i else NoteAt(t, i + 1)
  }

  function StripNote(t: string): (r: string)
    ensures |r| <= |t|
  {
    RStrip(t[..NoteAt(t, 0)])
  }

  // A text the document format can hold on one line and give back unchanged.
  predicate Clean(t: string) {
    Trimmed(t) && OneLine(t) && forall i: nat | i < |t| :: !StartsNote(t, i)
  }

  // The clean texts are exactly the one-line texts the reader returns as they are.
  lemma CleanIffKept(t: string)
    requires OneLine(t)
    ensures Clean(t) <==> StripNote(Strip(t)) == t
  {
    if Clean(t) {
      StripIsTrimmed(t);
      assert NoteAt(t, 0) == |t|;
      assert t[..|t|] == t;
      RStripShape(t);
    }
    if StripNote(Strip(t)) == t {
      var u := Strip(t);
      StripIsTrimmed(t);
      RStripShape(u[..NoteAt(u, 0)]);
      LStripShape(t);
      RStripShape(LStrip(t));
      assert |t| <= |u| <= |t|;
      assert u == t;
      assert Trimmed(t);
      assert NoteAt(t, 0) == |t|;
    }
  }

  predicate IsNote(c: string) {
    c != "" && IsMark(c[0]) && Trimmed(c) && OneLine(c)
  }

  // A clean text followed by two spaces and a comment still reads as that text.
  lemma CleanBeforeNote(t: string, note: string)
    requires Clean(t) && t != "" && IsNote(note)
    ensures StripNote(t + "  " + note) == t
    ensures Trimmed(t + "  " + note)
  {
    var whole := t + "  " + note;
    var n := |t| + 2;
    forall j: nat | j < n ensures !StartsNote(whole, j) {
      if j < |t| {
        assert !StartsNote(t, j);
        assert whole[j] == t[j] && (j > 0 ==> whole[j - 1] == t[j - 1]);
      }
    }
    assert whole[n] == note[0] && whole[n - 1] == ' ';
    assert StartsNote(whole, n);
    assert NoteAt(whole, 0) == n;
    assert whole[..n] == t + "  ";
    RStripPad(t, "  ");
    RStripShape(t);
  }

  lemma NoteStripsToNothing(note: string)
    requires IsNote(note)
    ensures StripNote(note) == ""
  {
    assert StartsNote(note, 0);
    assert NoteAt(note, 0) == 0;
  }

  // What the text after a stripped body is: nothing, or a comment.
  lemma RestIsNote(body: string)
    requires OneLine(body)
    ensures StripNote(body) == body[..|StripNote(body)|]
    ensures var rest := Strip(body[|StripNote(body)|..]); rest == "" || IsNote(rest)
  {
    var n := NoteAt(body, 0);
    var head := body[..n];
    RStripShape(head);
    var r := StripNote(body);
    assert r == head[..|r|] == body[..|r|];
    NoteAfterGap(head[|r|..], body[n..]);
    assert body[|r|..] == head[|r|..] + body[n..];
  }

  lemma NoteAfterGap(gap: string, note: string)
    requires AllSpace(gap) && OneLine(note)
    requires note != "" ==> IsMark(note[0])
    ensures Strip(gap + note) == "" || IsNote(Strip(gap + note))
  {
    LStripPad(gap, note);
    assert LStrip(note) == note;
    RStripShape(note);
    var r := RStrip(note);
    assert OneLine(r);
    if r != "" { assert r[0] == note[0]; }
  }

  // ----- line splitting -----

  // str.splitlines over newline alone.
  function SplitLines(s: string): (parts: seq<string>)
    ensures forall i | 0 <= i < |parts| :: OneLine(parts[i])
    decreases |s|
  {
    if s == "" then []
    else if OneLine(s) then [s]
    else var n := LineBreak(s); [s[..n]] + SplitLines(s[n + 1..])
  }

  function LineBreak(s: string): (n: nat)
    requires !OneLine(s)
    ensures n < |s| && s[n] == '\n' && (forall j | 0 <= j < n :: s[j] != '\n')
    ensures OneLine(s[..n])
  {
    if s[0] == '\n' then 0 else LineBreak(s[1..]) + 1
  }

  function JoinLines(lines: seq<string>): string {
    if |lines| == 0 then "" else if |lines| == 1 then lines[0]
    else lines[0] + "\n" + JoinLines(lines[1..])
  }

  lemma SplitAtBreak(a: string, rest: string)
    requires OneLine(a)
    ensures SplitLines(a + "\n" + rest) == [a] + SplitLines(rest)
  {
    var s := a + "\n" + rest;
    assert s[|a|] == '\n';
    assert LineBreak(s) == |a| by {
      assert forall j | 0 <= j < |a| :: a[j] in a && s[j] == a[j];
    }
    assert s[..|a|] == a && s[|a| + 1..] == rest;
  }

  predicate OneLiners(lines: seq<string>) { forall i | 0 <= i < |lines| :: OneLine(lines[i]) }

  // A file written line by line with a final newline splits back into the same lines.
  lemma {:induction false} SplitJoinedNewline(lines: seq<string>)
    requires OneLiners(lines) && lines != []
    ensures SplitLines(JoinLines(lines) + "\n") == lines
  {
    if |lines| == 1 {
      SplitAtBreak(lines[0], "");
      assert lines[0] + "\n" + "" == JoinLines(lines) + "\n";
      assert lines == [lines[0]] + SplitLines("");
    } else {
      var rest := lines[1..];
      SplitJoinedNewline(rest);
      SplitAtBreak(lines[0], JoinLines(rest) + "\n");
      assert JoinLines(lines) + "\n" == lines[0] + "\n" + (JoinLines(rest) + "\n");
      assert lines == [lines[0]] + rest;
    }
  }

  lemma {:induction false} JoinEnding(lines: seq<string>, last: string)
    requires lines != []
    ensures JoinLines(lines + [last]) == JoinLines(lines) + "\n" + last
  {
    if |lines| == 1 {
      assert (lines + [last])[1..] == [last];
    } else {
      JoinEnding(lines[1..], last);
      assert (lines + [last])[1..] == lines[1..] + [last];
      assert lines[0] + "\n" + (JoinLines(lines[1..]) + "\n" + last) == JoinLines(lines) + "\n" + last;
    }
  }
}
