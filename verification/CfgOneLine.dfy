// The comment beside a one-line value, and whether a rewrite finds it again.

module CfgOneLine {
  import opened Text
  import opened CfgSyntax
  import opened CfgParse
  import opened CfgRender

  // Where an option's value starts: after the first ':' or '='.
  function ValueStart(line: string): (v: nat)
    requires EntryParts(line).Some?
    ensures 0 < v <= |line|
  {
    Find(line, {':', '='}, 0) + 1
  }

  // The comment on an option's line: from the first mark of its value that opens a comment.
  function NoteBeside(line: string): string
    requires EntryParts(line).Some?
  {
    NoteOf(line[ValueStart(line)..])
  }

  function NoteOf(value: string): string { Strip(value[NoteAt(value, 0)..]) }

  // Where the rewrite looks for the old comment: after the first ':', if there is one, and
  // after the first '=' that follows.
  function SearchStart(line: string): (n: nat)
    ensures n <= |line|
  {
    var colon := Find(line, {':'}, 0);
    var from := if colon == |line| then 0 else colon + 1;
    var equals := Find(line, {'='}, from);
    if equals == |line| then from else equals + 1
  }

  // Both separators stand before the comment, and no mark right after the last of them.
  predicate Found(line: string)
    requires EntryParts(line).Some?
  {
    var v, start := ValueStart(line), SearchStart(line);
    start <= v ||
    (start <= v + NoteAt(line[v..], 0) && !(start < |line| && IsMark(line[start])))
  }

  // Written out by which separator comes first: with ':' first, an '=' later in the line is
  // split at too; with '=' first, a ':' later in the line, and the next '=' after that.
  lemma FoundByCases(line: string)
    requires EntryParts(line).Some?
    ensures var colon, equals := Find(line, {':'}, 0), Find(line, {'='}, 0);
            && (colon < equals || equals < colon)
            && (colon < equals ==>
                  && ValueStart(line) == colon + 1
                  && SearchStart(line) == (if equals == |line| then colon + 1 else equals + 1))
            && (equals < colon ==>
                  && ValueStart(line) == equals + 1
                  && SearchStart(line) ==
                     (if colon == |line| then equals + 1
                      else
                        var next := Find(line, {'='}, colon + 1);
                        if next == |line| then colon + 1 else next + 1))
  {
    hide EntryParts;
    var colon, equals := Find(line, {':'}, 0), Find(line, {'='}, 0);
    FirstOfBoth(line);
    HasSeparator(line);
    if colon < equals { SameFind(line, {'='}, colon + 1, equals); }
  }

  lemma HasSeparator(line: string)
    requires EntryParts(line).Some?
    ensures Find(line, {':', '='}, 0) < |line|
  {
  }

  lemma SearchPast(line: string)
    requires EntryParts(line).Some?
    ensures var v, start := ValueStart(line), SearchStart(line);
            start >= v && (start > v ==> line[start - 1] in {':', '='})
  {
    hide EntryParts;
    FoundByCases(line);
  }

  lemma FirstOfBoth(line: string)
    ensures var colon, equals := Find(line, {':'}, 0), Find(line, {'='}, 0);
            && Find(line, {':', '='}, 0) == (if colon < equals then colon else equals)
            && (colon == equals ==> colon == |line|)
  {
    var colon, equals := Find(line, {':'}, 0), Find(line, {'='}, 0);
    SameFind(line, {':', '='}, 0, if colon < equals then colon else equals);
  }

  lemma SameFind(s: string, stops: set<char>, i: nat, n: nat)
    requires i <= n <= |s| && (n < |s| ==> s[n] in stops) && forall j | i <= j < n :: s[j] !in stops
    ensures Find(s, stops, i) == n
  {
  }

  lemma {:induction false} FindTail(s: string, stops: set<char>, i: nat, k: nat)
    requires i <= k && i + (k - i) <= |s|
    ensures Find(s[i..], stops, k - i) + i == Find(s, stops, k)
    decreases |s| - k
  {
    if k < |s| && s[k] !in stops { FindTail(s, stops, i, k + 1); }
  }

  lemma SearchSplits(line: string)
    ensures AfterFirst('=', AfterFirst(':', line)) == line[SearchStart(line)..]
  {
    var colon := Find(line, {':'}, 0);
    var from := if colon == |line| then 0 else colon + 1;
    assert AfterFirst(':', line) == line[from..];
    FindTail(line, {'='}, from, from);
  }

  // The comment of a text read as the rewrite reads it, with the text's own trimming undone.
  lemma NoteTail(body: string)
    ensures Strip(body[|StripNote(body)|..]) == NoteOf(body)
  {
    var n := NoteAt(body, 0);
    var kept := StripNote(body);
    RStripShape(body[..n]);
    var pad := body[|kept|..n];
    assert pad == body[..n][|kept|..];
    assert body[|kept|..] == pad + body[n..];
    LStripPad(pad, body[n..]);
  }

  lemma KeptIs(line: string)
    ensures KeptNote([line]) == NoteOf(line[SearchStart(line)..])
  {
    hide AfterFirst, StripNote, NoteOf, Strip;
    SearchSplits(line);
    NoteTail(AfterFirst('=', AfterFirst(':', line)));
  }

  // The text trimmed to t ends before its end, and t reaches into it.
  lemma StripParts(y: string) returns (pad: string, right: string)
    ensures AllSpace(pad) && AllSpace(right) && y == pad + Strip(y) + right
    ensures Trimmed(Strip(y))
  {
    hide Trimmed;
    var l := LStrip(y);
    var t := RStrip(l);
    LStripShape(y);
    RStripShape(l);
    pad, right := y[..|y| - |l|], l[|t|..];
    assert y == pad + l && l == t + right;
    StripIsTrimmed(y);
  }

  // A text that goes on before another, and opens with no space, does not trim to the same.
  lemma LongerStrip(z: string, y: string)
    requires z != "" && !IsSpace(z[0])
    ensures Strip(z + y) != Strip(y)
  {
    hide Strip;
    var t := Strip(y);
    var pad, right := StripParts(y);
    StripIsTrimmed(z + y);
    assert !AllSpace(z + y) by { assert (z + y)[0] == z[0]; }
    if t != "" {
      var front := z + pad + t;
      assert Trimmed(front);
      assert z + y == "" + front + right;
      StripPadded("", front, right);
      assert |front| > |t|;
    }
  }

  // The first mark that opens a comment from q on, in a text cut at q.
  lemma NoteAtTail(value: string, q: nat)
    requires 0 < q <= |value| && !IsSpace(value[q - 1]) && !(q < |value| && IsMark(value[q]))
    requires q <= NoteAt(value, 0)
    ensures NoteAt(value[q..], 0) + q == NoteAt(value, 0)
  {
    var n, m := NoteAt(value, 0), NoteAt(value[q..], 0);
    if n < |value| {
      assert StartsNote(value, n) && n != q;
      assert StartsNote(value[q..], n - q);
    }
    if m < |value| - q {
      assert StartsNote(value[q..], m) && m != 0;
      assert StartsNote(value, m + q);
    }
  }

  lemma CutShorter(value: string, n: nat, k: nat)
    requires n < k <= |value| && !IsSpace(value[n])
    ensures Strip(value[n..]) != Strip(value[k..])
  {
    hide Strip;
    assert value[n..] == value[n..k] + value[k..];
    LongerStrip(value[n..k], value[k..]);
  }

  lemma CutInside(value: string, q: nat)
    requires 0 < q <= |value| && NoteAt(value, 0) < q
    ensures NoteOf(value[q..]) != NoteOf(value)
  {
    hide Strip, NoteAt;
    var n, m := NoteAt(value, 0), NoteAt(value[q..], 0);
    CutTwice(value, q, m);
    CutShorter(value, n, q + m);
  }

  lemma CutTwice(value: string, q: nat, m: nat)
    requires q + m <= |value|
    ensures value[q..][m..] == value[q + m..]
  {
  }

  lemma CutAtMark(value: string, q: nat)
    requires 0 < q < |value| && q <= NoteAt(value, 0)
    requires !IsSpace(value[q - 1]) && IsMark(value[q])
    ensures NoteOf(value[q..]) != NoteOf(value)
  {
    hide Strip;
    var body := value[q..];
    assert StartsNote(body, 0) && NoteAt(body, 0) == 0;
    assert body[0..] == body;
    CutShorter(value, q, NoteAt(value, 0));
  }

  // Cut at q, a text gives the same comment exactly when the cut comes before it and not
  // right before a mark.
  lemma CutNote(value: string, q: nat)
    requires 0 < q <= |value| && !IsSpace(value[q - 1])
    ensures NoteOf(value[q..]) == NoteOf(value) <==>
            q <= NoteAt(value, 0) && !(q < |value| && IsMark(value[q]))
  {
    hide NoteOf;
    if NoteAt(value, 0) < q {
      CutInside(value, q);
    } else if q < |value| && IsMark(value[q]) {
      CutAtMark(value, q);
    } else {
      NoteAtTail(value, q);
      SameNoteOf(value, q);
    }
  }

  lemma SameNoteOf(value: string, q: nat)
    requires q <= |value| && NoteAt(value[q..], 0) + q == NoteAt(value, 0)
    ensures NoteOf(value[q..]) == NoteOf(value)
  {
    assert value[q..][NoteAt(value[q..], 0)..] == value[NoteAt(value, 0)..];
  }

  // Whatever an option's line looks like, a rewrite keeps the comment on it exactly when
  // neither separator is met inside the comment, nor right before a mark.
  lemma NoteKeptIff(line: string)
    requires EntryParts(line).Some?
    ensures KeptNote([line]) == NoteBeside(line) <==> Found(line)
  {
    hide KeptNote, NoteOf, EntryParts, ValueStart, SearchStart;
    var v, start := ValueStart(line), SearchStart(line);
    KeptIs(line);
    SearchPast(line);
    var value := line[v..];
    if start > v {
      assert value[start - v..] == line[start..];
      assert value[start - v - 1] == line[start - 1];
      assert start < |line| ==> value[start - v] == line[start];
      CutNote(value, start - v);
    }
  }

  // The line the rewrite leaves: the new text and the comment that was there, exactly then.
  lemma RewriteKeepsIff(line: string, key: string, text: string)
    requires EntryParts(line).Some? && OneLine(text)
    ensures Render(key, TextValue(text), [line]) == [WithNote(key + ": " + text, NoteBeside(line))] <==> Found(line)
  {
    hide KeptNote, NoteBeside, EntryParts, Found;
    NoteKeptIff(line);
    var head := key + ": " + text;
    SameNote(head, KeptNote([line]), NoteBeside(line));
  }

  lemma SameNote(head: string, a: string, b: string)
    ensures WithNote(head, a) == WithNote(head, b) <==> a == b
  {
    assert WithNote(head, a)[|head|..] == if a != "" then "  " + a else "";
    assert WithNote(head, b)[|head|..] == if b != "" then "  " + b else "";
    assert a != "" ==> ("  " + a)[2..] == a;
    assert b != "" ==> ("  " + b)[2..] == b;
  }

  // A line written with '=' and a ':' in its comment: the comment is lost.
  lemma ColonInNote()
    ensures var line := "k = v  # a:b";
            && EntryParts(line) == Some(("k", "v")) && NoteBeside(line) == "# a:b"
            && KeptNote([line]) == "" && Render("k", TextValue("w"), [line]) == ["k: w"]
  {
    hide EntryParts, NoteBeside, KeptNote;
    ColonEntry();
    ColonLost();
    assert WithNote("k" + ": " + "w", "") == "k: w";
  }

  lemma ColonEntry()
    ensures EntryParts("k = v  # a:b") == Some(("k", "v")) && NoteBeside("k = v  # a:b") == "# a:b"
  {
    hide Strip, StripNote, NoteOf, Find;
    var line := "k = v  # a:b";
    SameFind(line, {':', '='}, 0, 2);
    assert line[3..] == " v  # a:b" && line[..2] == "k ";
    KeyText();
    ValueText();
    VNote();
  }

  lemma KeyText()
    ensures Strip("k ") == "k"
  {
    hide Strip;
    SpacesAreSpace();
    StripPadded("", "k", " ");
    assert "" + "k" + " " == "k ";
  }

  lemma ValueText()
    ensures StripNote(Strip(" v  # a:b")) == "v"
  {
    hide Strip, StripNote;
    SpacesAreSpace();
    StripPadded(" ", "v  # a:b", "");
    assert " " + "v  # a:b" + "" == " v  # a:b";
    CleanBeforeNote("v", "# a:b");
    assert "v" + "  " + "# a:b" == "v  # a:b";
  }

  lemma ColonLost()
    ensures KeptNote(["k = v  # a:b"]) == ""
  {
    hide NoteOf, KeptNote;
    var line := "k = v  # a:b";
    SameFind(line, {':'}, 0, 10);
    SameFind(line, {'='}, 11, 12);
    KeptIs(line);
    assert line[11..] == "b";
    BNote();
  }

  lemma VNote()
    ensures NoteOf(" v  # a:b") == "# a:b"
  {
    hide Strip;
    assert NoteAt(" v  # a:b", 0) == 4;
    assert " v  # a:b"[4..] == "# a:b";
    StripIsTrimmed("# a:b");
  }

  lemma BNote()
    ensures NoteOf("b") == ""
  {
    assert NoteAt("b", 0) == 1;
    assert "b"[1..] == "";
  }
}
