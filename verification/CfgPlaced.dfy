// Which rows an edit writes and where, said of the rows alone.

module CfgPlaced {
  import opened Text
  import opened CfgSyntax
  import opened CfgParse
  import opened CfgRender
  import opened CfgDocument
  import opened CfgLaws

  // The place right after the last row of the section that is not blank, or after its header.
  ghost predicate EndOfText(lines: seq<string>, sec: Sec, at: nat) {
    && sec.header < at <= sec.end <= |lines|
    && (at - 1 == sec.header || !IsBlank(lines[at - 1]))
    && forall j | at <= j < sec.end :: IsBlank(lines[j])
  }

  lemma OneEndOfText(lines: seq<string>, sec: Sec, a: nat, b: nat)
    requires EndOfText(lines, sec, a) && EndOfText(lines, sec, b)
    ensures a == b
  {
    hide IsBlank;
  }

  lemma EndOfTextIs(lines: seq<string>, sec: Sec)
    requires sec.header < sec.end <= |lines|
    ensures EndOfText(lines, sec, BackOverBlanks(lines, sec.header + 1, sec.end))
  {
    hide IsBlank, BackOverBlanks;
    BackStops(lines, sec.header + 1, sec.end);
  }

  lemma SpanAt(lines: seq<string>, s: string, k: string, at: nat)
    requires HasSection(lines, s) && k !in ParseLines(lines).sections[s].options
    requires EndOfText(lines, ParseLines(lines).sections[s], at)
    ensures PutSpan(lines, s, k) == (at, at)
  {
    hide BackOverBlanks, ParseLines, EndOfText, PutSpan;
    SpanOfNew(lines, s, k);
    var sec := ParseLines(lines).sections[s];
    EndOfTextIs(lines, sec);
    OneEndOfText(lines, sec, at, BackOverBlanks(lines, sec.header + 1, sec.end));
  }

  // A new key's rows stand right under the last row of its section that is not blank, and
  // only blank rows part them from the section's old end.
  lemma NewKeyPlaced(lines: seq<string>, s: string, k: string, value: Value, at: nat)
    requires HasSection(lines, s) && Lookup(lines, s, k).None?
    requires EndOfText(lines, SectionOf(lines, s), at)
    ensures at <= |lines| && SetLines(lines, s, k, value) == lines[..at] + Render(k, value, []) + lines[at..]
  {
    hide SectionOf, ParseLines, SetLines, Render, EndOfText, PutSpan;
    IndexedAt(lines, s, k);
    SpanAt(lines, s, k, at);
    PutAtRow(lines, s, k, value, at);
  }

  lemma PutAtRow(lines: seq<string>, s: string, k: string, value: Value, at: nat)
    requires HasSection(lines, s) && PutSpan(lines, s, k) == (at, at)
    ensures at <= |lines|
    ensures SetLines(lines, s, k, value) == lines[..at] + Render(k, value, []) + lines[at..]
  {
    hide PutSpan, ParseLines, Render;
    assert lines[at..at] == [];
  }

  lemma HasEndOfText(lines: seq<string>, s: string) returns (at: nat)
    requires HasSection(lines, s)
    ensures EndOfText(lines, SectionOf(lines, s), at)
  {
    hide SectionOf, BackOverBlanks, ParseLines, EndOfText;
    var sec := SectionOf(lines, s);
    EndOfTextIs(lines, sec);
    at := BackOverBlanks(lines, sec.header + 1, sec.end);
  }

  // A new section goes after everything, under one blank row at most: none when the
  // document is empty or ends in a blank row already.
  lemma SectionPlaced(lines: seq<string>, s: string)
    requires !HasSection(lines, s)
    ensures var now := AddLines(lines, s);
            && lines <= now && now[|now| - 1] == "[" + s + "]"
            && (|now| > 1 ==> IsBlank(now[|now| - 2]))
            && (lines == [] || IsBlank(lines[|lines| - 1]) ==> |now| == |lines| + 1)
            && (lines != [] && !IsBlank(lines[|lines| - 1]) ==> |now| == |lines| + 2 && now[|lines|] == "")
  {
    hide ParseLines;
    assert Strip("") == "" by { StripIsTrimmed(""); }
  }

  // The first key of a section the document did not have comes right under its header.
  lemma FirstKeyPlaced(lines: seq<string>, s: string, k: string, value: Value)
    requires !HasSection(lines, s) && CleanName(s)
    ensures SetLines(lines, s, k, value) == AddLines(lines, s) + Render(k, value, [])
  {
    hide ParseLines, SectionOf, IsBlank, Render, CleanName;
    var now := AddLines(lines, s);
    AddedSection(lines, s);
    IndexedAt(now, s, k);
    assert Lookup(now, s, k).None?;
    NewKeyPlaced(now, s, k, value, |now|);
    assert now[..|now|] == now && now[|now|..] == [];
  }

  lemma AddedSection(lines: seq<string>, s: string)
    requires !HasSection(lines, s) && CleanName(s)
    ensures var now := AddLines(lines, s);
            HasSection(now, s) && ParseLines(now).sections[s] == Sec(|now| - 1, |now|, map[])
  {
    hide ParseLines, IsBlank, CleanName;
    AddReads(lines, s);
    if lines != [] && !IsBlank(lines[|lines| - 1]) {
      var spaced := lines + [""];
      BlankDropped(spaced);
      assert spaced[..|lines|] == lines;
      HeaderAdded(spaced, s);
    } else {
      HeaderAdded(lines, s);
      assert lines + [] == lines;
    }
  }

  // A rename changes one row, and of that row only what stands in the brackets.
  lemma RenamedRow(lines: seq<string>, was: string, now: string, raw: string, rest: string)
    requires HasSection(lines, was) && !HasSection(lines, now)
    requires lines[SectionOf(lines, was).header] == "[" + raw + "]" + rest && ']' !in raw
    ensures RenameLines(lines, was, now) == lines[SectionOf(lines, was).header := "[" + now + "]" + rest]
  {
    hide SectionOf, ParseLines;
    var header := SectionOf(lines, was).header;
    var row := lines[header];
    var close := Find(row, {']'}, 0);
    assert row[|raw| + 1] == ']';
    assert close == |raw| + 1 by {
      forall j | 0 <= j < |raw| + 1 ensures row[j] !in {']'} {
        if j > 0 { assert row[j] == raw[j - 1] && raw[j - 1] in raw; }
      }
    }
    assert row[close + 1..] == rest;
  }

  // The rendered text is the rows joined, and ends in a newline unless it is empty.
  lemma RenderedEnd(lines: seq<string>)
    ensures var text := RenderText(lines);
            && (text == JoinLines(lines) || text == JoinLines(lines) + "\n")
            && (text != "" ==> text[|text| - 1] == '\n')
            && (JoinLines(lines) != "" && text != JoinLines(lines) ==> JoinLines(lines)[|JoinLines(lines)| - 1] != '\n')
            && (JoinLines(lines) == "" ==> text == "")
  {
  }
}
