// What an edited document reads as: the value that was set, and every other value as before.

module CfgLaws {
  import opened Text
  import opened CfgSyntax
  import opened CfgParse
  import opened CfgEdits
  import opened CfgRender
  import opened CfgDocument

  // Every value but (s, k) reads as before, and (s, k) reads as r.
  ghost predicate Wrote(was: seq<string>, now: seq<string>, s: string, k: string, r: Option<string>) {
    && ParseLines(now).sections.Keys == ParseLines(was).sections.Keys + {s}
    && ParseLines(now).duplicates == ParseLines(was).duplicates
    && Lookup(now, s, k) == r
    && OthersKept(was, now, s, k)
  }

  ghost predicate OthersKept(was: seq<string>, now: seq<string>, s: string, k: string) {
    forall t, q | t != s || q != k ::
      Lookup(now, t, q) == Lookup(was, t, q) && CopiesOf(now, t, q) == CopiesOf(was, t, q)
  }

  lemma KindsSplice(lines: seq<string>, start: nat, end: nat, block: seq<string>)
    requires start <= end <= |lines|
    ensures Kinds(SpliceLines(lines, start, end, block)) == Splice(Kinds(lines), start, end, Kinds(block))
  {
    hide Kinds, Classify;
    KindsConcat(lines[..start], block);
    KindsConcat(lines[..start] + block, lines[end..]);
    KindsSlice(lines, 0, start);
    KindsSlice(lines, end, |lines|);
    assert lines[0..start] == lines[..start] && lines[end..|lines|] == lines[end..];
    var kinds := Kinds(lines);
    assert kinds[0..start] == kinds[..start] && kinds[end..|lines|] == kinds[end..];
  }

  lemma KindsSlice(lines: seq<string>, i: nat, j: nat)
    requires i <= j <= |lines|
    ensures Kinds(lines[i..j]) == Kinds(lines)[i..j]
  {
    hide Classify;
  }

  lemma EditsKeep(was: seq<string>, now: seq<string>, s: string, k: string)
    requires OnlyEdits(Kinds(was), Kinds(now), s, k) && HasSection(was, s)
    ensures Wrote(was, now, s, k, Lookup(now, s, k))
  {
    forall t, q | t != s || q != k
      ensures Lookup(now, t, q) == Lookup(was, t, q) && CopiesOf(now, t, q) == CopiesOf(was, t, q)
    {
      assert Get(Final(Kinds(was)), t, q) == Get(Final(Kinds(now)), t, q);
      assert Copies(Kinds(was), |Kinds(was)|, t, q) == Copies(Kinds(now), |Kinds(now)|, t, q);
    }
  }

  // Splicing any block for key k over the option, or after the section's last filled line.
  lemma PutReads(lines: seq<string>, s: string, k: string, value: Value)
    requires HasSection(lines, s)
    requires var (start, end) := PutSpan(lines, s, k); IsBlock(Kinds(Render(k, value, lines[start..end])), k)
    ensures var (start, end) := PutSpan(lines, s, k);
            Wrote(lines, PutLines(lines, s, k, value), s, k,
                  Some(BlockValue(Kinds(Render(k, value, lines[start..end])))))
    ensures CopiesOf(PutLines(lines, s, k, value), s, k) ==
            if Lookup(lines, s, k).Some? then CopiesOf(lines, s, k) else 1
  {
    var (start, end) := PutSpan(lines, s, k);
    var block := Render(k, value, lines[start..end]);
    var now := PutLines(lines, s, k, value);
    KindsSplice(lines, start, end, block);
    if HasOption(Kinds(lines), s, k) {
      ReplaceOption(Kinds(lines), s, k, Kinds(block));
    } else {
      assert InsertPoint(Kinds(lines), s, start) by { BlankRun(lines, s); }
      InsertOption(Kinds(lines), s, k, start, Kinds(block));
    }
    EditsKeep(lines, now, s, k);
  }

  lemma BlankLine(line: string)
    requires IsBlank(line)
    ensures Classify(line) == Blank
  {
    StripIsTrimmed(line);
    LStripShape(line);
    if line != "" { assert IsSpace(line[0]); }
  }

  lemma BlankRun(lines: seq<string>, s: string)
    requires HasSection(lines, s)
    ensures var sec := SectionOf(lines, s);
            InsertPoint(Kinds(lines), s, BackOverBlanks(lines, sec.header + 1, sec.end))
  {
    hide After, Classify, IsBlank;
    var sec := SectionOf(lines, s);
    var at := BackOverBlanks(lines, sec.header + 1, sec.end);
    forall j | at <= j < sec.end ensures Kinds(lines)[j].Blank? { BlankLine(lines[j]); }
  }

  lemma PutKeepsOneLiners(lines: seq<string>, s: string, k: string, value: Value)
    requires OneLiners(lines) && HasSection(lines, s) && CleanKey(k) && CleanValue(value)
    ensures OneLiners(PutLines(lines, s, k, value))
  {
    var (start, end) := PutSpan(lines, s, k);
    RenderOneLiners(k, value, lines[start..end]);
  }

  // Nothing reads differently.
  ghost predicate SameReads(was: seq<string>, now: seq<string>) {
    forall t, q :: Lookup(now, t, q) == Lookup(was, t, q) && CopiesOf(now, t, q) == CopiesOf(was, t, q)
  }

  lemma HeaderAdded(lines: seq<string>, s: string)
    requires !HasSection(lines, s) && CleanName(s)
    ensures var now := lines + ["[" + s + "]"];
            && ParseLines(now).sections.Keys == ParseLines(lines).sections.Keys + {s}
            && ParseLines(now).duplicates == ParseLines(lines).duplicates
            && ParseLines(now).sections[s] == Sec(|lines|, |now|, map[])
            && SameReads(lines, now)
  {
    var row := "[" + s + "]";
    HeaderLine(s, "");
    assert row + "" == row;
    assert Kinds([row]) == [Header(s)];
    KindsConcat(lines, [row]);
    AppendHeader(Kinds(lines), s);
  }

  lemma BlankDropped(lines: seq<string>)
    requires lines != [] && lines[|lines| - 1] == ""
    ensures var less := lines[..|lines| - 1];
            && ParseLines(less).sections.Keys == ParseLines(lines).sections.Keys
            && ParseLines(less).duplicates == ParseLines(lines).duplicates
            && SameReads(lines, less)
  {
    BlankLine("");
    DropBlank(Kinds(lines));
    var n := |lines| - 1;
    assert Kinds(lines)[..n] == Kinds(lines[..n]);
  }

  lemma AddReads(lines: seq<string>, s: string)
    requires HasSection(lines, s) || CleanName(s)
    ensures var now := AddLines(lines, s);
            && HasSection(now, s)
            && ParseLines(now).sections.Keys == ParseLines(lines).sections.Keys + {s}
            && ParseLines(now).duplicates == ParseLines(lines).duplicates
            && SameReads(lines, now)
            && (OneLiners(lines) ==> OneLiners(now))
  {
    hide After, Copies, IsBlank, Classify;
    if !HasSection(lines, s) {
      if lines != [] && !IsBlank(lines[|lines| - 1]) {
        var spaced := lines + [""];
        BlankDropped(spaced);
        assert spaced[..|lines|] == lines;
        HeaderAdded(spaced, s);
      } else {
        HeaderAdded(lines, s);
        assert lines + [] == lines;
      }
    }
  }

  // The edit law: a clean value, set under a clean key in any document, is what a full
  // re-parse reads there, and every other (section, key) pair reads exactly as before.
  lemma SetReads(lines: seq<string>, s: string, k: string, value: Value)
    requires OneLiners(lines) && CleanKey(k) && CleanValue(value)
    requires HasSection(lines, s) || CleanName(s)
    ensures var now := SetLines(lines, s, k, value);
            && Wrote(lines, now, s, k, Some(TextOf(value)))
            && CopiesOf(now, s, k) == (if Lookup(lines, s, k).Some? then CopiesOf(lines, s, k) else 1)
            && OneLiners(now)
  {
    AddReads(lines, s);
    var added := AddLines(lines, s);
    var (start, end) := PutSpan(added, s, k);
    RenderedReads(k, value, added[start..end]);
    PutReads(added, s, k, value);
    PutKeepsOneLiners(added, s, k, value);
  }

  // get_list after setting a list gives the list.
  lemma SetListReads(lines: seq<string>, s: string, k: string, items: seq<string>)
    requires OneLiners(lines) && CleanKey(k) && CleanItems(items)
    requires HasSection(lines, s) || CleanName(s)
    ensures var r := Lookup(SetLines(lines, s, k, Items(items)), s, k);
            r.Some? && ListOf(r.value) == items
  {
    NonBlankClean(items);
    SetReads(lines, s, k, Items(items));
    ListOfJoined(items);
  }

  // Exactly the clean one-line texts come back as they were set.
  lemma SetTextIff(lines: seq<string>, s: string, k: string, text: string)
    requires OneLiners(lines) && CleanKey(k) && OneLine(text)
    requires HasSection(lines, s) || CleanName(s)
    ensures Lookup(SetLines(lines, s, k, TextValue(text)), s, k) == Some(text) <==> Clean(text)
  {
    if Clean(text) {
      SetReads(lines, s, k, TextValue(text));
    } else {
      AddReads(lines, s);
      var added := AddLines(lines, s);
      var (start, end) := PutSpan(added, s, k);
      TextReadsClean(k, text, added[start..end]);
      PutReads(added, s, k, TextValue(text));
    }
  }

  lemma TextReadsClean(k: string, text: string, existing: seq<string>)
    requires CleanKey(k) && OneLine(text) && OneLiners(existing)
    ensures var b := Kinds(Render(k, TextValue(text), existing)); IsBlock(b, k) && Clean(BlockValue(b))
  {
    hide Classify, StripNote, Strip, Clean, IsBlock, BlockValue, KeptNote, Kinds;
    var note := KeptNote(existing);
    assert OneLine(note) by { KeptNoteIsNote(existing); }
    var rest := " " + WithNote(text, note);
    assert WithNote(k + ": " + text, note) == k + ":" + rest;
    OneRow(k, rest);
  }

  lemma OneRow(k: string, rest: string)
    requires CleanKey(k) && OneLine(rest)
    ensures var b := Kinds([k + ":" + rest]); IsBlock(b, k) && Clean(BlockValue(b))
  {
    EntryWritten(k, rest);
    ReadIsClean(rest);
  }

  // Whatever one line holds, the value read from it is clean.
  lemma ReadIsClean(rest: string)
    requires OneLine(rest)
    ensures Clean(StripNote(Strip(rest)))
  {
    var u := Strip(rest);
    StripIsTrimmed(rest);
    var r := StripNote(u);
    RStripShape(u[..NoteAt(u, 0)]);
    forall i: nat | i < |r| ensures !StartsNote(r, i) { assert !StartsNote(u, i); }
    if r != "" { assert r[0] == u[0]; }
  }

  lemma RemoveReads(lines: seq<string>, s: string, k: string)
    requires HasSection(lines, s)
    ensures var now := RemoveLines(lines, s, k);
            && Wrote(lines, now, s, k, Lookup(now, s, k))
            && (OneLiners(lines) ==> OneLiners(now))
            && CopiesOf(now, s, k) == (if CopiesOf(lines, s, k) == 0 then 0 else CopiesOf(lines, s, k) - 1)
  {
    var kinds := Kinds(lines);
    ValueIffCopies(kinds, |kinds|, s, k);
    if HasOption(kinds, s, k) {
      var opt := OptionOf(kinds, s, k);
      KindsSplice(lines, opt.start, opt.end, []);
      assert Kinds([]) == [];
      DeleteOption(kinds, s, k);
      EditsKeep(lines, RemoveLines(lines, s, k), s, k);
    } else {
      assert OnlyEdits(kinds, kinds, s, k);
      EditsKeep(lines, lines, s, k);
    }
  }

  // Removing an option leaves no value exactly when at most one line gave it: a repeated
  // key, ignored until then, comes to life.
  lemma RemoveIff(lines: seq<string>, s: string, k: string)
    ensures Lookup(RemoveLines(lines, s, k), s, k).None? <==> CopiesOf(lines, s, k) <= 1
  {
    ValueIffCopies(Kinds(lines), |lines|, s, k);
    if HasSection(lines, s) {
      RemoveReads(lines, s, k);
      var now := Kinds(RemoveLines(lines, s, k));
      ValueIffCopies(now, |now|, s, k);
    }
  }

  // ----- what is written is read back the same -----

  // Parsing the rendered text gives every value the document gave.
  lemma RenderReads(lines: seq<string>)
    requires OneLiners(lines)
    ensures var back := SplitLines(RenderText(lines));
            && ParseLines(back).sections.Keys == ParseLines(lines).sections.Keys
            && ParseLines(back).duplicates == ParseLines(lines).duplicates
            && SameReads(lines, back)
            && OneLiners(back)
  {
    RenderedLines(lines);
    if lines != [] && lines[|lines| - 1] == "" {
      BlankDropped(lines);
    }
  }

  lemma RenderedLines(lines: seq<string>)
    requires OneLiners(lines)
    ensures SplitLines(RenderText(lines)) ==
            if lines != [] && lines[|lines| - 1] == "" then lines[..|lines| - 1] else lines
  {
    hide JoinLines, SplitLines;
    if lines == [] {
      NoLines();
    } else {
      var n := |lines| - 1;
      assert lines == lines[..n] + [lines[n]];
      if lines[n] == "" { EndsEmpty(lines[..n]); } else { EndsFilled(lines[..n], lines[n]); }
    }
  }

  lemma NoLines()
    ensures JoinLines([]) == "" && SplitLines("") == []
  {
  }

  lemma EndsEmpty(init: seq<string>)
    requires OneLiners(init)
    ensures SplitLines(RenderText(init + [""])) == init
  {
    hide JoinLines, SplitLines;
    if init == [] {
      NoLines();
      OnlyLine("");
      assert [] + [""] == [""];
    } else {
      JoinEnding(init, "");
      SplitJoinedNewline(init);
      assert JoinLines(init) + "\n" + "" == JoinLines(init) + "\n";
    }
  }

  lemma EndsFilled(init: seq<string>, last: string)
    requires OneLiners(init + [last]) && last != ""
    ensures SplitLines(RenderText(init + [last])) == init + [last]
  {
    hide JoinLines, SplitLines;
    var lines := init + [last];
    SplitJoinedNewline(lines);
    if init != [] {
      JoinEnding(init, last);
    } else {
      OnlyLine(last);
      assert [] + [last] == [last];
    }
    assert JoinLines(lines)[|JoinLines(lines)| - 1] == last[|last| - 1];
    assert OneLine(lines[|init|]) && last[|last| - 1] in last;
  }

  lemma OnlyLine(line: string)
    ensures JoinLines([line]) == line
  {
  }

  lemma {:induction false} RowsOneLiners(items: seq<string>, d: Deco)
    requires CleanItems(items) && NotesOnly(d)
    ensures OneLiners(Rows(items, d))
  {
    if items != [] {
      var n := |items| - 1;
      RowsOneLiners(items[..n], d);
      NotesOneLiners(BeforeOf(d, items[n]));
      assert OneLine(items[n]) && OneLine(InlineOf(d, items[n]));
    }
  }

  lemma NotesOneLiners(notes: seq<string>)
    requires AllNotes(notes)
    ensures OneLiners(NoteRows(notes))
  {
    forall i | 0 <= i < |notes| ensures OneLine(NoteRows(notes)[i]) { assert IsNote(notes[i]); }
  }

  lemma RenderOneLiners(k: string, value: Value, existing: seq<string>)
    requires CleanKey(k) && CleanValue(value) && OneLiners(existing)
    ensures OneLiners(Render(k, value, existing))
  {
    if ItemsOf(value).Some? {
      var d := Decoration(existing);
      DecoNotes(existing);
      RowsOneLiners(ItemsOf(value).value, d);
      NotesOneLiners(d.pending);
    } else {
      KeptNoteIsNote(existing);
    }
  }
}
