// The comments an edit carries over.

module CfgNotes {
  import opened Text
  import opened CfgSyntax
  import opened CfgParse
  import opened CfgEdits
  import opened CfgRender
  import opened CfgDocument
  import opened CfgLaws

  lemma {:induction false} DecoOfRemarks(rows: seq<Row>, i: nat, notes: seq<string>)
    requires 1 <= i && i + |notes| <= |rows|
    requires forall j | 0 <= j < |notes| :: rows[i + j] == Remark(notes[j])
    ensures DecoOf(rows, i + |notes|) == DecoOf(rows, i).(pending := DecoOf(rows, i).pending + notes)
  {
    if notes == [] {
      assert DecoOf(rows, i).pending + [] == DecoOf(rows, i).pending;
    } else {
      var n := |notes| - 1;
      DecoOfRemarks(rows, i, notes[..n]);
      assert rows[i + n] == Remark(notes[n]);
      assert DecoOf(rows, i).pending + notes == DecoOf(rows, i).pending + notes[..n] + [notes[n]];
    }
  }

  lemma ItemRowReads(item: string, note: string)
    requires CleanItem(item) && (note == "" || IsNote(note))
    ensures RowOf(WithNote(INDENT + item, note)) == Item(item, note)
  {
    var row := WithNote(INDENT + item, note);
    var body := WithNote(item, note);
    assert row == INDENT + body;
    assert Classify(row) == More(item) by { ItemLine(item, note); }
    assert !IsComment(row);
    assert Trimmed(body) && StripNote(body) == item by { ItemBody(item, note); }
    Indented(body);
    if note != "" {
      assert body[|item|..] == "  " + note + "";
      SpacesAreSpace();
      StripPadded("  ", note, "");
    } else {
      assert body[|item|..] == "";
    }
  }

  lemma ItemBody(item: string, note: string)
    requires CleanItem(item) && (note == "" || IsNote(note))
    ensures Trimmed(WithNote(item, note)) && StripNote(WithNote(item, note)) == item
  {
    if note != "" {
      CleanBeforeNote(item, note);
      assert WithNote(item, note) == item + "  " + note;
    } else {
      CleanIffKept(item);
      StripIsTrimmed(item);
      assert WithNote(item, note) == item;
    }
  }

  // Reading the rows of some items back: every comment of those items, and no other.
  ghost predicate KeepsFor(items: seq<string>, d: Deco, now: Deco) {
    && (forall item | item in items :: InlineOf(now, item) == InlineOf(d, item))
    && (forall item | item in items :: BeforeOf(now, item) == BeforeOf(d, item))
    && (forall item | item in now.inline || item in now.before :: item in items)
  }

  // The rows of one item start at row i.
  predicate ItemAt(rows: seq<Row>, i: nat, item: string, d: Deco) {
    var notes := BeforeOf(d, item);
    && i + |notes| < |rows|
    && (forall j | 0 <= j < |notes| :: rows[i + j] == Remark(notes[j]))
    && rows[i + |notes|] == Item(item, InlineOf(d, item))
  }

  lemma ItemReadAt(lines: seq<string>, i: nat, item: string, d: Deco)
    requires i + |ItemRows(item, d)| <= |lines| && lines[i..i + |ItemRows(item, d)|] == ItemRows(item, d)
    requires CleanItem(item) && NotesOnly(d)
    ensures ItemAt(RowsOf(lines), i, item, d)
  {
    hide CleanItem, RowOf;
    var notes, m := BeforeOf(d, item), |ItemRows(item, d)|;
    forall j | 0 <= j < |notes| ensures RowsOf(lines)[i + j] == Remark(notes[j]) {
      assert lines[i + j] == lines[i..i + m][j] == INDENT + notes[j];
      NoteReads(notes[j]);
    }
    assert lines[i + |notes|] == lines[i..i + m][|notes|];
    ItemRowReads(item, InlineOf(d, item));
  }

  lemma NoteReads(note: string)
    requires IsNote(note)
    ensures RowOf(INDENT + note) == Remark(note)
  {
    NoteLine(note);
  }

  lemma DecoOfItem(rows: seq<Row>, i: nat, item: string, d: Deco)
    requires 1 <= i && ItemAt(rows, i, item, d) && DecoOf(rows, i).pending == []
    ensures var was := DecoOf(rows, i);
            var note, notes := InlineOf(d, item), BeforeOf(d, item);
            DecoOf(rows, i + |notes| + 1) ==
            Deco(if note != "" then was.inline[item := note] else was.inline,
                 if notes != [] then was.before[item := notes] else was.before,
                 [])
  {
    var notes := BeforeOf(d, item);
    DecoOfRemarks(rows, i, notes);
    assert [] + notes == notes;
  }

  lemma {:induction false} DecoOfRows(lines: seq<string>, items: seq<string>, d: Deco)
    requires 1 + |Rows(items, d)| <= |lines| && lines[1..1 + |Rows(items, d)|] == Rows(items, d)
    requires CleanItems(items) && NotesOnly(d)
    ensures KeepsFor(items, d, DecoOf(RowsOf(lines), 1 + |Rows(items, d)|))
    ensures DecoOf(RowsOf(lines), 1 + |Rows(items, d)|).pending == []
  {
    hide CleanItem, NotesOnly, DecoOf, RowOf, InlineOf, BeforeOf, KeepsFor;
    if items == [] {
      NothingRead(lines, d);
    } else {
      var n := |items| - 1;
      var init, item := items[..n], items[n];
      var i, m := 1 + |Rows(init, d)|, |ItemRows(item, d)|;
      assert Rows(items, d) == Rows(init, d) + ItemRows(item, d);
      RowsSlices(lines, Rows(init, d), ItemRows(item, d));
      DecoOfRows(lines, init, d);
      ItemReadAt(lines, i, item, d);
      DecoOfItem(RowsOf(lines), i, item, d);
      assert m == |BeforeOf(d, item)| + 1 && 1 + |Rows(items, d)| == i + m;
      assert items == init + [item];
      KeepsMore(init, item, d, DecoOf(RowsOf(lines), i), DecoOf(RowsOf(lines), i + m));
    }
  }

  lemma NothingRead(lines: seq<string>, d: Deco)
    requires 1 <= |lines|
    ensures DecoOf(RowsOf(lines), 1) == PLAIN && KeepsFor([], d, PLAIN)
  {
  }

  lemma RowsSlices(lines: seq<string>, x: seq<string>, y: seq<string>)
    requires 1 + |x + y| <= |lines| && lines[1..1 + |x + y|] == x + y
    ensures lines[1..1 + |x|] == x && lines[1 + |x|..1 + |x| + |y|] == y
  {
    assert lines[1..1 + |x|] == lines[1..1 + |x + y|][..|x|];
    assert lines[1 + |x|..1 + |x| + |y|] == lines[1..1 + |x + y|][|x|..];
  }

  lemma KeepsMore(items: seq<string>, item: string, d: Deco, was: Deco, now: Deco)
    requires KeepsFor(items, d, was)
    requires var note, notes := InlineOf(d, item), BeforeOf(d, item);
             now == Deco(if note != "" then was.inline[item := note] else was.inline,
                         if notes != [] then was.before[item := notes] else was.before,
                         [])
    ensures KeepsFor(items + [item], d, now)
  {
  }

  // What is collected from a rewritten block is what was collected from the old one, so far
  // as the items are still there.
  lemma DecorationKept(key: string, items: seq<string>, existing: seq<string>)
    requires CleanItems(items) && items != [] && OneLiners(existing)
    ensures var d, now := Decoration(existing), Decoration(Render(key, Items(items), existing));
            KeepsFor(items, d, now) && now.pending == d.pending
  {
    NonBlankClean(items);
    DecoNotes(existing);
    BlockNotesKept(key, items, Decoration(existing));
  }

  lemma BlockNotesKept(key: string, items: seq<string>, d: Deco)
    requires CleanItems(items) && items != [] && NotesOnly(d)
    ensures var now := Decoration(RenderBlock(key, items, d)); KeepsFor(items, d, now) && now.pending == d.pending
  {
    hide CleanItem, NotesOnly, RowOf, DecoOf, Decoration, ItemRows, KeepsFor, Rows, NoteRows, CleanItems;
    var out := RenderBlock(key, items, d);
    var rows := Rows(items, d);
    assert out == [key + ":"] + (rows + NoteRows(d.pending));
    assert out[1..1 + |rows|] == rows && out[1 + |rows|..] == NoteRows(d.pending);
    BlockRowsKept(out, items, d);
  }

  lemma BlockRowsKept(out: seq<string>, items: seq<string>, d: Deco)
    requires var m := 1 + |Rows(items, d)|; m <= |out| && out[1..m] == Rows(items, d) && out[m..] == NoteRows(d.pending)
    requires CleanItems(items) && NotesOnly(d)
    ensures KeepsFor(items, d, Decoration(out)) && Decoration(out).pending == d.pending
  {
    hide CleanItem, NotesOnly, RowOf, DecoOf, Rows, NoteRows;
    var m := 1 + |Rows(items, d)|;
    DecoOfRows(out, items, d);
    PendingRead(out, m, d);
    assert [] + d.pending == d.pending;
  }

  lemma PendingRead(lines: seq<string>, m: nat, d: Deco)
    requires 1 <= m <= |lines| && lines[m..] == NoteRows(d.pending) && NotesOnly(d)
    ensures DecoOf(RowsOf(lines), |lines|) ==
            DecoOf(RowsOf(lines), m).(pending := DecoOf(RowsOf(lines), m).pending + d.pending)
  {
    hide RowOf, DecoOf;
    assert m + |d.pending| == |lines|;
    forall j | 0 <= j < |d.pending| ensures RowsOf(lines)[m + j] == Remark(d.pending[j]) {
      assert lines[m + j] == lines[m..][j] == NoteRows(d.pending)[j];
      NoteReads(d.pending[j]);
    }
    DecoOfRemarks(RowsOf(lines), m, d.pending);
  }

  lemma {:induction false} SameRows(items: seq<string>, all: seq<string>, d: Deco, now: Deco)
    requires KeepsFor(all, d, now) && forall item | item in items :: item in all
    ensures Rows(items, now) == Rows(items, d)
  {
    if items != [] {
      assert items[|items| - 1] in items;
      SameRows(items[..|items| - 1], all, d, now);
    }
  }

  lemma RenderedTwice(key: string, items: seq<string>, existing: seq<string>)
    requires CleanItems(items) && OneLiners(existing)
    ensures Render(key, Items(items), Render(key, Items(items), existing)) == Render(key, Items(items), existing)
  {
    NonBlankClean(items);
    if items != [] {
      DecorationKept(key, items, existing);
      SameRows(items, items, Decoration(existing), Decoration(Render(key, Items(items), existing)));
    }
  }

  lemma {:induction false} ValuePersists(kinds: seq<Line>, n: nat, m: nat, s: string, k: string)
    requires n <= m <= |kinds| && Get(After(kinds, n), s, k).Some?
    ensures Get(After(kinds, m), s, k).Some?
    decreases m
  {
    hide Step;
    if n < m {
      ValuePersists(kinds, n, m - 1, s, k);
      StepOption(After(kinds, m - 1), m - 1, kinds[m - 1], s, k);
    }
  }

  // A block read where its key was absent is where the index then finds the option.
  lemma BlockFound(kinds: seq<Line>, n: nat, end: nat, s: string, k: string)
    requires n < end <= |kinds| && IsBlock(kinds[n..end], k)
    requires LiveAt(After(kinds, n), s) && Get(After(kinds, n), s, k).None?
    requires end < |kinds| ==> !kinds[end].Folds()
    ensures HasOption(kinds, s, k)
    ensures var opt := OptionOf(kinds, s, k); opt.start == n && opt.end == end
  {
    hide After, LiveAt, Get;
    assert kinds[n] == kinds[n..end][0];
    StartsAt(kinds, n, s, k);
    OptionsPlaced(kinds, |kinds|, s, k);
    BlockFolds(kinds, n, end, k);
  }

  // An option starts at the first line that gives its key.
  lemma StartsAt(kinds: seq<Line>, n: nat, s: string, k: string)
    requires n < |kinds| && kinds[n].Entry? && kinds[n].key == k
    requires LiveAt(After(kinds, n), s) && Get(After(kinds, n), s, k).None?
    ensures HasOption(kinds, s, k) && OptionOf(kinds, s, k).start == n
  {
    hide Step;
    StepOption(After(kinds, n), n, kinds[n], s, k);
    ValuePersists(kinds, n + 1, |kinds|, s, k);
    OptionsPlaced(kinds, |kinds|, s, k);
    var opt := OptionOf(kinds, s, k);
    if opt.start < n {
      StepOption(After(kinds, opt.start), opt.start, kinds[opt.start], s, k);
      ValuePersists(kinds, opt.start + 1, n, s, k);
    } else if opt.start > n {
      ValuePersists(kinds, n + 1, opt.start, s, k);
    }
  }

  lemma BlockFolds(kinds: seq<Line>, n: nat, end: nat, k: string)
    requires n < end <= |kinds| && IsBlock(kinds[n..end], k)
    ensures forall j | n < j < end :: kinds[j].Folds()
  {
    forall j | n < j < end ensures kinds[j].Folds() { assert kinds[j] == kinds[n..end][j - n]; }
  }

  lemma SplicedFound(kinds: seq<Line>, start: nat, end: nat, block: seq<Line>, s: string, k: string)
    requires start <= end <= |kinds| && IsBlock(block, k)
    requires LiveAt(After(kinds, start), s) && Get(After(kinds, start), s, k).None?
    requires end < |kinds| ==> !kinds[end].Folds()
    ensures var now := Splice(kinds, start, end, block);
            && HasOption(now, s, k)
            && OptionOf(now, s, k).start == start && OptionOf(now, s, k).end == start + |block|
  {
    var now := Splice(kinds, start, end, block);
    SpliceParts(kinds, start, end, block);
    TailHead(kinds, end, now, start + |block|);
    BlockFound(now, start, start + |block|, s, k);
  }

  lemma PutSpanPlaced(lines: seq<string>, s: string, k: string)
    requires HasSection(lines, s)
    ensures var (start, end) := PutSpan(lines, s, k);
            var kinds := Kinds(lines);
            && LiveAt(After(kinds, start), s) && Get(After(kinds, start), s, k).None?
            && (end < |kinds| ==> !kinds[end].Folds())
  {
    var kinds := Kinds(lines);
    if HasOption(kinds, s, k) {
      OptionsPlaced(kinds, |kinds|, s, k);
    } else {
      BlankRun(lines, s);
      InsertHere(kinds, s, k, PutSpan(lines, s, k).0);
    }
  }

  lemma PutSpanAfter(lines: seq<string>, s: string, k: string, value: Value)
    requires HasSection(lines, s)
    requires var (start, end) := PutSpan(lines, s, k); IsBlock(Kinds(Render(k, value, lines[start..end])), k)
    ensures var (start, end) := PutSpan(lines, s, k);
            var now := PutLines(lines, s, k, value);
            HasSection(now, s) && PutSpan(now, s, k) == (start, start + |Render(k, value, lines[start..end])|)
  {
    hide IsBlock, Render, LiveAt, Get, HasOption, After;
    PutSpanPlaced(lines, s, k);
    var (start, end) := PutSpan(lines, s, k);
    SpanAfterSplice(lines, start, end, Render(k, value, lines[start..end]), s, k);
  }

  lemma SpanAfterSplice(lines: seq<string>, start: nat, end: nat, block: seq<string>, s: string, k: string)
    requires start <= end <= |lines| && IsBlock(Kinds(block), k)
    requires LiveAt(After(Kinds(lines), start), s) && Get(After(Kinds(lines), start), s, k).None?
    requires end < |lines| ==> !Kinds(lines)[end].Folds()
    ensures var now := SpliceLines(lines, start, end, block);
            HasSection(now, s) && PutSpan(now, s, k) == (start, start + |block|)
  {
    hide IsBlock, LiveAt, Get, After, Kinds, PutSpan, HasSection, OptionOf, HasOption, Splice, SpliceLines;
    KindsSplice(lines, start, end, block);
    SplicedFound(Kinds(lines), start, end, Kinds(block), s, k);
    FoundSpan(SpliceLines(lines, start, end, block), s, k);
  }

  lemma FoundSpan(lines: seq<string>, s: string, k: string)
    requires HasOption(Kinds(lines), s, k)
    ensures HasSection(lines, s)
    ensures var opt := OptionOf(Kinds(lines), s, k); PutSpan(lines, s, k) == (opt.start, opt.end)
  {
    hide After, Kinds;
  }

  // Setting the same list again leaves the document's lines exactly as they are.
  lemma SetListTwice(lines: seq<string>, s: string, k: string, items: seq<string>)
    requires OneLiners(lines) && CleanKey(k) && CleanItems(items)
    requires HasSection(lines, s) || CleanName(s)
    ensures var once := SetLines(lines, s, k, Items(items)); SetLines(once, s, k, Items(items)) == once
  {
    AddReads(lines, s);
    var added := AddLines(lines, s);
    PutTwice(added, s, k, items);
    assert SetLines(lines, s, k, Items(items)) == PutLines(added, s, k, Items(items));
  }

  lemma PutTwice(lines: seq<string>, s: string, k: string, items: seq<string>)
    requires OneLiners(lines) && HasSection(lines, s) && CleanKey(k) && CleanItems(items)
    ensures var once := PutLines(lines, s, k, Items(items));
            HasSection(once, s) && PutLines(once, s, k, Items(items)) == once
  {
    NonBlankClean(items);
    var (start, end) := PutSpan(lines, s, k);
    var block := Render(k, Items(items), lines[start..end]);
    RenderedReads(k, Items(items), lines[start..end]);
    PutSpanAfter(lines, s, k, Items(items));
    RenderedTwice(k, items, lines[start..end]);
    SplicedTwice(lines, start, end, block);
  }

  lemma SplicedTwice(lines: seq<string>, start: nat, end: nat, block: seq<string>)
    requires start <= end <= |lines|
    ensures var once := SpliceLines(lines, start, end, block);
            once[start..start + |block|] == block && SpliceLines(once, start, start + |block|, block) == once
  {
  }
}
