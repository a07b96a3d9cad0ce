// The lines an option is written as, and the comments a rewrite carries over.

module CfgRender {
  import opened Text
  import opened CfgSyntax
  import opened CfgParse

  // ----- the comments a block already carries -----

  datatype Deco = Deco(inline: map<string, string>, before: map<string, seq<string>>, pending: seq<string>)

  const PLAIN := Deco(map[], map[], [])

  // What one row of an existing block is to the comments around it.
  datatype Row = Remark(text: string) | Item(item: string, comment: string) | Nothing

  function RowOf(raw: string): Row {
    var text := Strip(raw);
    if text == "" then Nothing
    else if IsComment(raw) then Remark(text)
    else
      var item := StripNote(text);
      if item == "" then Nothing else Item(item, Strip(text[|item|..]))
  }

  function RowsOf(lines: seq<string>): (rows: seq<Row>)
    ensures |rows| == |lines| && forall i | 0 <= i < |lines| :: rows[i] == RowOf(lines[i])
  {
    seq(|lines|, i requires 0 <= i < |lines| => RowOf(lines[i]))
  }

  function DecoStep(d: Deco, row: Row): Deco {
    match row
    case Nothing => d
    case Remark(text) => d.(pending := d.pending + [text])
    case Item(item, comment) =>
      Deco(if comment != "" then d.inline[item := comment] else d.inline,
           if d.pending != [] then d.before[item := d.pending] else d.before,
           [])
  }

  // The comments met in the first n rows; the row at 0 is the "key:" line itself.
  function DecoOf(rows: seq<Row>, n: nat): Deco
    requires n <= |rows|
  {
    if n <= 1 then PLAIN else DecoStep(DecoOf(rows, n - 1), rows[n - 1])
  }

  function Decoration(existing: seq<string>): Deco { DecoOf(RowsOf(existing), |existing|) }

  ghost predicate NotesOnly(d: Deco) {
    && (forall item | item in d.inline :: IsNote(d.inline[item]))
    && (forall item | item in d.before :: AllNotes(d.before[item]))
    && AllNotes(d.pending)
  }

  predicate AllNotes(notes: seq<string>) { forall i | 0 <= i < |notes| :: IsNote(notes[i]) }

  predicate NoteRow(row: Row) {
    (row.Remark? ==> IsNote(row.text)) && (row.Item? ==> row.comment == "" || IsNote(row.comment))
  }

  lemma RowNotes(raw: string)
    requires OneLine(raw)
    ensures NoteRow(RowOf(raw))
  {
    var text := Strip(raw);
    assert OneLine(text) by { StripIsTrimmed(raw); }
    if text != "" {
      if IsComment(raw) {
        assert IsNote(text) by { StripIsTrimmed(raw); RStripShape(LStrip(raw)); }
      } else {
        RestIsNote(text);
      }
    }
  }

  lemma {:induction false} RowsNotes(rows: seq<Row>, n: nat)
    requires n <= |rows| && forall i | 0 <= i < |rows| :: NoteRow(rows[i])
    ensures NotesOnly(DecoOf(rows, n))
  {
    if n > 1 { RowsNotes(rows, n - 1); }
  }

  lemma DecoNotes(existing: seq<string>)
    requires OneLiners(existing)
    ensures NotesOnly(Decoration(existing))
  {
    forall i | 0 <= i < |existing| ensures NoteRow(RowsOf(existing)[i]) { RowNotes(existing[i]); }
    RowsNotes(RowsOf(existing), |existing|);
  }

  // ----- rendering -----

  // The comment a one-line value already had beside it.
  function KeptNote(existing: seq<string>): string {
    if |existing| != 1 then "" else
      var body := AfterFirst('=', AfterFirst(':', existing[0]));
      var stripped := StripNote(body);
      Strip(body[|stripped|..])
  }

  // str.split(c, 1)[-1]
  function AfterFirst(c: char, s: string): (r: string)
    ensures OneLine(s) ==> OneLine(r)
  {
    var n := Find(s, {c}, 0);
    if n == |s| then s else s[n + 1..]
  }

  function WithNote(text: string, note: string): string { text + if note != "" then "  " + note else "" }

  function NoteRows(notes: seq<string>): (rows: seq<string>)
    ensures |rows| == |notes|
    ensures forall i | 0 <= i < |notes| :: rows[i] == INDENT + notes[i]
  {
    if notes == [] then [] else NoteRows(notes[..|notes| - 1]) + [INDENT + notes[|notes| - 1]]
  }

  function InlineOf(d: Deco, item: string): string { if item in d.inline then d.inline[item] else "" }

  function BeforeOf(d: Deco, item: string): seq<string> { if item in d.before then d.before[item] else [] }

  function ItemRows(item: string, d: Deco): seq<string> {
    NoteRows(BeforeOf(d, item)) + [WithNote(INDENT + item, InlineOf(d, item))]
  }

  function Rows(items: seq<string>, d: Deco): seq<string> {
    if items == [] then [] else Rows(items[..|items| - 1], d) + ItemRows(items[|items| - 1], d)
  }

  function RenderBlock(key: string, items: seq<string>, d: Deco): seq<string> {
    if items == [] then [key + ":"] else [key + ":"] + (Rows(items, d) + NoteRows(d.pending))
  }

  datatype Value = TextValue(text: string) | Items(items: seq<string>)

  function NonBlank(items: seq<string>): seq<string> {
    if items == [] then [] else
      var rest := NonBlank(items[..|items| - 1]);
      if Strip(items[|items| - 1]) != "" then rest + [items[|items| - 1]] else rest
  }

  // The stripped, non-empty lines of a text.
  function ListOf(text: string): seq<string> { StripAll(SplitLines(text)) }

  function StripAll(parts: seq<string>): seq<string> {
    if parts == [] then [] else
      var rest := StripAll(parts[1..]);
      if Strip(parts[0]) != "" then [Strip(parts[0])] + rest else rest
  }

  // The list a value is written as, or None when it is written on the key's own line.
  function ItemsOf(value: Value): Option<seq<string>> {
    match value
    case Items(items) => Some(NonBlank(items))
    case TextValue(text) => if OneLine(text) then None else Some(ListOf(text))
  }

  function Render(key: string, value: Value, existing: seq<string>): seq<string> {
    var items := ItemsOf(value);
    if items.Some? then RenderBlock(key, items.value, Decoration(existing))
    else [WithNote(key + ": " + value.text, KeptNote(existing))]
  }

  // ----- reading it back -----

  function Kinds(lines: seq<string>): (kinds: seq<Line>)
    ensures |kinds| == |lines|
    ensures forall i | 0 <= i < |lines| :: kinds[i] == Classify(lines[i])
  {
    seq(|lines|, i requires 0 <= i < |lines| => Classify(lines[i]))
  }

  function Joined(items: seq<string>): string {
    if items == [] then "" else Joined(items[..|items| - 1]) + "\n" + items[|items| - 1]
  }

  predicate CleanItems(items: seq<string>) { forall i | 0 <= i < |items| :: CleanItem(items[i]) }

  // What the document can hold: a clean one-line text, or clean non-empty items.
  predicate CleanValue(value: Value) {
    if ItemsOf(value).Some? then CleanItems(ItemsOf(value).value) else Clean(value.text)
  }

  // The text a clean value reads back as.
  function TextOf(value: Value): string {
    if ItemsOf(value).Some? then Joined(ItemsOf(value).value) else value.text
  }

  lemma KindsConcat(a: seq<string>, b: seq<string>)
    ensures Kinds(a + b) == Kinds(a) + Kinds(b)
  {
  }

  lemma {:induction false} BlockValueNotes(block: seq<Line>, notes: seq<Line>)
    requires block != [] && block[0].Entry?
    requires forall i | 0 <= i < |notes| :: notes[i] == Note(true)
    ensures BlockValue(block + notes) == BlockValue(block)
  {
    if notes == [] {
      assert block + notes == block;
    } else {
      var n := |notes| - 1;
      assert (block + notes)[..|block| + n] == block + notes[..n];
      BlockValueNotes(block, notes[..n]);
    }
  }

  lemma NoteRowsKinds(notes: seq<string>)
    requires AllNotes(notes)
    ensures forall i | 0 <= i < |notes| :: Kinds(NoteRows(notes))[i] == Note(true)
  {
    forall i | 0 <= i < |notes| ensures Kinds(NoteRows(notes))[i] == Note(true) { NoteLine(notes[i]); }
  }

  lemma ItemRowsRead(block: seq<Line>, key: string, item: string, d: Deco)
    requires IsBlock(block, key) && CleanItem(item) && NotesOnly(d)
    ensures var b := block + Kinds(ItemRows(item, d));
            IsBlock(b, key) && BlockValue(b) == BlockValue(block) + "\n" + item
  {
    hide CleanItem, Kinds, NoteRows, IsBlock, BlockValue, BeforeOf, InlineOf, NotesOnly;
    var notes := Kinds(NoteRows(BeforeOf(d, item)));
    var row := WithNote(INDENT + item, InlineOf(d, item));
    DecoNotesOf(d, item);
    NoteRowsKinds(BeforeOf(d, item));
    NotesEnd(block, notes, key);
    RowKind(item, InlineOf(d, item));
    KindsConcat(NoteRows(BeforeOf(d, item)), [row]);
    ItemEnd(block + notes, item, key);
    assert block + Kinds(ItemRows(item, d)) == (block + notes) + [More(item)];
  }

  lemma DecoNotesOf(d: Deco, item: string)
    requires NotesOnly(d)
    ensures AllNotes(BeforeOf(d, item)) && (InlineOf(d, item) == "" || IsNote(InlineOf(d, item)))
  {
  }

  lemma RowKind(item: string, note: string)
    requires CleanItem(item) && (note == "" || IsNote(note))
    ensures Kinds([WithNote(INDENT + item, note)]) == [More(item)]
  {
    hide Classify, CleanItem;
    ItemLine(item, note);
    assert WithNote(INDENT + item, note) == INDENT + item + (if note != "" then "  " + note else "");
  }

  // One more item line: one more line of the value.
  lemma ItemEnd(block: seq<Line>, item: string, key: string)
    requires IsBlock(block, key) && CleanItem(item)
    ensures IsBlock(block + [More(item)], key) && BlockValue(block + [More(item)]) == BlockValue(block) + "\n" + item
  {
    var b := block + [More(item)];
    assert b[..|b| - 1] == block;
  }

  lemma RowsKinds(items: seq<string>, d: Deco)
    requires items != []
    ensures var n := |items| - 1;
            Kinds(Rows(items, d)) == Kinds(Rows(items[..n], d)) + Kinds(ItemRows(items[n], d))
  {
    KindsConcat(Rows(items[..|items| - 1], d), ItemRows(items[|items| - 1], d));
  }

  lemma {:induction false} RowsRead(key: string, items: seq<string>, d: Deco)
    requires CleanKey(key) && CleanItems(items) && NotesOnly(d)
    ensures var b := [Entry(key, "")] + Kinds(Rows(items, d));
            IsBlock(b, key) && BlockValue(b) == Joined(items)
  {
    hide CleanItem, NotesOnly, ItemRows, Classify, CleanKey;
    var head := [Entry(key, "")];
    if items == [] {
      assert head + Kinds(Rows(items, d)) == head;
    } else {
      var n := |items| - 1;
      var before, last := Kinds(Rows(items[..n], d)), Kinds(ItemRows(items[n], d));
      RowsRead(key, items[..n], d);
      ItemRowsRead(head + before, key, items[n], d);
      assert head + Kinds(Rows(items, d)) == head + before + last by { RowsKinds(items, d); }
    }
  }

  lemma BlockReads(key: string, items: seq<string>, d: Deco)
    requires CleanKey(key) && CleanItems(items) && NotesOnly(d)
    ensures var b := Kinds(RenderBlock(key, items, d)); IsBlock(b, key) && BlockValue(b) == Joined(items)
  {
    hide CleanItem, NotesOnly, Classify, CleanKey, Kinds, Rows, NoteRows, IsBlock, BlockValue;
    HeadKind(key);
    RowsRead(key, items, d);
    if items == [] {
      NoRowKinds(d);
    } else {
      var notes := Kinds(NoteRows(d.pending));
      PendingNotes(d);
      NoteRowsKinds(d.pending);
      KindsConcat([key + ":"], Rows(items, d) + NoteRows(d.pending));
      KindsConcat(Rows(items, d), NoteRows(d.pending));
      NotesEnd([Entry(key, "")] + Kinds(Rows(items, d)), notes, key);
      assert Kinds(RenderBlock(key, items, d)) == [Entry(key, "")] + Kinds(Rows(items, d)) + notes;
    }
  }

  lemma HeadKind(key: string)
    requires CleanKey(key)
    ensures Kinds([key + ":"]) == [Entry(key, "")]
  {
    hide Classify, CleanKey;
    BareLine(key);
  }

  lemma NoRowKinds(d: Deco)
    ensures Kinds(Rows([], d)) == []
    ensures forall head: seq<Line> :: head + Kinds(Rows([], d)) == head
  {
  }

  lemma PendingNotes(d: Deco)
    requires NotesOnly(d)
    ensures AllNotes(d.pending)
  {
  }

  // Comment lines after a block belong to it and say nothing.
  lemma NotesEnd(block: seq<Line>, notes: seq<Line>, key: string)
    requires IsBlock(block, key) && forall i | 0 <= i < |notes| :: notes[i] == Note(true)
    ensures IsBlock(block + notes, key) && BlockValue(block + notes) == BlockValue(block)
  {
    hide BlockValue;
    BlockValueNotes(block, notes);
  }

  lemma KeptNoteIsNote(existing: seq<string>)
    requires OneLiners(existing)
    ensures KeptNote(existing) == "" || IsNote(KeptNote(existing))
  {
    if |existing| == 1 { RestIsNote(AfterFirst('=', AfterFirst(':', existing[0]))); }
  }

  // A clean value, rendered over any existing lines, is one block that reads as it.
  lemma RenderedReads(key: string, value: Value, existing: seq<string>)
    requires CleanKey(key) && CleanValue(value) && OneLiners(existing)
    ensures var b := Kinds(Render(key, value, existing)); IsBlock(b, key) && BlockValue(b) == TextOf(value)
  {
    if ItemsOf(value).Some? {
      DecoNotes(existing);
      BlockReads(key, ItemsOf(value).value, Decoration(existing));
    } else {
      KeptNoteIsNote(existing);
      var note := KeptNote(existing);
      TextLine(key, value.text, note);
      assert WithNote(key + ": " + value.text, note)
          == key + ": " + value.text + (if note != "" then "  " + note else "");
    }
  }

  // ----- lists survive the trip through one text -----

  lemma {:induction false} StripAllConcat(a: seq<string>, b: seq<string>)
    ensures StripAll(a + b) == StripAll(a) + StripAll(b)
  {
    if a == [] {
      assert a + b == b;
    } else {
      assert (a + b)[1..] == a[1..] + b;
      StripAllConcat(a[1..], b);
    }
  }

  lemma {:induction false} SplitAppend(text: string, last: string)
    requires OneLine(last) && last != ""
    ensures StripAll(SplitLines(text + "\n" + last)) == StripAll(SplitLines(text)) + StripAll([last])
    decreases |text|
  {
    assert SplitLines(last) == [last];
    if OneLine(text) {
      SplitAtBreak(text, last);
      assert StripAll([text] + [last]) == StripAll([text]) + StripAll([last]) by { StripAllConcat([text], [last]); }
      if text == "" { assert Strip("") == ""; }
    } else {
      var n := LineBreak(text);
      var a, rest := text[..n], text[n + 1..];
      assert text + "\n" + last == a + "\n" + (rest + "\n" + last) by { assert text == a + "\n" + rest; }
      SplitAtBreak(a, rest + "\n" + last);
      SplitAppend(rest, last);
      StripAllConcat([a], SplitLines(rest + "\n" + last));
      StripAllConcat([a], SplitLines(rest));
    }
  }

  // get_list gives back the items a block was written from.
  lemma {:induction false} ListOfJoined(items: seq<string>)
    requires CleanItems(items)
    ensures ListOf(Joined(items)) == items
  {
    hide Strip, SplitLines, StripAll, Trimmed, StartsNote;
    if items == [] {
      NothingListed();
    } else {
      var n := |items| - 1;
      ListOfJoined(items[..n]);
      SplitAppend(Joined(items[..n]), items[n]);
      OneStripped(items[n]);
      assert items == items[..n] + [items[n]];
    }
  }

  lemma NothingListed()
    ensures ListOf("") == []
  {
  }

  lemma OneStripped(item: string)
    requires CleanItem(item)
    ensures StripAll([item]) == [item] && OneLine(item) && item != ""
  {
    hide Strip;
    StripIsTrimmed(item);
    assert [item][1..] == [];
  }

  lemma {:induction false} NonBlankClean(items: seq<string>)
    requires CleanItems(items)
    ensures NonBlank(items) == items
  {
    hide Strip, CleanItem;
    if items != [] {
      var n := |items| - 1;
      NonBlankClean(items[..n]);
      assert Strip(items[n]) != "" by { OneNonBlank(items[n]); }
      assert items == items[..n] + [items[n]];
    }
  }

  lemma OneNonBlank(item: string)
    requires CleanItem(item)
    ensures Strip(item) != ""
  {
    hide Strip;
    StripIsTrimmed(item);
  }
}
