// Where the comments of an existing list stand after the list is rewritten, row by row.

module CfgLayout {
  import opened Text
  import opened CfgSyntax
  import opened CfgParse
  import opened CfgEdits
  import opened CfgRender
  import opened CfgDocument
  import opened CfgLaws
  import opened CfgNotes

  predicate RowFor(row: Row, item: string) { row.Item? && row.item == item }

  // The comment lines above row n, back to the item before it; blank rows are passed over.
  function RunAbove(rows: seq<Row>, n: nat): seq<string>
    requires n <= |rows|
  {
    if n <= 1 then []
    else match rows[n - 1]
      case Nothing => RunAbove(rows, n - 1)
      case Remark(text) => RunAbove(rows, n - 1) + [text]
      case Item(_, _) => []
  }

  // The comment beside the item, in the last of its rows that has one.
  ghost predicate Beside(rows: seq<Row>, n: nat, item: string, note: string)
    requires n <= |rows|
  {
    if note == "" then forall i | 1 <= i < n && RowFor(rows[i], item) :: rows[i].comment == ""
    else exists i | 1 <= i < n ::
      rows[i] == Item(item, note) && forall j | i < j < n && RowFor(rows[j], item) :: rows[j].comment == ""
  }

  // The comment lines above the item, at the last of its rows that has any.
  ghost predicate Above(rows: seq<Row>, n: nat, item: string, notes: seq<string>)
    requires n <= |rows|
  {
    if notes == [] then forall i | 1 <= i < n && RowFor(rows[i], item) :: RunAbove(rows, i) == []
    else exists i | 1 <= i < n && RowFor(rows[i], item) ::
      RunAbove(rows, i) == notes && forall j | i < j < n && RowFor(rows[j], item) :: RunAbove(rows, j) == []
  }

  function BesideOf(rows: seq<Row>, n: nat, item: string): (note: string)
    requires n <= |rows|
    ensures Beside(rows, n, item, note)
  {
    if n <= 1 then ""
    else
      var before := BesideOf(rows, n - 1, item);
      if RowFor(rows[n - 1], item) && rows[n - 1].comment != "" then rows[n - 1].comment else before
  }

  function AboveOf(rows: seq<Row>, n: nat, item: string): (notes: seq<string>)
    requires n <= |rows|
    ensures Above(rows, n, item, notes)
  {
    if n <= 1 then []
    else
      var before := AboveOf(rows, n - 1, item);
      if RowFor(rows[n - 1], item) && RunAbove(rows, n - 1) != [] then RunAbove(rows, n - 1) else before
  }

  lemma {:induction false} DecoIs(rows: seq<Row>, n: nat, item: string)
    requires n <= |rows|
    ensures InlineOf(DecoOf(rows, n), item) == BesideOf(rows, n, item)
    ensures BeforeOf(DecoOf(rows, n), item) == AboveOf(rows, n, item)
    ensures DecoOf(rows, n).pending == RunAbove(rows, n)
  {
    if n > 1 { DecoIs(rows, n - 1, item); }
  }

  // ----- the rewritten block -----

  // The rows of one item, from a row on: its comment lines, then the item and its comment.
  predicate WrittenAt(out: seq<string>, from: nat, item: string, note: string, notes: seq<string>) {
    && from + |notes| < |out|
    && (forall j | 0 <= j < |notes| :: out[from + j] == INDENT + notes[j])
    && out[from + |notes|] == WithNote(INDENT + item, note)
  }

  // The whole block: the key's line, the items in order one right after the other, each under
  // the comments it had and beside the comment it had, and then the comments that ended the
  // old block. Item i starts at row at[i].
  ghost predicate LaidOut(out: seq<string>, key: string, items: seq<string>, existing: seq<string>, at: seq<nat>) {
    var rows, end := RowsOf(existing), |existing|;
    && |at| == |items| + 1 && at[0] == 1 && out != [] && out[0] == key + ":"
    && (forall i | 0 <= i < |items| ::
          && WrittenAt(out, at[i], items[i], BesideOf(rows, end, items[i]), AboveOf(rows, end, items[i]))
          && at[i + 1] == at[i] + |AboveOf(rows, end, items[i])| + 1)
    && |out| == at[|items|] + |RunAbove(rows, end)|
    && (forall j | 0 <= j < |RunAbove(rows, end)| :: out[at[|items|] + j] == INDENT + RunAbove(rows, end)[j])
  }

  // The first rows of a block hold the items.
  ghost predicate Laid(out: seq<string>, items: seq<string>, d: Deco, at: seq<nat>) {
    && |at| == |items| + 1 && at[0] == 1
    && forall i | 0 <= i < |items| ::
         && WrittenAt(out, at[i], items[i], InlineOf(d, items[i]), BeforeOf(d, items[i]))
         && at[i + 1] == at[i] + |BeforeOf(d, items[i])| + 1
  }

  lemma {:induction false} RowsLaid(out: seq<string>, items: seq<string>, d: Deco) returns (at: seq<nat>)
    requires 1 + |Rows(items, d)| <= |out| && out[1..1 + |Rows(items, d)|] == Rows(items, d)
    ensures Laid(out, items, d, at) && at[|items|] == 1 + |Rows(items, d)|
  {
    hide Laid, ItemRows;
    if items == [] {
      at := [1];
      NoneLaid(out, d);
    } else {
      var n := |items| - 1;
      RowsSlices(out, Rows(items[..n], d), ItemRows(items[n], d));
      at := RowsLaid(out, items[..n], d);
      LaidSize(out, items[..n], d, at);
      ItemLaid(out, at[n], items[n], d);
      LaidMore(out, items[..n], items[n], d, at);
      assert items[..n] + [items[n]] == items;
      at := at + [at[n] + |ItemRows(items[n], d)|];
    }
  }

  lemma NoneLaid(out: seq<string>, d: Deco)
    ensures Laid(out, [], d, [1])
  {
  }

  lemma LaidSize(out: seq<string>, items: seq<string>, d: Deco, at: seq<nat>)
    requires Laid(out, items, d, at)
    ensures |at| == |items| + 1
  {
  }

  lemma LaidMore(out: seq<string>, items: seq<string>, item: string, d: Deco, at: seq<nat>)
    requires Laid(out, items, d, at)
    requires WrittenAt(out, at[|items|], item, InlineOf(d, item), BeforeOf(d, item))
    ensures Laid(out, items + [item], d, at + [at[|items|] + |ItemRows(item, d)|])
  {
    hide WrittenAt, InlineOf, BeforeOf;
  }

  lemma ItemLaid(out: seq<string>, from: nat, item: string, d: Deco)
    requires from + |ItemRows(item, d)| <= |out| && out[from..from + |ItemRows(item, d)|] == ItemRows(item, d)
    ensures WrittenAt(out, from, item, InlineOf(d, item), BeforeOf(d, item))
  {
    hide WithNote;
    var m := |ItemRows(item, d)|;
    forall j | 0 <= j < m ensures out[from + j] == ItemRows(item, d)[j] {
      assert out[from + j] == out[from..from + m][j];
    }
  }

  lemma BlockLaid(out: seq<string>, items: seq<string>, d: Deco) returns (at: seq<nat>)
    requires out != [] && out[1..] == Rows(items, d) + NoteRows(d.pending)
    ensures Laid(out, items, d, at) && |out| == at[|items|] + |d.pending|
    ensures forall j | 0 <= j < |d.pending| :: out[at[|items|] + j] == INDENT + d.pending[j]
  {
    hide Laid, Rows;
    var rows, m := Rows(items, d), 1 + |Rows(items, d)|;
    assert out[1..m] == out[1..][..m - 1] == rows;
    at := RowsLaid(out, items, d);
    LaidSize(out, items, d, at);
    forall j | 0 <= j < |d.pending| ensures out[m + j] == INDENT + d.pending[j] {
      assert out[m + j] == out[1..][m - 1 + j] == NoteRows(d.pending)[j];
    }
  }

  // Rewriting a list that is not empty, over any lines that were there.
  lemma NotesKept(key: string, items: seq<string>, existing: seq<string>)
    requires CleanItems(items) && items != []
    ensures exists at :: LaidOut(Render(key, Items(items), existing), key, items, existing, at)
  {
    hide Laid, LaidOut, Rows, NoteRows, CleanItems, Decoration;
    NonBlankClean(items);
    var d, out := Decoration(existing), Render(key, Items(items), existing);
    assert out[1..] == Rows(items, d) + NoteRows(d.pending);
    var at := BlockLaid(out, items, d);
    LaidSize(out, items, d, at);
    DecoLaid(out, key, items, existing, at);
  }

  lemma DecoLaid(out: seq<string>, key: string, items: seq<string>, existing: seq<string>, at: seq<nat>)
    requires out != [] && out[0] == key + ":"
    requires var d := Decoration(existing);
             && Laid(out, items, d, at) && |out| == at[|items|] + |d.pending|
             && forall j | 0 <= j < |d.pending| :: out[at[|items|] + j] == INDENT + d.pending[j]
    ensures LaidOut(out, key, items, existing, at)
  {
    hide BesideOf, AboveOf, RunAbove, InlineOf, BeforeOf, DecoOf, WrittenAt, RowOf;
    var rows, d := RowsOf(existing), Decoration(existing);
    DecoIs(rows, |existing|, "");
    forall i | 0 <= i < |items| ensures InlineOf(d, items[i]) == BesideOf(rows, |existing|, items[i])
                                     && BeforeOf(d, items[i]) == AboveOf(rows, |existing|, items[i]) {
      DecoIs(rows, |existing|, items[i]);
    }
  }

  // An item given once: its own comment, and the comment lines right above its own row.
  lemma OnceMeans(rows: seq<Row>, n: nat, i: nat)
    requires 1 <= i < n <= |rows| && rows[i].Item?
    requires forall j | 1 <= j < n && RowFor(rows[j], rows[i].item) :: j == i
    ensures BesideOf(rows, n, rows[i].item) == rows[i].comment
    ensures AboveOf(rows, n, rows[i].item) == RunAbove(rows, i)
  {
    var item := rows[i].item;
    assert RowFor(rows[i], item);
    assert Beside(rows, n, item, BesideOf(rows, n, item));
    assert Above(rows, n, item, AboveOf(rows, n, item));
  }

  // Comment lines standing one under the other above a row, with an item or the key's line
  // over them, are its run.
  lemma {:induction false} RunIs(rows: seq<Row>, i: nat, n: nat)
    requires 1 <= i <= n <= |rows| && (i == 1 || rows[i - 1].Item?)
    requires forall j | i <= j < n :: rows[j].Remark?
    ensures RunAbove(rows, n) == seq(n - i, j requires 0 <= j < n - i => rows[i + j].text)
  {
    if i < n { RunIs(rows, i, n - 1); }
  }

  // So a row of the old block that is the only one for its item, where the item is still in
  // the list, is a row of the new block, right under the same comment lines.
  lemma RowKept(key: string, items: seq<string>, existing: seq<string>, i: nat)
    requires CleanItems(items) && 1 <= i < |existing|
    requires var row := RowOf(existing[i]); row.Item? && row.item in items
    requires forall j | 1 <= j < |existing| && RowFor(RowOf(existing[j]), RowOf(existing[i]).item) :: j == i
    ensures var row := RowOf(existing[i]);
            exists from: nat :: from >= 1 &&
              WrittenAt(Render(key, Items(items), existing), from, row.item, row.comment, RunAbove(RowsOf(existing), i))
  {
    hide BesideOf, AboveOf, RunAbove, WrittenAt, RowOf;
    NotesKept(key, items, existing);
    OnceMeans(RowsOf(existing), |existing|, i);
    var at :| LaidOut(Render(key, Items(items), existing), key, items, existing, at);
    var k :| 0 <= k < |items| && items[k] == RowOf(existing[i]).item;
    AtGrows(Render(key, Items(items), existing), key, items, existing, at, k);
  }

  lemma {:induction false} AtGrows(out: seq<string>, key: string, items: seq<string>, existing: seq<string>,
                                   at: seq<nat>, k: nat)
    requires LaidOut(out, key, items, existing, at) && k <= |items|
    ensures at[k] >= 1
  {
    hide BesideOf, AboveOf, RunAbove, WrittenAt, RowOf;
    if k > 0 { AtGrows(out, key, items, existing, at, k - 1); }
  }

  // The same in a whole document: the option's rows are laid out so, and no row outside them
  // moves or changes.
  lemma SetListKeepsNotes(lines: seq<string>, s: string, k: string, items: seq<string>)
    requires OneLiners(lines) && CleanKey(k) && CleanItems(items) && items != []
    requires HasSection(lines, s) || CleanName(s)
    ensures var added, now := AddLines(lines, s), SetLines(lines, s, k, Items(items));
            && HasSection(added, s) && HasSection(now, s)
            && var (start, end) := PutSpan(added, s, k);
            var (nowStart, nowEnd) := PutSpan(now, s, k);
            && nowStart == start && now[..start] == added[..start] && now[nowEnd..] == added[end..]
            && exists at :: LaidOut(now[start..nowEnd], k, items, added[start..end], at)
  {
    hide LaidOut, CleanItems, OneLiners, CleanKey, CleanName, PutLines, HasSection, PutSpan, AddLines, Render, Kinds,
         IsBlock;
    AddReads(lines, s);
    var added := AddLines(lines, s);
    SetIsPut(lines, s, k, Items(items));
    ListPlaced(added, s, k, items);
  }

  lemma SetIsPut(lines: seq<string>, s: string, k: string, value: Value)
    requires HasSection(AddLines(lines, s), s)
    ensures SetLines(lines, s, k, value) == PutLines(AddLines(lines, s), s, k, value)
  {
  }

  lemma ListPlaced(lines: seq<string>, s: string, k: string, items: seq<string>)
    requires OneLiners(lines) && HasSection(lines, s) && CleanKey(k) && CleanItems(items) && items != []
    ensures var now := PutLines(lines, s, k, Items(items));
            && HasSection(now, s)
            && var (start, end) := PutSpan(lines, s, k);
            var (nowStart, nowEnd) := PutSpan(now, s, k);
            && nowStart == start && now[..start] == lines[..start] && now[nowEnd..] == lines[end..]
            && exists at :: LaidOut(now[start..nowEnd], k, items, lines[start..end], at)
  {
    hide LaidOut, CleanItems, CleanKey, PutSpan, Kinds, IsBlock, BlockValue, HasSection, Render;
    var (start, end) := PutSpan(lines, s, k);
    NonBlankClean(items);
    SlicesOneLiners(lines, start, end);
    RenderedReads(k, Items(items), lines[start..end]);
    PutSpanAfter(lines, s, k, Items(items));
    NotesKept(k, items, lines[start..end]);
    BlockStands(lines, start, end, Render(k, Items(items), lines[start..end]));
  }

  lemma SlicesOneLiners(lines: seq<string>, start: nat, end: nat)
    requires OneLiners(lines) && start <= end <= |lines|
    ensures OneLiners(lines[start..end])
  {
  }

  lemma BlockStands(lines: seq<string>, start: nat, end: nat, block: seq<string>)
    requires start <= end <= |lines|
    ensures var now := SpliceLines(lines, start, end, block);
            var nowEnd := start + |block|;
            && nowEnd <= |now| && now[start..nowEnd] == block
            && now[..start] == lines[..start] && now[nowEnd..] == lines[end..]
  {
  }
}
