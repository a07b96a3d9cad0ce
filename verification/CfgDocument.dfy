// A .cfg document that survives being written back: the lines, the index over them, and
// edits that splice lines and parse again.

module CfgDocument {
  import opened Text
  import opened CfgSyntax
  import opened CfgParse
  import opened CfgEdits
  import opened CfgRender

  function ParseLines(lines: seq<string>): State { Final(Kinds(lines)) }

  function Lookup(lines: seq<string>, s: string, k: string): Option<string> { Get(ParseLines(lines), s, k) }

  // Lines that give key k in the section that answers to s; the first one counts.
  function CopiesOf(lines: seq<string>, s: string, k: string): nat { Count(Kinds(lines), s, k) }

  predicate HasSection(lines: seq<string>, s: string) { s in ParseLines(lines).sections }

  // ----- the lines each edit leaves -----

  function SpliceLines(lines: seq<string>, start: nat, end: nat, block: seq<string>): seq<string>
    requires start <= end <= |lines|
  {
    lines[..start] + block + lines[end..]
  }

  function BackOverBlanks(lines: seq<string>, low: nat, at: nat): (n: nat)
    requires low <= at <= |lines|
    ensures low <= n <= at
    ensures forall j | n <= j < at :: IsBlank(lines[j])
  {
    if at > low && IsBlank(lines[at - 1]) then BackOverBlanks(lines, low, at - 1) else at
  }

  lemma BackStops(lines: seq<string>, low: nat, at: nat)
    requires low <= at <= |lines|
    ensures var n := BackOverBlanks(lines, low, at); n > low ==> !IsBlank(lines[n - 1])
  {
    hide IsBlank;
  }

  function SectionOf(lines: seq<string>, s: string): (sec: Sec)
    requires HasSection(lines, s)
    ensures sec.header < sec.end <= |lines|
  {
    SectionsPlaced(Kinds(lines), |lines|, s);
    ParseLines(lines).sections[s]
  }

  // The lines a new value replaces: the option's own, or none after the section's last
  // non-blank line.
  function PutSpan(lines: seq<string>, s: string, k: string): (span: (nat, nat))
    requires HasSection(lines, s)
    ensures span.0 <= span.1 <= |lines|
  {
    if HasOption(Kinds(lines), s, k) then
      var opt := OptionOf(Kinds(lines), s, k);
      (opt.start, opt.end)
    else
      var sec := SectionOf(lines, s);
      var at := BackOverBlanks(lines, sec.header + 1, sec.end);
      (at, at)
  }

  function PutLines(lines: seq<string>, s: string, k: string, value: Value): seq<string>
    requires HasSection(lines, s)
  {
    var (start, end) := PutSpan(lines, s, k);
    SpliceLines(lines, start, end, Render(k, value, lines[start..end]))
  }

  function AddLines(lines: seq<string>, s: string): seq<string> {
    if HasSection(lines, s) then lines
    else lines + (if lines != [] && !IsBlank(lines[|lines| - 1]) then [""] else []) + ["[" + s + "]"]
  }

  // A new section whose header does not parse back leaves the header and raises KeyError.
  function SetLines(lines: seq<string>, s: string, k: string, value: Value): seq<string> {
    var added := AddLines(lines, s);
    if HasSection(added, s) then PutLines(added, s, k, value) else added
  }

  function RemoveLines(lines: seq<string>, s: string, k: string): seq<string> {
    if HasOption(Kinds(lines), s, k) then
      var opt := OptionOf(Kinds(lines), s, k);
      SpliceLines(lines, opt.start, opt.end, [])
    else lines
  }

  function HeaderRest(line: string): string {
    var close := Find(line, {']'}, 0);
    if close == |line| then "" else line[close + 1..]
  }

  function RenameLines(lines: seq<string>, was: string, now: string): seq<string> {
    if HasSection(lines, was) && !HasSection(lines, now) then
      var sec := SectionOf(lines, was);
      SpliceLines(lines, sec.header, sec.header + 1, ["[" + now + "]" + HeaderRest(lines[sec.header])])
    else lines
  }

  function RenderText(lines: seq<string>): string {
    var text := JoinLines(lines);
    if text == "" || text[|text| - 1] == '\n' then text else text + "\n"
  }

  lemma SpliceEnd(lines: seq<string>, block: seq<string>)
    ensures SpliceLines(lines, |lines|, |lines|, block) == lines + block
  {
  }

  lemma SpanOfOption(lines: seq<string>, s: string, k: string)
    requires HasSection(lines, s) && k in ParseLines(lines).sections[s].options
    ensures var opt := ParseLines(lines).sections[s].options[k];
            PutSpan(lines, s, k) == (opt.start, opt.end) && opt.start <= opt.end <= |lines|
  {
    hide HasOption, OptionOf, SectionOf, BackOverBlanks, ParseLines, Kinds, IsBlank;
    IndexedAt(lines, s, k);
  }

  lemma SpanOfNew(lines: seq<string>, s: string, k: string)
    requires HasSection(lines, s) && k !in ParseLines(lines).sections[s].options
    ensures var sec := ParseLines(lines).sections[s];
            && sec.header < sec.end <= |lines|
            && var at := BackOverBlanks(lines, sec.header + 1, sec.end); PutSpan(lines, s, k) == (at, at)
  {
    hide HasOption, OptionOf, SectionOf, BackOverBlanks, ParseLines, Kinds, IsBlank;
    IndexedAt(lines, s, k);
  }

  lemma IndexedAt(lines: seq<string>, s: string, k: string)
    requires HasSection(lines, s)
    ensures var sec := ParseLines(lines).sections[s];
            && SectionOf(lines, s) == sec
            && (HasOption(Kinds(lines), s, k) <==> k in sec.options)
            && (k in sec.options ==> OptionOf(Kinds(lines), s, k) == sec.options[k])
  {
    hide After, Kinds;
  }

  // ----- the document object -----

  datatype Outcome = Done(changed: bool) | Frozen | NoSuchSection

  class CfgDocument {
    var lines: seq<string>
    var sections: map<string, Sec>
    var duplicateSections: seq<string>
    var frozen: bool

    // The index always is the parse of the lines.
    ghost predicate Valid()
      reads this
    {
      sections == ParseLines(lines).sections && duplicateSections == ParseLines(lines).duplicates
    }

    constructor (text: string)
      ensures Valid() && lines == SplitLines(text) && !frozen
    {
      lines := SplitLines(text);
      sections, duplicateSections, frozen := map[], [], false;
      new;
      Parse();
    }

    method Parse()
      modifies this`sections, this`duplicateSections
      ensures Valid()
    {
      sections, duplicateSections := map[], [];
      var current, option := Nowhere, NoKey;
      for index := 0 to |lines|
        invariant State(sections, duplicateSections, current, option) == After(Kinds(lines), index)
      {
        current, option := ParseLine(index, lines[index], current, option);
      }
    }

    // The loop body of the parser. The branches are tried in this order.
    method ParseLine(index: nat, line: string, current: Place, option: OnKey) returns (place: Place, on: OnKey)
      requires Sound(State(sections, duplicateSections, current, option))
      modifies this`sections, this`duplicateSections
      ensures State(sections, duplicateSections, place, on)
           == Step(old(State(sections, duplicateSections, current, option)), index, Classify(line))
    {
      hide HeaderName, IsComment, IsBlank, StripNote, Strip, Find;
      var name := HeaderName(line);
      if name.Some? {
        var live := name.value !in sections;
        if live {
          sections := sections[name.value := Sec(index, index + 1, map[])];
        } else if name.value !in duplicateSections {
          duplicateSections := duplicateSections + [name.value];
        }
        return At(name.value, live), NoKey;
      }
      if current.Nowhere? {
        return current, option;
      }
      if current.live {
        var sec := sections[current.name];
        sections := sections[current.name := Sec(sec.header, index + 1, sec.options)];
      }
      if IsComment(line) {
        if option.Key? && IsContinuation(line) {
          Extend(index, "", current, option);
          return current, option;
        }
        return current, NoKey;
      }
      if IsBlank(line) {
        return current, NoKey;
      }
      if option.Key? && IsContinuation(line) {
        Extend(index, StripNote(Strip(line)), current, option);
        return current, option;
      }
      var entry := EntryParts(line);
      if entry.Some? {
        var (key, value) := entry.value;
        var live := current.live && key !in sections[current.name].options;
        if live {
          var sec := sections[current.name];
          sections := sections[current.name :=
            Sec(sec.header, sec.end, sec.options[key := Opt(index, index + 1, value)])];
        }
        return current, Key(key, live);
      }
      return current, NoKey;
    }

    // Takes line index into the open option, and its text if it has one.
    method Extend(index: nat, item: string, current: Place, option: OnKey)
      requires Sound(State(sections, duplicateSections, current, option)) && option.Key?
      requires current.live ==> sections[current.name].end == index + 1
      modifies this`sections
      ensures State(sections, duplicateSections, current, option)
           == StepFold(old(State(sections, duplicateSections, current, option)), index, More(item))
    {
      if option.live {
        var sec := sections[current.name];
        var opt := sec.options[option.key];
        var value := if item != "" then opt.value + "\n" + item else opt.value;
        sections := sections[current.name :=
          Sec(sec.header, sec.end, sec.options[option.key := Opt(opt.start, index + 1, value)])];
      } else if current.live {
        var sec := sections[current.name];
        assert sections == sections[current.name := sec.(end := index + 1)];
      }
    }

    function Read(s: string, k: string): (r: Option<string>)
      reads this
      requires Valid()
      ensures r == Lookup(lines, s, k)
    {
      if s in sections && k in sections[s].options then Some(sections[s].options[k].value) else None
    }

    method Splice(start: nat, end: nat, replacement: seq<string>) returns (ok: bool)
      requires Valid() && start <= end <= |lines|
      modifies this
      ensures Valid() && frozen == old(frozen) && ok == !frozen
      ensures lines == if ok then SpliceLines(old(lines), start, end, replacement) else old(lines)
    {
      if frozen {
        return false;
      }
      lines := lines[..start] + replacement + lines[end..];
      Parse();
      ok := true;
    }

    method AddSection(name: string) returns (r: Outcome)
      requires Valid()
      modifies this
      ensures Valid() && frozen == old(frozen)
      ensures r == if HasSection(old(lines), name) then Done(false) else if frozen then Frozen else Done(true)
      ensures lines == if r == Done(true) then AddLines(old(lines), name) else old(lines)
    {
      hide ParseLines, IsBlank;
      if name in sections {
        return Done(false);
      }
      var block := [];
      if lines != [] && !IsBlank(lines[|lines| - 1]) {
        block := block + [""];
      }
      block := block + ["[" + name + "]"];
      var ok := Splice(|lines|, |lines|, block);
      r := if ok then Done(true) else Frozen;
      SpliceEnd(old(lines), block);
    }

    method Set(s: string, k: string, value: Value) returns (r: Outcome)
      requires Valid()
      modifies this
      ensures Valid() && frozen == old(frozen)
      ensures lines == if frozen then old(lines) else SetLines(old(lines), s, k, value)
      ensures r == if frozen then Frozen
                   else if HasSection(AddLines(old(lines), s), s) then Done(true) else NoSuchSection
    {
      if s !in sections {
        var added := AddSection(s);
        if added == Frozen {
          return Frozen;
        }
        if s !in sections {
          return NoSuchSection;
        }
      }
      r := Put(s, k, value);
    }

    // The part of set that finds the section there.
    method Put(s: string, k: string, value: Value) returns (r: Outcome)
      requires Valid() && HasSection(lines, s)
      modifies this
      ensures Valid() && frozen == old(frozen)
      ensures r == if frozen then Frozen else Done(true)
      ensures lines == if frozen then old(lines) else PutLines(old(lines), s, k, value)
    {
      var start, end := Span(s, k);
      var rendered := RenderLines(k, value, lines[start..end]);
      var ok := Splice(start, end, rendered);
      r := if ok then Done(true) else Frozen;
    }

    method Span(s: string, k: string) returns (start: nat, end: nat)
      requires Valid() && HasSection(lines, s)
      ensures (start, end) == PutSpan(lines, s, k)
    {
      hide PutSpan, ParseLines, BackOverBlanks;
      var sec := sections[s];
      if k in sec.options {
        SpanOfOption(lines, s, k);
        return sec.options[k].start, sec.options[k].end;
      }
      SpanOfNew(lines, s, k);
      start := LastFilled(lines, sec.header + 1, sec.end);
      end := start;
    }

    method RemoveOption(s: string, k: string) returns (r: Outcome)
      requires Valid()
      modifies this
      ensures Valid() && frozen == old(frozen)
      ensures r == if Lookup(old(lines), s, k).None? then Done(false) else if frozen then Frozen else Done(true)
      ensures lines == if r == Done(true) then RemoveLines(old(lines), s, k) else old(lines)
    {
      if s !in sections || k !in sections[s].options {
        return Done(false);
      }
      var opt := sections[s].options[k];
      OptionsPlaced(Kinds(lines), |lines|, s, k);
      var ok := Splice(opt.start, opt.end, []);
      r := if ok then Done(true) else Frozen;
    }

    method RenameSection(was: string, now: string) returns (r: Outcome)
      requires Valid()
      modifies this
      ensures Valid() && frozen == old(frozen)
      ensures r == if !HasSection(old(lines), was) || HasSection(old(lines), now) then Done(false)
                   else if frozen then Frozen else Done(true)
      ensures lines == if r == Done(true) then RenameLines(old(lines), was, now) else old(lines)
    {
      hide After, Classify, Find, HeaderRest;
      if was !in sections || now in sections {
        return Done(false);
      }
      var header := sections[was].header;
      assert sections[was] == SectionOf(lines, was);
      var ok := Splice(header, header + 1, ["[" + now + "]" + HeaderRest(lines[header])]);
      r := if ok then Done(true) else Frozen;
    }

    method RenderDocument() returns (text: string)
      ensures text == RenderText(lines)
    {
      text := JoinLines(lines);
      if text != "" && text[|text| - 1] != '\n' {
        text := text + "\n";
      }
    }
  }

  // The place after the last non-blank line of a section.
  method LastFilled(lines: seq<string>, low: nat, end: nat) returns (at: nat)
    requires low <= end <= |lines|
    ensures at == BackOverBlanks(lines, low, end)
    ensures low <= at <= end && (forall j | at <= j < end :: IsBlank(lines[j]))
    ensures at > low ==> !IsBlank(lines[at - 1])
  {
    at := end;
    while at > low && IsBlank(lines[at - 1])
      invariant low <= at <= end
      invariant BackOverBlanks(lines, low, end) == BackOverBlanks(lines, low, at)
    {
      at := at - 1;
    }
  }

  // ----- rendering, as the loops that do it -----

  method DecorationOf(existing: seq<string>) returns (d: Deco)
    ensures d == Decoration(existing)
  {
    var inline: map<string, string>, before: map<string, seq<string>>, pending: seq<string> := map[], map[], [];
    if existing == [] {
      return Deco(inline, before, pending);
    }
    for i := 1 to |existing|
      invariant Deco(inline, before, pending) == DecoOf(RowsOf(existing), i)
    {
      var raw := existing[i];
      var text := Strip(raw);
      if text == "" {
        continue;
      }
      if IsComment(raw) {
        pending := pending + [text];
        continue;
      }
      var item := StripNote(text);
      if item == "" {
        continue;
      }
      var comment := Strip(text[|item|..]);
      if comment != "" {
        inline := inline[item := comment];
      }
      if pending != [] {
        before := before[item := pending];
      }
      pending := [];
    }
    d := Deco(inline, before, pending);
  }

  method BlockLines(key: string, items: seq<string>, d: Deco) returns (out: seq<string>)
    ensures out == RenderBlock(key, items, d)
  {
    hide Rows, WithNote, NoteRows;
    out := [key + ":"];
    if items == [] {
      return;
    }
    NoRows(d);
    for i := 0 to |items|
      invariant out == [key + ":"] + Rows(items[..i], d)
    {
      RowsNext(items, i, d);
      out := out + NoteRows(BeforeOf(d, items[i]));
      out := out + [WithNote(INDENT + items[i], InlineOf(d, items[i]))];
    }
    assert items[..|items|] == items;
    out := out + NoteRows(d.pending);
  }

  lemma NoRows(d: Deco)
    ensures Rows([], d) == []
  {
  }

  lemma RowsNext(items: seq<string>, i: nat, d: Deco)
    requires i < |items|
    ensures Rows(items[..i + 1], d) ==
            Rows(items[..i], d) +
            (NoteRows(BeforeOf(d, items[i])) + [WithNote(INDENT + items[i], InlineOf(d, items[i]))])
  {
    hide NoteRows, WithNote, BeforeOf, InlineOf;
    assert items[..i + 1][..i] == items[..i];
  }

  method RenderLines(key: string, value: Value, existing: seq<string>) returns (out: seq<string>)
    ensures out == Render(key, value, existing)
  {
    var items := ItemsOf(value);
    if items.Some? {
      var d := DecorationOf(existing);
      out := BlockLines(key, items.value, d);
    } else {
      out := [WithNote(key + ": " + value.text, KeptNote(existing))];
    }
  }
}
