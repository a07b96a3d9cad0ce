// What one line of a Klipper-style .cfg file is, decided by the line alone.

module CfgSyntax {
  import opened Text

  // More is an indented, non-comment line: part of the option above, if there is one.
  datatype Line =
    | Header(name: string)
    | Note(indented: bool)
    | Blank
    | More(item: string)
    | Entry(key: string, value: string)
    | Other
  {
    // Extends the option above it.
    predicate Folds() { More? || (Note? && indented) }
  }

  const INDENT := "    "

  predicate IsBlank(line: string) { Strip(line) == "" }

  predicate IsComment(line: string) { var t := LStrip(line); t != "" && IsMark(t[0]) }

  predicate IsContinuation(line: string) { line != "" && IsSpace(line[0]) && !IsBlank(line) }

  function Find(s: string, stops: set<char>, i: nat): (n: nat)
    requires i <= |s|
    ensures i <= n <= |s|
    ensures n < |s| ==> s[n] in stops
    ensures forall j | i <= j < n :: s[j] !in stops
    decreases |s| - i
  {
    if i == |s| || s[i] in stops then i else Find(s, stops, i + 1)
  }

  // _SECTION_RE: a bracketed, non-empty name, then nothing but a comment.
  function HeaderName(line: string): Option<string> {
    if line == "" || line[0] != '[' then None else
      var close := Find(line, {']'}, 1);
      if close == |line| || close == 1 then None else
        var rest := LStrip(line[close + 1..]);
        if rest == "" || IsMark(rest[0]) then Some(Strip(line[1..close])) else None
  }

  // _OPTION_RE: text before the first ':' or '=', starting with none of whitespace ':=#;'.
  function EntryParts(line: string): Option<(string, string)> {
    if line == "" || IsSpace(line[0]) || IsMark(line[0]) then None else
      var sep := Find(line, {':', '='}, 0);
      if sep == 0 || sep == |line| then None
      else Some((Strip(line[..sep]), StripNote(Strip(line[sep + 1..]))))
  }

  function Classify(line: string): Line {
    var header := HeaderName(line);
    if header.Some? then Header(header.value)
    else if IsComment(line) then Note(IsContinuation(line))
    else if IsBlank(line) then Blank
    else if IsContinuation(line) then More(StripNote(Strip(line)))
    else
      var entry := EntryParts(line);
      if entry.Some? then Entry(entry.value.0, entry.value.1) else Other
  }

  predicate CleanKey(key: string) {
    && key != "" && Trimmed(key) && OneLine(key)
    && ':' !in key && '=' !in key && !IsMark(key[0]) && key[0] != '['
  }

  predicate CleanName(name: string) {
    name != "" && Trimmed(name) && OneLine(name) && ']' !in name
  }

  predicate CleanItem(item: string) { item != "" && Clean(item) }

  // ----- what written lines read back as -----

  lemma SpacesAreSpace()
    ensures AllSpace("") && AllSpace(" ") && AllSpace("  ") && AllSpace(INDENT)
  {
  }

  // "key:" + rest is an entry for key whatever rest is.
  lemma EntryWritten(key: string, rest: string)
    requires CleanKey(key)
    ensures Classify(key + ":" + rest) == Entry(key, StripNote(Strip(rest)))
  {
    var line := key + ":" + rest;
    assert line[0] == key[0];
    assert HeaderName(line).None?;
    assert LStrip(line) == line;
    assert !IsComment(line);
    RStripShape(line);
    assert !AllSpace(line) by { assert !IsSpace(line[0]); }
    var sep := Find(line, {':', '='}, 0);
    assert sep == |key| by {
      assert line[|key|] == ':';
      forall j | 0 <= j < |key| ensures line[j] !in {':', '='} { assert line[j] == key[j] && key[j] in key; }
    }
    assert line[..sep] == key && line[sep + 1..] == rest;
    StripIsTrimmed(key);
  }

  lemma TextLine(key: string, text: string, note: string)
    requires CleanKey(key) && Clean(text)
    requires note == "" || IsNote(note)
    ensures Classify(key + ": " + text + (if note != "" then "  " + note else "")) == Entry(key, text)
  {
    hide Classify, Strip, StripNote, CleanKey;
    SpacesAreSpace();
    var rest := " " + text + (if note != "" then "  " + note else "");
    assert key + ": " + text + (if note != "" then "  " + note else "") == key + ":" + rest;
    EntryWritten(key, rest);
    if note == "" {
      StripPadded(" ", text, "");
      assert rest == " " + text + "";
      CleanIffKept(text);
      StripIsTrimmed(text);
    } else if text == "" {
      StripPadded("   ", note, "");
      assert rest == "   " + note + "";
      NoteStripsToNothing(note);
    } else {
      CleanBeforeNote(text, note);
      StripPadded(" ", text + "  " + note, "");
      assert rest == " " + (text + "  " + note) + "";
    }
  }

  lemma BareLine(key: string)
    requires CleanKey(key)
    ensures Classify(key + ":") == Entry(key, "")
  {
    assert key + ":" == key + ":" + "";
    EntryWritten(key, "");
  }

  lemma Indented(body: string)
    requires body != "" && Trimmed(body)
    ensures HeaderName(INDENT + body).None?
    ensures Strip(INDENT + body) == body && LStrip(INDENT + body) == body
    ensures IsContinuation(INDENT + body)
  {
    SpacesAreSpace();
    assert INDENT + body == INDENT + body + "";
    StripPadded(INDENT, body, "");
    LStripPad(INDENT, body);
  }

  lemma ItemLine(item: string, note: string)
    requires CleanItem(item)
    requires note == "" || IsNote(note)
    ensures var line := INDENT + item + (if note != "" then "  " + note else "");
            Classify(line) == More(item)
  {
    var line := INDENT + item + (if note != "" then "  " + note else "");
    var body := item + (if note != "" then "  " + note else "");
    assert line == INDENT + body;
    assert !StartsNote(item, 0);
    assert body[0] == item[0];
    if note != "" {
      CleanBeforeNote(item, note);
      assert body == item + "  " + note;
    } else {
      assert body == item;
      CleanIffKept(item);
      StripIsTrimmed(item);
    }
    Indented(body);
  }

  lemma NoteLine(note: string)
    requires IsNote(note)
    ensures Classify(INDENT + note) == Note(true)
    ensures Strip(INDENT + note) == note
  {
    Indented(note);
  }

  // A header keeps its trailing text whatever the name is replaced by.
  lemma HeaderLine(name: string, rest: string)
    requires CleanName(name)
    requires var t := LStrip(rest); t == "" || IsMark(t[0])
    ensures Classify("[" + name + "]" + rest) == Header(name)
  {
    hide Strip, LStrip, EntryParts, IsBlank, IsComment, IsContinuation, StripNote;
    var line := "[" + name + "]" + rest;
    assert line[|name| + 1] == ']';
    var close := Find(line, {']'}, 1);
    assert close == |name| + 1 by {
      forall j | 1 <= j < |name| + 1 ensures line[j] !in {']'} { assert line[j] == name[j - 1] && name[j - 1] in name; }
    }
    assert line[1..close] == name && line[close + 1..] == rest;
    StripIsTrimmed(name);
  }
}
