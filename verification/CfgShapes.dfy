// Which lines are headers and which are options, as the shapes the two are matched by.

module CfgShapes {
  import opened Text
  import opened CfgSyntax

  // A bracketed name that is not empty, then nothing but a comment.
  ghost predicate HeaderShape(line: string, raw: string, rest: string) {
    && line == "[" + raw + "]" + rest && raw != "" && ']' !in raw
    && (LStrip(rest) == "" || LStrip(rest)[0] == '#' || LStrip(rest)[0] == ';')
  }

  // A key that starts with none of space, mark and separator and holds no separator, then a
  // separator, then anything.
  ghost predicate OptionShape(line: string, raw: string, sep: char, rest: string) {
    && line == raw + [sep] + rest && (sep == ':' || sep == '=')
    && raw != "" && ':' !in raw && '=' !in raw
    && raw[0] != ' ' && raw[0] != '\t' && raw[0] != '#' && raw[0] != ';'
  }

  lemma FindIs(s: string, stops: set<char>, i: nat, n: nat)
    requires i <= n < |s| && s[n] in stops && forall j | i <= j < n :: s[j] !in stops
    ensures Find(s, stops, i) == n
  {
  }

  lemma HeaderRead(line: string, raw: string, rest: string)
    requires HeaderShape(line, raw, rest)
    ensures HeaderName(line) == Some(Strip(raw))
  {
    hide Strip, LStrip;
    var n := |raw| + 1;
    assert line[n] == ']' && line[0] == '[';
    forall j | 1 <= j < n ensures line[j] !in {']'} { assert line[j] == raw[j - 1] && raw[j - 1] in raw; }
    FindIs(line, {']'}, 1, n);
    assert line[1..n] == raw && line[n + 1..] == rest;
  }

  lemma HeaderSplit(line: string)
    requires HeaderName(line).Some?
    ensures exists raw, rest :: HeaderShape(line, raw, rest)
  {
    hide Strip, LStrip;
    var close := Find(line, {']'}, 1);
    var raw, rest := line[1..close], line[close + 1..];
    assert line == "[" + raw + "]" + rest;
    assert ']' !in raw by { assert forall j | 0 <= j < |raw| :: raw[j] == line[j + 1]; }
    assert HeaderShape(line, raw, rest);
  }

  // A line is a header exactly when it has that shape.
  lemma HeaderIff(line: string, name: string)
    ensures HeaderName(line) == Some(name) <==>
            exists raw, rest :: HeaderShape(line, raw, rest) && name == Strip(raw)
  {
    hide Strip, LStrip, HeaderShape, HeaderName;
    forall raw, rest | HeaderShape(line, raw, rest) ensures HeaderName(line) == Some(Strip(raw)) {
      HeaderRead(line, raw, rest);
    }
    if HeaderName(line).Some? { HeaderSplit(line); }
  }

  lemma OptionRead(line: string, raw: string, sep: char, rest: string)
    requires OptionShape(line, raw, sep, rest)
    ensures EntryParts(line) == Some((Strip(raw), StripNote(Strip(rest))))
  {
    hide Strip, StripNote;
    var n := |raw|;
    assert line[n] == sep && line[0] == raw[0];
    forall j | 0 <= j < n ensures line[j] !in {':', '='} { assert line[j] == raw[j] && raw[j] in raw; }
    FindIs(line, {':', '='}, 0, n);
    assert line[..n] == raw && line[n + 1..] == rest;
  }

  lemma OptionSplit(line: string)
    requires EntryParts(line).Some?
    ensures exists raw, sep, rest :: OptionShape(line, raw, sep, rest)
  {
    hide Strip, StripNote;
    var n := Find(line, {':', '='}, 0);
    var raw, sep, rest := line[..n], line[n], line[n + 1..];
    assert line == raw + [sep] + rest;
    assert raw[0] == line[0];
    assert OptionShape(line, raw, sep, rest);
  }

  // A line gives a key and a value exactly when it has that shape: the key up to the first
  // separator, the value after it without a comment, both stripped.
  lemma OptionIff(line: string, key: string, value: string)
    ensures EntryParts(line) == Some((key, value)) <==>
            exists raw, sep, rest ::
              OptionShape(line, raw, sep, rest) && key == Strip(raw) && value == StripNote(Strip(rest))
  {
    hide Strip, StripNote, OptionShape, EntryParts;
    forall raw, sep, rest | OptionShape(line, raw, sep, rest)
      ensures EntryParts(line) == Some((Strip(raw), StripNote(Strip(rest))))
    {
      OptionRead(line, raw, sep, rest);
    }
    if EntryParts(line).Some? { OptionSplit(line); }
  }

  // A mark inside a word is no comment.
  lemma NotesCut()
    ensures StripNote("a#b # c") == "a#b" && StripNote("a ; c") == "a" && StripNote("# c") == ""
  {
    NoteFrom("a#b # c", 4);
    NoteFrom("a ; c", 2);
    NoteFrom("# c", 0);
    assert "a#b # c"[..4] == "a#b" + " " && "a ; c"[..2] == "a" + " " && "# c"[..0] == "";
    SpacesAreSpace();
    RStripPad("a#b", " ");
    RStripPad("a", " ");
  }

  lemma NoteFrom(t: string, n: nat)
    requires StartsNote(t, n) && forall j | 0 <= j < n :: !StartsNote(t, j)
    ensures NoteAt(t, 0) == n
  {
  }
}
