// The [updater] section: what saving the settings writes there, and what loading reads.

module Settings {
  import opened Text
  import opened CfgSyntax
  import opened CfgRender
  import opened CfgDocument
  import opened CfgLaws
  import opened CfgOps
  import opened CfgGiven
  import opened CfgReads
  import opened Words

  const SECTION := "updater"

  datatype Settings = Settings(jobs: int, clean: bool, reseed: bool, stop: Option<seq<string>>, backend: string,
                               dryRun: bool, flashing: bool, whilePrinting: bool, ring: int, pio: string,
                               flashtool: string, accent: string, serials: seq<string>, uuids: seq<string>)

  const DEFAULTS := Settings(0, true, true, None, "moonraker", false, false, false, 2000, "", "", "", [], [])

  predicate Backend(name: string) { name == "moonraker" || name == "systemd" || name == "null" }

  // ----- numbers and truth values as texts -----

  function Digit(n: nat): char
    requires n < 10
  {
    "0123456789"[n]
  }

  function NatText(n: nat): (r: string)
    ensures r != ""
  {
    if n < 10 then [Digit(n)] else NatText(n / 10) + [Digit(n % 10)]
  }

  function IntText(n: int): string { if n < 0 then "-" + NatText(-n) else NatText(n) }

  function ParseNat(s: string): Option<nat> {
    if s == "" then Some(0)
    else
      var before, c := ParseNat(s[..|s| - 1]), s[|s| - 1];
      if before.None? || !('0' <= c <= '9') then None else Some(before.value * 10 + (c as int - '0' as int))
  }

  function ParseInt(raw: string): Option<int> {
    var t := Trim(raw);
    var digits := if t != "" && (t[0] == '-' || t[0] == '+') then t[1..] else t;
    var n := ParseNat(digits);
    if digits == "" || n.None? then None
    else
      var size: int := n.value;
      Some(if t[0] == '-' then -size else size)
  }

  function Lower(s: string): string {
    if s == "" then "" else [if 'A' <= s[0] <= 'Z' then s[0] + (32 as char) else s[0]] + Lower(s[1..])
  }

  function ParseBool(raw: string): Option<bool> {
    var v := Lower(Trim(raw));
    if v == "true" || v == "yes" || v == "on" || v == "1" then Some(true)
    else if v == "false" || v == "no" || v == "off" || v == "0" then Some(false)
    else None
  }

  function BoolText(b: bool): string { if b then "true" else "false" }

  function WithoutHash(s: string): string { if s != "" && s[0] == '#' then WithoutHash(s[1..]) else s }

  lemma {:induction false} NatReads(n: nat)
    ensures ParseNat(NatText(n)) == Some(n) && Plain(NatText(n))
  {
    if n >= 10 {
      NatReads(n / 10);
      assert NatText(n)[..|NatText(n)| - 1] == NatText(n / 10);
    } else {
      assert NatText(n)[..0] == "";
    }
  }

  predicate PlainChar(c: char) { ('0' <= c <= '9') || ('a' <= c <= 'z') || c == '-' }

  predicate Plain(s: string) { s != "" && forall i | 0 <= i < |s| :: PlainChar(s[i]) }

  lemma PlainIsClean(s: string)
    requires Plain(s)
    ensures Clean(s) && Trim(s) == s
  {
    assert PlainChar(s[0]) && PlainChar(s[|s| - 1]);
    assert forall c | c in s :: PlainChar(c);
    TrimClean(s);
  }

  lemma IntReads(n: int)
    ensures ParseInt(IntText(n)) == Some(n) && Plain(IntText(n))
  {
    hide Trim;
    var m := if n < 0 then -n else n;
    NatReads(m);
    PlainIsClean(IntText(n));
    var t := IntText(n);
    assert n < 0 ==> t[1..] == NatText(m);
    assert n >= 0 ==> t == NatText(m);
    NatTextHead(m);
  }

  lemma {:induction false} NatTextHead(n: nat)
    ensures '0' <= NatText(n)[0] <= '9'
  {
    if n >= 10 { NatTextHead(n / 10); }
  }

  lemma BoolReads(b: bool)
    ensures ParseBool(BoolText(b)) == Some(b) && Plain(BoolText(b))
  {
    hide Trim;
    PlainIsClean(BoolText(b));
    LowerPlain(BoolText(b));
  }

  lemma {:induction false} LowerPlain(s: string)
    requires forall i | 0 <= i < |s| :: PlainChar(s[i])
    ensures Lower(s) == s
  {
    if s != "" {
      assert PlainChar(s[0]);
      LowerPlain(s[1..]);
      assert s == [s[0]] + s[1..];
    }
  }

  // ----- what a save writes -----

  const KEYS := ["make_jobs", "clean_before_build", "reseed_on_build", "service_backend", "dry_run", "enable_flashing",
                 "allow_flash_while_printing", "log_ring_size", "platformio_bin", "flashtool_path", "ui_accent_color",
                 "ignored_serials", "ignored_canbus_uuids", "stop_services", "service"]

  // Every field, in their order; then the stop list, absent for None; and the retired key
  // goes.
  function WriteOps(s: Settings): seq<Op> {
    [Put("make_jobs", TextValue(IntText(s.jobs))),
     Put("clean_before_build", TextValue(BoolText(s.clean))),
     Put("reseed_on_build", TextValue(BoolText(s.reseed))),
     Put("service_backend", TextValue(s.backend)),
     Put("dry_run", TextValue(BoolText(s.dryRun))),
     Put("enable_flashing", TextValue(BoolText(s.flashing))),
     Put("allow_flash_while_printing", TextValue(BoolText(s.whilePrinting))),
     Put("log_ring_size", TextValue(IntText(s.ring))),
     Put("platformio_bin", TextValue(s.pio)),
     Put("flashtool_path", TextValue(s.flashtool)),
     Put("ui_accent_color", TextValue(WithoutHash(s.accent))),
     Put("ignored_serials", Items(s.serials)),
     Put("ignored_canbus_uuids", Items(s.uuids)),
     if s.stop.None? then Drop("stop_services") else Put("stop_services", TextValue(CommaJoin(s.stop.value))),
     Drop("service")]
  }

  function Written(lines: seq<string>, s: Settings): seq<string> { ApplyAll(lines, SECTION, WriteOps(s)) }

  // The document edited field by field, and the text for the file.
  method WriteSettings(doc: CfgDocument, s: Settings) returns (text: string)
    requires doc.Valid() && !doc.frozen
    modifies doc
    ensures doc.Valid() && doc.lines == Written(old(doc.lines), s) && text == RenderText(doc.lines)
  {
    MakeAll(doc, SECTION, WriteOps(s));
    text := doc.RenderDocument();
  }

  // ----- what a load reads -----

  const BOOLS := ["clean_before_build", "reseed_on_build", "dry_run", "enable_flashing", "allow_flash_while_printing"]
  const INTS := ["make_jobs", "log_ring_size"]
  const TEXTS := ["service_backend", "platformio_bin", "flashtool_path", "ui_accent_color"]
  const LISTS := ["stop_services", "ignored_serials", "ignored_canbus_uuids"]

  datatype Kind = Truth | Whole | Words | Line | NoField

  // What a field holds; a key that is none may be one of a newer version.
  function KindOf(name: string): Kind {
    if name in BOOLS then Truth else if name in INTS then Whole else if name in TEXTS then Line
    else if name in LISTS then Words else NoField
  }

  datatype Field = Flag(flag: bool) | Number(number: int) | Str(text: string) | Names(words: seq<string>)

  datatype Reading = Skip | Bad | Read(field: Field)

  function ReadOption(name: string, raw: string): Reading {
    match KindOf(name)
    case Truth => if ParseBool(raw).Some? then Read(Flag(ParseBool(raw).value)) else Bad
    case Whole => if ParseInt(raw).Some? then Read(Number(ParseInt(raw).value)) else Bad
    case Line => Read(Str(if name == ACCENT then Marked(Trim(raw)) else Trim(raw)))
    case Words => Read(Names(WordsOf(raw)))
    case NoField => Skip
  }

  const ACCENT := "ui_accent_color"

  function Marked(colour: string): string { if colour == "" then "" else "#" + colour }

  // A key may be spelled with dashes.
  function Undash(key: string): (name: string)
    ensures |name| == |key|
  {
    seq(|key|, i requires 0 <= i < |key| => if key[i] == '-' then '_' else key[i])
  }

  const LEGACY := "service"

  // The fields after some of the section's keys, each read in turn over what an earlier
  // spelling gave; None when a value is no number or no truth value.
  function Gather(lines: seq<string>, keys: seq<string>): Option<map<string, Field>> {
    if keys == [] then Some(map[])
    else
      var before, key := Gather(lines, keys[..|keys| - 1]), keys[|keys| - 1];
      if before.None? then None else Assign(before.value, Undash(key), Lookup(lines, SECTION, key))
  }

  function Assign(given: map<string, Field>, name: string, raw: Option<string>): Option<map<string, Field>> {
    if name == LEGACY || raw.None? then Some(given)
    else match ReadOption(name, raw.value)
      case Skip => Some(given)
      case Bad => None
      case Read(field) => Some(given[name := field])
  }

  function TruthIn(given: map<string, Field>, name: string, otherwise: bool): bool {
    if name in given && given[name].Flag? then given[name].flag else otherwise
  }

  function WholeIn(given: map<string, Field>, name: string, otherwise: int): int {
    if name in given && given[name].Number? then given[name].number else otherwise
  }

  function LineIn(given: map<string, Field>, name: string, otherwise: string): string {
    if name in given && given[name].Str? then given[name].text else otherwise
  }

  function WordsIn(given: map<string, Field>, name: string, otherwise: seq<string>): seq<string> {
    if name in given && given[name].Names? then given[name].words else otherwise
  }

  // The defaults, with what was given in their place.
  function Assembled(given: map<string, Field>, stop: Option<seq<string>>): Settings {
    var d := DEFAULTS;
    Settings(WholeIn(given, "make_jobs", d.jobs), TruthIn(given, "clean_before_build", d.clean),
             TruthIn(given, "reseed_on_build", d.reseed), stop, LineIn(given, "service_backend", d.backend),
             TruthIn(given, "dry_run", d.dryRun), TruthIn(given, "enable_flashing", d.flashing),
             TruthIn(given, "allow_flash_while_printing", d.whilePrinting), WholeIn(given, "log_ring_size", d.ring),
             LineIn(given, "platformio_bin", d.pio), LineIn(given, "flashtool_path", d.flashtool),
             LineIn(given, ACCENT, d.accent), WordsIn(given, "ignored_serials", d.serials),
             WordsIn(given, "ignored_canbus_uuids", d.uuids))
  }

  // The stop list given under any spelling; failing that the retired key's one unit.
  function StopIn(given: map<string, Field>, lines: seq<string>): Option<seq<string>> {
    if "stop_services" in given then Some(WordsIn(given, "stop_services", []))
    else
      var legacy := Trim(TextAt(lines, SECTION, LEGACY));
      if legacy == "" then None else Some([legacy])
  }

  // None when it raises: a second [updater], a value that does not parse, or a backend nobody
  // knows.
  function Load(lines: seq<string>): Option<Settings> {
    if SECTION in ParseLines(lines).duplicates then None
    else
      var given := Gather(lines, KeysOf(lines, SECTION));
      if given.None? then None
      else
        var s := Assembled(given.value, StopIn(given.value, lines));
        if Backend(s.backend) then Some(s) else None
  }

  // The loop over the section's options, in file order.
  method LoadSettings(doc: CfgDocument) returns (r: Option<Settings>)
    requires doc.Valid()
    ensures r == Load(doc.lines)
  {
    hide Assign, Assembled, StopIn, KeysOf;
    if SECTION in doc.duplicateSections {
      return None;
    }
    var keys := KeysOf(doc.lines, SECTION);
    var given: map<string, Field> := map[];
    for i := 0 to |keys|
      invariant Gather(doc.lines, keys[..i]) == Some(given)
    {
      assert keys[..i + 1][..i] == keys[..i];
      var next := Assign(given, Undash(keys[i]), Lookup(doc.lines, SECTION, keys[i]));
      if next.None? {
        NoneOnceBad(doc.lines, keys, i + 1);
        return None;
      }
      given := next.value;
    }
    assert keys[..|keys|] == keys;
    var s := Assembled(given, StopIn(given, doc.lines));
    r := if Backend(s.backend) then Some(s) else None;
  }

  lemma {:induction false} NoneOnceBad(lines: seq<string>, keys: seq<string>, n: nat)
    requires n <= |keys| && Gather(lines, keys[..n]).None?
    ensures Gather(lines, keys).None?
    decreases |keys| - n
  {
    hide Assign;
    if n == |keys| {
      assert keys[..n] == keys;
    } else {
      assert keys[..n + 1][..n] == keys[..n];
      NoneOnceBad(lines, keys, n + 1);
    }
  }

  // ----- settings the format can hold -----

  predicate CleanSettings(s: Settings) {
    && Backend(s.backend) && Clean(s.pio) && Clean(s.flashtool) && Clean(WithoutHash(s.accent))
    && AllWords(s.serials) && AllWords(s.uuids) && (s.stop.Some? ==> AllWords(s.stop.value))
  }

  // A colour is stored bare and comes back with one mark in front.
  function Normal(s: Settings): Settings {
    s.(accent := Marked(WithoutHash(s.accent)))
  }

  lemma KeysOfSettings(s: Settings)
    ensures |WriteOps(s)| == |KEYS| && forall i | 0 <= i < |KEYS| :: WriteOps(s)[i].key == KEYS[i]
  {
    hide IntText, BoolText, CommaJoin, WithoutHash;
  }

  // First letter and length tell the keys apart.
  function Mark(key: string): int { if key == "" then 0 else |key| * 1000 + key[0] as int }

  lemma KeysDiffer()
    ensures Unlike(KEYS)
  {
    var k := KEYS;
    assert 'a' as int == 97 && 'c' as int == 99 && 'd' as int == 100 && 'e' as int == 101 && 'f' as int == 102;
    assert 'i' as int == 105 && 'l' as int == 108 && 'm' as int == 109 && 'p' as int == 112 && 'r' as int == 114;
    assert 's' as int == 115 && 'u' as int == 117;
    assert Mark(k[0]) == 9109 && Mark(k[1]) == 18099 && Mark(k[2]) == 15114 && Mark(k[3]) == 15115;
    assert Mark(k[4]) == 7100 && Mark(k[5]) == 15101 && Mark(k[6]) == 26097 && Mark(k[7]) == 13108;
    assert Mark(k[8]) == 14112 && Mark(k[9]) == 14102 && Mark(k[10]) == 15117 && Mark(k[11]) == 15105;
    assert Mark(k[12]) == 20105 && Mark(k[13]) == 13115 && Mark(k[14]) == 7115;
  }

  lemma KeysLettered()
    ensures forall i | 0 <= i < |KEYS| :: Lettered(KEYS[i])
  {
    hide Lettered;
    FirstKeys();
    MiddleKeys();
    LastKeys();
  }

  lemma FirstKeys()
    ensures forall i | 0 <= i < 5 :: Lettered(KEYS[i])
  {
  }

  lemma MiddleKeys()
    ensures forall i | 5 <= i < 10 :: Lettered(KEYS[i])
  {
  }

  lemma LastKeys()
    ensures forall i | 10 <= i < |KEYS| :: Lettered(KEYS[i])
  {
  }

  lemma KeysClean()
    ensures forall i | 0 <= i < |KEYS| :: CleanKey(KEYS[i])
  {
    hide CleanKey, Lettered;
    KeysLettered();
    forall i | 0 <= i < |KEYS| ensures CleanKey(KEYS[i]) { LettersClean(KEYS[i]); }
  }

  lemma WordsAreItems(words: seq<string>)
    requires AllWords(words)
    ensures CleanItems(words)
  {
    forall i | 0 <= i < |words| ensures CleanItem(words[i]) { WordIsClean(words[i]); }
  }

  lemma {:induction false} ItemsAreWords(words: seq<string>)
    requires AllWords(words)
    ensures WordsOf(Joined(words)) == words
  {
    if words != [] {
      var n := |words| - 1;
      ItemsAreWords(words[..n]);
      WordAdded(Joined(words[..n]), words[n]);
    }
  }

  lemma SettingsOpsClean(s: Settings)
    requires CleanSettings(s)
    ensures CleanOps(WriteOps(s)) && Distinct(WriteOps(s))
  {
    hide CleanKey, CleanOp, CleanSettings, WriteOps;
    KeysDiffer();
    KeysOfSettings(s);
    FirstOpsClean(s);
    LastOpsClean(s);
  }

  lemma FirstOpsClean(s: Settings)
    requires CleanSettings(s)
    ensures forall i | 0 <= i < 8 :: i < |WriteOps(s)| && CleanOp(WriteOps(s)[i])
  {
    hide CleanKey, CleanOp, Clean, CleanItems, AllWords, WithoutHash, IntText, BoolText, CommaJoin, Backend;
    var k := KEYS;
    KeysClean();
    assert CleanKey(k[0]) && CleanKey(k[1]) && CleanKey(k[2]) && CleanKey(k[3]) && CleanKey(k[4]) && CleanKey(k[5]);
    assert CleanKey(k[6]) && CleanKey(k[7]);
    PutInt(k[0], s.jobs);
    PutBool(k[1], s.clean);
    PutBool(k[2], s.reseed);
    BackendClean(s.backend);
    PutText(k[3], s.backend);
    PutBool(k[4], s.dryRun);
    PutBool(k[5], s.flashing);
    PutBool(k[6], s.whilePrinting);
    PutInt(k[7], s.ring);
  }

  lemma LastOpsClean(s: Settings)
    requires CleanSettings(s)
    ensures |WriteOps(s)| == 15 && forall i | 8 <= i < 15 :: CleanOp(WriteOps(s)[i])
  {
    hide CleanKey, CleanOp, Clean, CleanItems, AllWords, WithoutHash, IntText, BoolText, CommaJoin, Backend;
    var k := KEYS;
    KeysClean();
    assert CleanKey(k[8]) && CleanKey(k[9]) && CleanKey(k[10]) && CleanKey(k[11]) && CleanKey(k[12]) && CleanKey(k[13]);
    PutText(k[8], s.pio);
    PutText(k[9], s.flashtool);
    PutText(k[10], WithoutHash(s.accent));
    WordsAreItems(s.serials);
    PutItems(k[11], s.serials);
    WordsAreItems(s.uuids);
    PutItems(k[12], s.uuids);
    DropAny(k[13]);
    DropAny(k[14]);
    if s.stop.Some? {
      JoinedWords(s.stop.value);
      PutText(k[13], CommaJoin(s.stop.value));
    }
  }

  lemma BackendClean(name: string)
    requires Backend(name)
    ensures Clean(name) && Trim(name) == name
  {
    hide Trim, Clean;
    PlainIsClean(name);
  }

  lemma PutInt(key: string, n: int)
    requires CleanKey(key)
    ensures CleanOp(Put(key, TextValue(IntText(n))))
  {
    IntReads(n);
    PlainIsClean(IntText(n));
    PutText(key, IntText(n));
  }

  lemma PutBool(key: string, b: bool)
    requires CleanKey(key)
    ensures CleanOp(Put(key, TextValue(BoolText(b))))
  {
    BoolReads(b);
    PlainIsClean(BoolText(b));
    PutText(key, BoolText(b));
  }
}
