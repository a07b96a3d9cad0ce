// What the words of a settings file mean, and what a load makes of a file of one line.

module SettingsReads {
  import opened Text
  import opened CfgSyntax
  import opened CfgParse
  import opened CfgRender
  import opened CfgOrder
  import opened CfgDocument
  import opened CfgGiven
  import opened CfgReads
  import opened CfgWitness
  import opened Words
  import opened Settings
  import opened SettingsTrip
  import opened SettingsWitness

  // ----- truth values -----

  const YES := ["true", "yes", "on", "1"]
  const NO := ["false", "no", "off", "0"]

  // The same letter, large or small.
  predicate Letters(c: char, small: char) { c == small || ('A' <= c <= 'Z' && c as int + 32 == small as int) }

  predicate Spells(t: string, word: string) {
    |t| == |word| && forall i | 0 <= i < |t| :: Letters(t[i], word[i])
  }

  predicate Among(t: string, words: seq<string>) { exists i | 0 <= i < |words| :: Spells(t, words[i]) }

  predicate AllWhite(s: string) { forall i | 0 <= i < |s| :: IsWhite(s[i]) }

  lemma {:induction false} LeftTrimmed(pad: string, t: string)
    requires AllWhite(pad) && (t != "" ==> !IsWhite(t[0]))
    ensures TrimLeft(pad + t) == t
  {
    if pad == "" {
      assert pad + t == t;
    } else {
      assert (pad + t)[1..] == pad[1..] + t;
      LeftTrimmed(pad[1..], t);
    }
  }

  lemma {:induction false} RightTrimmed(t: string, pad: string)
    requires AllWhite(pad) && (t != "" ==> !IsWhite(t[|t| - 1]))
    ensures TrimRight(t + pad) == t
  {
    if pad == "" {
      assert t + pad == t;
    } else {
      assert (t + pad)[..|t + pad| - 1] == t + pad[..|pad| - 1];
      RightTrimmed(t, pad[..|pad| - 1]);
    }
  }

  // White space around a text goes, and none of the text does.
  lemma Padded(left: string, t: string, right: string)
    requires AllWhite(left) && AllWhite(right)
    requires t != "" && !IsWhite(t[0]) && !IsWhite(t[|t| - 1])
    ensures Trim(left + t + right) == t
  {
    assert left + t + right == left + (t + right);
    LeftTrimmed(left, t + right);
    RightTrimmed(t, right);
  }

  predicate PlainWord(word: string) { forall i | 0 <= i < |word| :: PlainChar(word[i]) }

  lemma {:induction false} LowerSpells(t: string, word: string)
    requires PlainWord(word)
    ensures Lower(t) == word <==> Spells(t, word)
  {
    hide Spells;
    if t == "" || word == "" {
      EmptySpells(t, word);
    } else {
      LowerSpells(t[1..], word[1..]);
      var c := if 'A' <= t[0] <= 'Z' then t[0] + (32 as char) else t[0];
      assert Lower(t) == [c] + Lower(t[1..]) && word == [word[0]] + word[1..];
      assert PlainChar(word[0]);
      assert Lower(t) == word <==> c == word[0] && Lower(t[1..]) == word[1..];
      assert c == word[0] <==> Letters(t[0], word[0]);
      SpellsNext(t, word);
    }
  }

  lemma EmptySpells(t: string, word: string)
    requires t == "" || word == ""
    ensures Lower(t) == word <==> t == word
    ensures Spells(t, word) <==> t == word
  {
  }

  lemma SpellsNext(t: string, word: string)
    requires t != "" && word != ""
    ensures Spells(t, word) <==> Letters(t[0], word[0]) && Spells(t[1..], word[1..])
  {
    hide Letters;
    if Spells(t[1..], word[1..]) && Letters(t[0], word[0]) {
      forall i | 0 <= i < |t| ensures Letters(t[i], word[i]) {
        if i > 0 { assert t[i] == t[1..][i - 1] && word[i] == word[1..][i - 1]; }
      }
    }
  }

  lemma LoweredAmong(t: string, words: seq<string>)
    requires forall i | 0 <= i < |words| :: PlainWord(words[i])
    ensures Among(t, words) <==> Lower(t) in words
  {
    hide Spells, Lower;
    forall i | 0 <= i < |words| ensures Lower(t) == words[i] <==> Spells(t, words[i]) {
      assert PlainWord(words[i]);
      LowerSpells(t, words[i]);
    }
  }

  // The words that turn a setting on, the words that turn it off, in letters of any size and
  // with white space around them; any other text is no truth value.
  lemma BoolWords(raw: string)
    ensures ParseBool(raw) == Some(true) <==> Among(Trim(raw), YES)
    ensures ParseBool(raw) == Some(false) <==> Among(Trim(raw), NO)
    ensures ParseBool(raw) == None <==> !Among(Trim(raw), YES) && !Among(Trim(raw), NO)
  {
    hide Lower, Trim, Spells;
    var t := Trim(raw);
    var v := Lower(t);
    LoweredAmong(t, YES);
    LoweredAmong(t, NO);
    assert v in YES <==> v == "true" || v == "yes" || v == "on" || v == "1";
    assert v in NO <==> v == "false" || v == "no" || v == "off" || v == "0";
    assert "yes"[0] != "off"[0] && "on"[0] != "no"[0];
  }

  // ----- files of one line -----

  // What a load makes of one key with one value.
  function LoadOne(k: string, v: string): Option<Settings> {
    var given := Assign(map[], Undash(k), Some(v));
    if given.None? then None
    else
      var stop := if "stop_services" in given.value then Some(WordsIn(given.value, "stop_services", [])) else None;
      var s := Assembled(given.value, stop);
      if Backend(s.backend) then Some(s) else None
  }

  lemma OneOption(row: string, k: string, v: string)
    requires row == k + ": " + v && CleanKey(k) && Clean(v) && k != LEGACY
    ensures Load(["[updater]", row]) == LoadOne(k, v)
  {
    hide Gives, CleanKey, Clean, Assign, Assembled, KeysOf, Given, ParseLines, Lookup, Undash, Trim;
    var lines := ["[updater]", row];
    OneLineFile(row, k, v);
    GivesValues(lines, SECTION, [k], map[k := [v]], k);
    GivesValues(lines, SECTION, [k], map[k := [v]], LEGACY);
    GivenTells(lines, SECTION, k);
    GivenTells(lines, SECTION, LEGACY);
    assert [k][..0] == [];
    assert Gather(lines, []) == Some(map[]);
    assert Gather(lines, [k]) == Assign(map[], Undash(k), Some(v));
    assert Trim("") == "" by { TrimClean(""); }
  }

  // What a file that sets nothing loads as.
  const FRESH := Settings(0, true, true, None, "moonraker", false, false, false, 2000, "", "", "", [], [])

  function WithTruth(k: string, b: bool): Settings {
    if k == "clean_before_build" then FRESH.(clean := b)
    else if k == "reseed_on_build" then FRESH.(reseed := b)
    else if k == "dry_run" then FRESH.(dryRun := b)
    else if k == "enable_flashing" then FRESH.(flashing := b)
    else FRESH.(whilePrinting := b)
  }

  function WithWhole(k: string, n: int): Settings {
    if k == "make_jobs" then FRESH.(jobs := n) else FRESH.(ring := n)
  }

  function WithLine(k: string, text: string): Settings {
    if k == "service_backend" then FRESH.(backend := text)
    else if k == "platformio_bin" then FRESH.(pio := text)
    else if k == "flashtool_path" then FRESH.(flashtool := text)
    else FRESH.(accent := if text == "" then "" else "#" + text)
  }

  function WithWords(k: string, words: seq<string>): Settings {
    if k == "stop_services" then FRESH.(stop := Some(words))
    else if k == "ignored_serials" then FRESH.(serials := words)
    else FRESH.(uuids := words)
  }

  // The field a line sets, and the others left at their defaults; None when it raises.
  function SetBy(k: string, v: string): Option<Settings> {
    match KindOf(k)
    case Truth => if ParseBool(v).None? then None else Some(WithTruth(k, ParseBool(v).value))
    case Whole => if ParseInt(v).None? then None else Some(WithWhole(k, ParseInt(v).value))
    case Words => Some(WithWords(k, WordsOf(v)))
    case Line => if k == "service_backend" && v !in ["moonraker", "systemd", "null"] then None else Some(WithLine(k, v))
    case NoField => Some(FRESH)
  }

  ghost predicate Named(k: seq<string>) {
    && |k| == 15 && Unlike(k) && Lists(k) && k[14] == LEGACY
    && k[0] == "make_jobs" && k[1] == "clean_before_build" && k[2] == "reseed_on_build" && k[3] == "service_backend"
    && k[4] == "dry_run" && k[5] == "enable_flashing" && k[6] == "allow_flash_while_printing"
    && k[7] == "log_ring_size" && k[8] == "platformio_bin" && k[9] == "flashtool_path" && k[10] == "ui_accent_color"
    && k[11] == "ignored_serials" && k[12] == "ignored_canbus_uuids" && k[13] == "stop_services"
  }

  lemma KeysNamed()
    ensures Named(KEYS)
  {
    hide Unlike, Lists;
    KeysDiffer();
    FieldLists();
  }

  lemma TruthSet(k: seq<string>, i: nat, b: bool)
    requires Named(k) && i in {1, 2, 4, 5, 6}
    ensures Assembled(map[k[i] := Flag(b)], None) == WithTruth(k[i], b)
  {
  }

  lemma WholeSet(k: seq<string>, i: nat, n: int)
    requires Named(k) && i in {0, 7}
    ensures Assembled(map[k[i] := Number(n)], None) == WithWhole(k[i], n)
  {
  }

  lemma LineSet(k: seq<string>, i: nat, v: string)
    requires Named(k) && i in {3, 8, 9, 10}
    ensures Assembled(map[k[i] := Str(if i == 10 then Marked(v) else v)], None) == WithLine(k[i], v)
  {
  }

  lemma WordsSet(k: seq<string>, i: nat, words: seq<string>)
    requires Named(k) && i in {11, 12, 13}
    ensures Assembled(map[k[i] := Names(words)], if i == 13 then Some(words) else None) == WithWords(k[i], words)
  {
  }

  lemma TruthOne(k: seq<string>, i: nat, v: string)
    requires Named(k) && i in {1, 2, 4, 5, 6} && KindOf(k[i]) == Truth && Undash(k[i]) == k[i]
    ensures LoadOne(k[i], v) == SetBy(k[i], v)
  {
    hide Clean, Trim, ParseBool, ParseInt, WordsOf, KindOf, Undash, Assembled;
    KindAt(k, i);
    if ParseBool(v).Some? { TruthSet(k, i, ParseBool(v).value); }
  }

  lemma WholeOne(k: seq<string>, i: nat, v: string)
    requires Named(k) && i in {0, 7} && KindOf(k[i]) == Whole && Undash(k[i]) == k[i]
    ensures LoadOne(k[i], v) == SetBy(k[i], v)
  {
    hide Clean, Trim, ParseBool, ParseInt, WordsOf, KindOf, Undash, Assembled;
    KindAt(k, i);
    if ParseInt(v).Some? { WholeSet(k, i, ParseInt(v).value); }
  }

  lemma LineBackend(k: seq<string>, i: nat, v: string)
    requires Named(k) && i in {3, 8, 9, 10}
    ensures k[i] == "service_backend" <==> i == 3
    ensures WithLine(k[i], v).backend == if i == 3 then v else "moonraker"
  {
    hide Lists;
  }

  lemma LineBy(k: seq<string>, i: nat, v: string)
    requires Named(k) && i in {3, 8, 9, 10} && KindOf(k[i]) == Line
    ensures SetBy(k[i], v) == if i == 3 && !Backend(v) then None else Some(WithLine(k[i], v))
  {
    hide ParseBool, ParseInt, WordsOf, KindOf, Named, WithLine;
    LineBackend(k, i, v);
    assert v in ["moonraker", "systemd", "null"] <==> Backend(v);
  }

  lemma LineOne(k: seq<string>, i: nat, v: string)
    requires Named(k) && i in {3, 8, 9, 10} && KindOf(k[i]) == Line && Undash(k[i]) == k[i] && Clean(v)
    ensures LoadOne(k[i], v) == SetBy(k[i], v)
  {
    hide Clean, Trim, KindOf, Undash, Assembled, SetBy, WithLine, Marked, Lists;
    TrimClean(v);
    LineBackend(k, i, v);
    LineBy(k, i, v);
    LineSet(k, i, v);
    var field := Str(if i == 10 then Marked(v) else v);
    assert ReadOption(k[i], v) == Read(field);
    assert Assign(map[], k[i], Some(v)) == Some(map[k[i] := field]);
  }

  lemma WordsOne(k: seq<string>, i: nat, v: string)
    requires Named(k) && i in {11, 12, 13} && KindOf(k[i]) == Kind.Words && Undash(k[i]) == k[i]
    ensures LoadOne(k[i], v) == SetBy(k[i], v)
  {
    hide Clean, Trim, ParseBool, ParseInt, WordsOf, KindOf, Undash, Assembled;
    KindAt(k, i);
    WordsSet(k, i, WordsOf(v));
  }

  lemma OneSets(k: seq<string>, i: nat, v: string)
    requires Named(k) && i < 14 && Clean(v) && KindOf(k[i]) == TABLE[i] && Undash(k[i]) == k[i]
    ensures LoadOne(k[i], v) == SetBy(k[i], v)
  {
    hide Named, Clean, KindOf, Undash, LoadOne, SetBy;
    if i in {1, 2, 4, 5, 6} {
      TruthOne(k, i, v);
    } else if i in {0, 7} {
      WholeOne(k, i, v);
    } else if i in {3, 8, 9, 10} {
      LineOne(k, i, v);
    } else {
      WordsOne(k, i, v);
    }
  }

  // A file of one option sets that one field; the other fields are the defaults.
  lemma OneLineLoads(i: nat, v: string)
    requires i < 14 && Clean(v)
    ensures Load(["[updater]", KEYS[i] + ": " + v]) == SetBy(KEYS[i], v)
  {
    hide Clean, CleanKey, Unlike, Lists, Load, LoadOne, SetBy, KindOf, Undash, Named;
    KeysNamed();
    KeysClean();
    KeysUnderscored();
    KindTable();
    assert KEYS[i] != LEGACY by { KeysDiffer(); FieldLists(); }
    OneOption(KEYS[i] + ": " + v, KEYS[i], v);
    OneSets(KEYS, i, v);
  }

  lemma SomeWords()
    ensures Clean("yes") && Clean("Off") && Clean("maybe") && Clean("+12") && Clean("-1") && Clean("1.5")
  {
  }

  lemma YesIsTrue()
    ensures ParseBool("yes") == Some(true) && ParseBool("Off") == Some(false) && ParseBool("maybe") == None
  {
    hide ParseBool, Trim, Clean, Among;
    SomeWords();
    TrimClean("yes");
    TrimClean("Off");
    TrimClean("maybe");
    BoolWords("yes");
    BoolWords("Off");
    BoolWords("maybe");
    AmongThem();
  }

  lemma AmongThem()
    ensures Among("yes", YES) && Among("Off", NO) && !Among("maybe", YES) && !Among("maybe", NO)
  {
    assert Spells("yes", YES[1]) && Spells("Off", NO[2]);
    assert |YES[0]| == 4 && |YES[1]| == 3 && |YES[2]| == 2 && |YES[3]| == 1;
    assert !Letters("maybe"[0], NO[0][0]) && |NO[1]| == 2 && |NO[2]| == 3 && |NO[3]| == 1;
  }

  // A dry run is on with "yes", rebuilding is off with "Off", and "maybe" raises.
  lemma WordsLoad()
    ensures Load(["[updater]", "dry_run: yes"]) == Some(FRESH.(dryRun := true))
    ensures Load(["[updater]", "reseed_on_build: Off"]) == Some(FRESH.(reseed := false))
    ensures Load(["[updater]", "dry_run: maybe"]) == None
  {
    hide Load, Clean, ParseBool, Unlike, Lists, KindOf;
    SomeWords();
    YesIsTrue();
    KeysNamed();
    assert KEYS[4] + ": " + "yes" == "dry_run: yes" && KEYS[4] + ": " + "maybe" == "dry_run: maybe";
    assert KEYS[2] + ": " + "Off" == "reseed_on_build: Off";
    OneLineLoads(4, "yes");
    OneLineLoads(2, "Off");
    OneLineLoads(4, "maybe");
    KindTable();
  }

  // ----- numbers -----

  predicate AllDigits(s: string) { s != "" && forall i | 0 <= i < |s| :: '0' <= s[i] <= '9' }

  function Power(n: nat): nat { if n == 0 then 1 else 10 * Power(n - 1) }

  lemma {:induction false} DigitsParse(s: string)
    ensures ParseNat(s).Some? <==> s == "" || AllDigits(s)
  {
    if s != "" {
      DigitsParse(s[..|s| - 1]);
      assert s == s[..|s| - 1] + [s[|s| - 1]];
    }
  }

  // The first digit counts for as many tens as digits follow it.
  lemma {:induction false} FirstDigit(c: char, s: string)
    requires '0' <= c <= '9' && (s == "" || AllDigits(s))
    ensures ParseNat([c] + s).Some? && ParseNat(s).Some?
    ensures ParseNat([c] + s).value == (c as int - '0' as int) * Power(|s|) + ParseNat(s).value
  {
    hide ParseNat;
    if s == "" {
      EmptyIsZero();
      ParseNext("", c);
      assert [c] + s == "" + [c];
    } else {
      var n := |s| - 1;
      var last := s[n];
      FirstDigit(c, s[..n]);
      ParseNext([c] + s[..n], last);
      ParseNext(s[..n], last);
      assert [c] + s == [c] + s[..n] + [last] && s == s[..n] + [last];
      Tens(c as int - '0' as int, Power(n), ParseNat(s[..n]).value, last as int - '0' as int);
    }
  }

  lemma ParseNext(s: string, c: char)
    requires '0' <= c <= '9' && ParseNat(s).Some?
    ensures ParseNat("") == Some(0)
    ensures ParseNat(s + [c]) == Some(ParseNat(s).value * 10 + (c as int - '0' as int))
  {
    assert (s + [c])[..|s|] == s;
  }

  lemma Tens(d: int, p: nat, n: nat, last: int)
    ensures (d * p + n) * 10 + last == d * (10 * p) + (n * 10 + last)
  {
  }

  // A number is digits with a sign in front or none; anything else raises.
  lemma IntWords(raw: string)
    ensures var t := Trim(raw);
            && (ParseInt(raw).Some? <==> AllDigits(t) || (t != "" && t[0] in "+-" && AllDigits(t[1..])))
            && (AllDigits(t) ==> ParseInt(raw).value == ParseNat(t).value)
            && (t != "" && t[0] == '+' && AllDigits(t[1..]) ==> ParseInt(raw).value == ParseNat(t[1..]).value)
            && (t != "" && t[0] == '-' && AllDigits(t[1..]) ==> ParseInt(raw).value == 0 - ParseNat(t[1..]).value)
  {
    hide Trim;
    var t := Trim(raw);
    DigitsParse(t);
    if t != "" { DigitsParse(t[1..]); }
  }

  lemma NumbersLoad()
    ensures Load(["[updater]", "make_jobs: +12"]) == Some(FRESH.(jobs := 12))
    ensures Load(["[updater]", "make_jobs: -1"]) == Some(FRESH.(jobs := -1))
    ensures Load(["[updater]", "log_ring_size: 1.5"]) == None
  {
    hide Load, Clean, ParseInt, Unlike, Lists, KindOf;
    SomeWords();
    KeysNamed();
    NumbersParse();
    assert KEYS[0] + ": " + "+12" == "make_jobs: +12" && KEYS[0] + ": " + "-1" == "make_jobs: -1";
    assert KEYS[7] + ": " + "1.5" == "log_ring_size: 1.5";
    OneLineLoads(0, "+12");
    OneLineLoads(0, "-1");
    OneLineLoads(7, "1.5");
    KindTable();
  }

  lemma NumbersParse()
    ensures ParseInt("+12") == Some(12) && ParseInt("-1") == Some(-1) && ParseInt("1.5") == None
  {
    hide ParseInt, Trim, Clean, ParseNat;
    SomeWords();
    TrimClean("+12");
    TrimClean("-1");
    TrimClean("1.5");
    IntWords("+12");
    IntWords("-1");
    IntWords("1.5");
    assert "+12"[1..] == "12" == ['1'] + "2" && "2" == ['2'] + "" && "-1"[1..] == "1" == ['1'] + "";
    FirstDigit('1', "2");
    FirstDigit('2', "");
    FirstDigit('1', "");
    assert ParseNat("") == Some(0) by { EmptyIsZero(); }
    assert "1.5"[1] == '.';
  }

  lemma EmptyIsZero()
    ensures ParseNat("") == Some(0) && Power(0) == 1 && Power(1) == 10
  {
  }

  // ----- the colour -----

  // A colour is written without the marks in front of it, however many.
  lemma {:induction false} HashesGone(marks: string, rest: string)
    requires (forall i | 0 <= i < |marks| :: marks[i] == '#') && (rest != "" ==> rest[0] != '#')
    ensures WithoutHash(marks + rest) == rest
  {
    if marks == "" {
      assert marks + rest == rest;
    } else {
      assert (marks + rest)[1..] == marks[1..] + rest;
      HashesGone(marks[1..], rest);
    }
  }

  // ----- what is not set -----

  lemma DefaultsLoad()
    ensures Load([]) == Some(FRESH)
  {
    assert Kinds([]) == [];
    assert ParseLines([]) == START;
    assert KeysOf([], SECTION) == [];
    assert Trim("") == "";
  }

  // The retired key's unit is the stop list of a file that has none.
  lemma LegacyLoads()
    ensures Load(["[updater]", "service: klipper"]) == Some(FRESH.(stop := Some(["klipper"])))
  {
    hide Gives, CleanKey, Clean, Assembled, KeysOf, Given, ParseLines, Lookup, Undash, Trim;
    var lines := ["[updater]", "service: klipper"];
    LegacyWord();
    assert LEGACY + ": " + "klipper" == "service: klipper";
    OneLineFile("service: klipper", LEGACY, "klipper");
    GivesValues(lines, SECTION, [LEGACY], map[LEGACY := ["klipper"]], LEGACY);
    GivenTells(lines, SECTION, LEGACY);
    assert [LEGACY][..0] == [];
    assert Gather(lines, []) == Some(map[]);
    assert Gather(lines, [LEGACY]) == Assign(map[], Undash(LEGACY), Some("klipper")) == Some(map[]);
    NothingSet(["klipper"]);
  }

  lemma LegacyWord()
    ensures CleanKey(LEGACY) && Clean("klipper") && Undash(LEGACY) == LEGACY && Trim("klipper") == "klipper"
  {
    TrimClean("klipper");
  }

  lemma NothingSet(units: seq<string>)
    ensures Assembled(map[], Some(units)) == FRESH.(stop := Some(units))
  {
  }
}
