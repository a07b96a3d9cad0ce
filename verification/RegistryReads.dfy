// What a registry's keys mean and which files a load refuses, in the words of the file.

module RegistryReads {
  import opened Text
  import opened CfgSyntax
  import opened CfgParse
  import opened CfgOrder
  import opened CfgRender
  import opened CfgDocument
  import opened CfgOps
  import opened CfgGiven
  import opened CfgReads
  import opened CfgWitness
  import opened Words
  import opened Registry
  import opened RegistryOps
  import opened RegistryBack

  // ----- which sections are types -----

  // A type's section is "type" and a name, with any space between.
  lemma TypeNameIff(section: string, name: string)
    ensures TypeName(section) == Some(name) <==>
            name != "" && |section| >= 5 && section[..5] == "type " && Strip(section[5..]) == name
  {
    hide LStrip, RStrip;
    if |section| >= 5 && section[..5] == "type " {
      assert section[4] == section[..5][4] == ' ';
      assert section[4..] == " " + section[5..];
      LStripPad(" ", section[5..]);
    } else if section == "type" {
      StripIsTrimmed("");
      assert section[4..] == "";
    }
  }

  // ----- patches -----

  // Something, an arrow, and something, the arrow being the first.
  ghost predicate PatchShape(raw: string, before: string, after: string) {
    raw == before + "->" + after && forall j | 0 <= j < |before| :: !ArrowAt(raw, j)
  }

  lemma PatchRead(raw: string, before: string, after: string)
    requires PatchShape(raw, before, after)
    ensures ParsePatch(raw) == if Strip(before) == "" || Strip(after) == "" then None
                               else Some(Patch(Strip(before), Strip(after)))
  {
    hide Strip;
    var n := |before|;
    assert raw[n] == '-' && raw[n + 1] == '>';
    assert ArrowAt(raw, n);
    assert Arrow(raw, 0) == n;
    assert raw[..n] == before && raw[n + 2..] == after;
  }

  // A line is a patch exactly when there is a file before its first arrow and a line after it.
  lemma PatchIff(raw: string, p: Patch)
    ensures ParsePatch(raw) == Some(p) <==>
            && p.file != "" && p.line != ""
            && exists before, after :: PatchShape(raw, before, after) && p == Patch(Strip(before), Strip(after))
  {
    hide Strip, PatchShape;
    forall before, after | PatchShape(raw, before, after)
      ensures ParsePatch(raw) == if Strip(before) == "" || Strip(after) == "" then None
                                 else Some(Patch(Strip(before), Strip(after)))
    {
      PatchRead(raw, before, after);
    }
    if ParsePatch(raw).Some? { PatchSplit(raw); }
  }

  lemma PatchSplit(raw: string)
    requires ParsePatch(raw).Some?
    ensures exists before, after :: PatchShape(raw, before, after)
  {
    hide Strip;
    var n := Arrow(raw, 0);
    assert ArrowAt(raw, n);
    assert raw == raw[..n] + "->" + raw[n + 2..];
    assert PatchShape(raw, raw[..n], raw[n + 2..]);
  }

  // ----- which types are refused -----

  ghost predicate Refused(lines: seq<string>, s: string, builders: map<string, string>) {
    var fws := FamiliesAt(lines, s);
    || (exists k | k in {"env", "profile", "device_map", "klipper_section"} :: Lookup(lines, s, k).Some?)
    || fws == []
    || (exists fw | fw in fws :: fw !in builders)
    || (exists a, b | a in fws && b in fws :: a in builders && b in builders && builders[a] != builders[b])
  }

  // A type under a key that went away, with no family, with a family nobody declared, or with
  // families built by two tools is refused; nothing else about its families is.
  lemma RefusedIff(lines: seq<string>, s: string, builders: map<string, string>)
    ensures ValidType(lines, s, builders) <==> !Refused(lines, s, builders)
  {
    hide Lookup, FamiliesAt;
    assert forall k :: k in REFUSED <==> k in {"env", "profile", "device_map", "klipper_section"};
    var fws := FamiliesAt(lines, s);
    if fws != [] { assert fws[0] in fws; }
  }

  // A file loads exactly when no section repeats, no type in it is refused, and the patches
  // of those that are ours parse.
  lemma LoadsIff(lines: seq<string>, builders: map<string, string>)
    ensures LoadRegistry(lines, builders).Some? <==>
            && ParseLines(lines).duplicates == []
            && forall s | HasSection(lines, s) && TypeName(s).Some? ::
                 !Refused(lines, s, builders) && Loads(lines, s, builders)
  {
    hide TypeName, ParseLines, NamesOf, Refused, ValidType, LoadFrom;
    NamesTell(lines);
    WalkLoads(lines, NamesOf(lines), builders);
    forall s ensures ValidType(lines, s, builders) <==> !Refused(lines, s, builders) { RefusedIff(lines, s, builders); }
    forall s | TypeName(s).None? ensures Loads(lines, s, builders) { NoTypeLoads(lines, s, builders); }
    assert forall s :: s in NamesOf(lines) <==> HasSection(lines, s);
  }

  lemma TwoTools(lines: seq<string>, s: string, builders: map<string, string>, a: string, b: string)
    requires HasSection(lines, s) && TypeName(s).Some? && a in FamiliesAt(lines, s) && b in FamiliesAt(lines, s)
    requires a in builders && b in builders && builders[a] != builders[b]
    ensures LoadRegistry(lines, builders).None?
  {
    hide TypeName, ParseLines, FamiliesAt, LoadRegistry, Lookup;
    LoadsIff(lines, builders);
    assert Refused(lines, s, builders);
  }

  // ----- one type, key by key -----

  const ROWS := ["[type a]", "chipset: c", "serials: s", "canbus_uuids: u", "firmware: k",
                 "kconfig_make_profile: p", "stop_services: x", "k_extra_args: A",
                 "k_makefile_patches: f -> l", "k_extra_repos: r"]

  const READ := McuType("a", "c", ["s"], ["u"], ["k"], "p", Some(["x"]), ["k"],
                        map["k" := FwConfig("A", [Patch("f", "l")], ["r"])])

  const FILE_KEYS := ["chipset", "serials", "canbus_uuids", "firmware", "kconfig_make_profile", "stop_services",
                      "k_extra_args", "k_makefile_patches", "k_extra_repos"]
  const FILE_VALUES := ["c", "s", "u", "k", "p", "x", "A", "f -> l", "r"]

  // The first n options of a file.
  function Held(keys: seq<string>, values: seq<string>, n: nat): map<string, seq<string>>
    requires n <= |keys| == |values|
  {
    if n == 0 then map[] else Held(keys, values, n - 1)[keys[n - 1] := [values[n - 1]]]
  }

  lemma {:induction false} FileGives(rows: seq<string>, s: string, keys: seq<string>, values: seq<string>, n: nat)
    requires CleanName(s) && |rows| == |keys| + 1 == |values| + 1 && n <= |keys|
    requires rows[0] == "[" + s + "]"
    requires forall i | 0 <= i < |keys| :: rows[i + 1] == keys[i] + ": " + values[i]
    requires forall i | 0 <= i < |keys| :: CleanKey(keys[i]) && Clean(values[i])
    requires forall i, j | 0 <= i < j < |keys| :: keys[i] != keys[j]
    ensures Gives(rows[..n + 1], s, keys[..n], Held(keys, values, n))
    ensures forall k :: k in Held(keys, values, n) <==> k in keys[..n]
  {
    hide Gives, CleanKey, Clean, CleanName;
    if n == 0 {
      HeaderOnly(s);
      assert rows[..1] == ["[" + s + "]"];
    } else {
      FileGives(rows, s, keys, values, n - 1);
      var k, v, held := keys[n - 1], values[n - 1], Held(keys, values, n - 1);
      EntryMore(rows[..n], s, keys[..n - 1], held, k, v);
      assert k !in keys[..n - 1];
      assert rows[..n] + [k + ": " + v] == rows[..n + 1] && keys[..n - 1] + [k] == keys[..n];
      assert [] + [v] == [v];
    }
  }

  lemma {:induction false} HeldIs(keys: seq<string>, values: seq<string>, n: nat, i: nat)
    requires i < n <= |keys| == |values|
    requires forall i, j | 0 <= i < j < |keys| :: keys[i] != keys[j]
    ensures keys[i] in Held(keys, values, n) && Held(keys, values, n)[keys[i]] == [values[i]]
  {
    if i < n - 1 { HeldIs(keys, values, n - 1, i); }
  }

  function Told(key: string): int { if key == "" then 0 else |key| * 1000 + key[0] as int }

  lemma KeysTold()
    ensures |FILE_KEYS| == |FILE_VALUES| == 9 && |ROWS| == 10
    ensures forall i, j | 0 <= i < j < 9 :: FILE_KEYS[i] != FILE_KEYS[j]
    ensures forall k | k in REFUSED :: k !in FILE_KEYS
  {
    var k := FILE_KEYS;
    assert 'a' as int == 97 && 'c' as int == 99 && 'd' as int == 100 && 'e' as int == 101 && 'f' as int == 102;
    assert 'k' as int == 107 && 'p' as int == 112 && 's' as int == 115;
    assert Told(k[0]) == 7099 && Told(k[1]) == 7115 && Told(k[2]) == 12099 && Told(k[3]) == 8102;
    assert Told(k[4]) == 20107 && Told(k[5]) == 13115 && Told(k[6]) == 12107 && Told(k[7]) == 18107;
    assert Told(k[8]) == 13107;
    assert Told(REFUSED[0]) == 3101 && Told(REFUSED[1]) == 7112 && Told(REFUSED[2]) == 10100;
    assert Told(REFUSED[3]) == 15107;
  }

  lemma KeysLettered()
    ensures forall i | 0 <= i < |FILE_KEYS| :: Lettered(FILE_KEYS[i])
  {
  }

  lemma FileClean()
    ensures forall i | 0 <= i < |FILE_KEYS| :: CleanKey(FILE_KEYS[i])
    ensures forall i | 0 <= i < |FILE_VALUES| :: Clean(FILE_VALUES[i])
    ensures CleanName("type a")
  {
    hide Lettered, CleanKey;
    KeysLettered();
    forall i | 0 <= i < |FILE_KEYS| ensures CleanKey(FILE_KEYS[i]) { LettersClean(FILE_KEYS[i]); }
  }

  lemma RowsAre()
    ensures |FILE_KEYS| == |FILE_VALUES| == 9 && |ROWS| == 10 && ROWS[0] == "[" + "type a" + "]"
    ensures forall i | 0 <= i < 9 :: ROWS[i + 1] == FILE_KEYS[i] + ": " + FILE_VALUES[i]
  {
  }

  lemma RowsGive()
    ensures |FILE_KEYS| == |FILE_VALUES| == 9
    ensures ParseLines(ROWS).duplicates == [] && NamesOf(ROWS) == ["type a"]
    ensures forall i | 0 <= i < 9 :: Lookup(ROWS, "type a", FILE_KEYS[i]) == Some(FILE_VALUES[i])
    ensures forall k | k !in FILE_KEYS :: Lookup(ROWS, "type a", k).None?
  {
    hide Gives, Clean, CleanKey, CleanName, ParseLines, NamesOf, Lookup, Given, Held;
    KeysTold();
    FileClean();
    RowsAre();
    FileGives(ROWS, "type a", FILE_KEYS, FILE_VALUES, 9);
    assert ROWS[..10] == ROWS && FILE_KEYS[..9] == FILE_KEYS;
    var held := Held(FILE_KEYS, FILE_VALUES, 9);
    GivesValues(ROWS, "type a", FILE_KEYS, held, "chipset");
    forall k ensures Lookup(ROWS, "type a", k) == if k in held then First(held[k]) else None {
      GivesValues(ROWS, "type a", FILE_KEYS, held, k);
      GivenTells(ROWS, "type a", k);
    }
    forall i | 0 <= i < 9 ensures Lookup(ROWS, "type a", FILE_KEYS[i]) == Some(FILE_VALUES[i]) {
      HeldIs(FILE_KEYS, FILE_VALUES, 9, i);
    }
  }

  lemma OneItem(v: string)
    requires CleanItem(v)
    ensures ListOf(v) == [v]
  {
    hide Strip;
    StripIsTrimmed(v);
    assert SplitLines(v) == [v];
    assert [v][1..] == [];
    assert StripAll([v]) == [v];
  }

  lemma OnePatch()
    ensures ParseAll(["f -> l"]) == Some([Patch("f", "l")]) && CleanItem("f -> l")
  {
    hide ParsePatch, CleanItem;
    var patch := Patch("f", "l");
    assert RenderPatch(patch) == "f -> l";
    assert CleanPatch(patch) by { SmallPatch(); }
    PatchReads(patch);
    ParseNext([], "f -> l");
    assert [] + ["f -> l"] == ["f -> l"] && [] + [patch] == [patch];
  }

  lemma SmallPatch()
    ensures CleanPatch(Patch("f", "l"))
  {
  }

  lemma OneWord(v: string)
    requires Word(v)
    ensures WordsOf(v) == [v]
  {
    FirstWord(v, "");
    assert v + "" == v;
  }

  lemma TextsRead()
    ensures Trim("c") == "c" && Trim("p") == "p" && Trim("A") == "A" && ListOf("s") == ["s"] && ListOf("u") == ["u"]
    ensures ListOf("r") == ["r"] && WordsOf("k") == ["k"] && WordsOf("x") == ["x"]
    ensures ParseAll(ListOf("f -> l")) == Some([Patch("f", "l")])
  {
    hide Trim, ListOf, ParseAll;
    TrimClean("c");
    TrimClean("p");
    TrimClean("A");
    OneItem("s");
    OneItem("u");
    OneItem("r");
    OnePatch();
    OneItem("f -> l");
    OneWord("k");
    OneWord("x");
  }

  lemma KeysByName()
    ensures "chipset" == FILE_KEYS[0] && "serials" == FILE_KEYS[1] && "canbus_uuids" == FILE_KEYS[2]
    ensures "firmware" == FILE_KEYS[3] && "kconfig_make_profile" == FILE_KEYS[4] && "stop_services" == FILE_KEYS[5]
    ensures "k" + ARGS == FILE_KEYS[6] && "k" + PATCHES == FILE_KEYS[7] && "k" + REPOS == FILE_KEYS[8]
  {
  }

  lemma ValuesByName()
    ensures FILE_VALUES == ["c", "s", "u", "k", "p", "x", "A", "f -> l", "r"]
  {
  }

  // What the nine keys say.
  ghost predicate SaysSo(lines: seq<string>, s: string) {
    && Trim(TextAt(lines, s, "chipset")) == "c" && ListAt(lines, s, "serials") == ["s"]
    && ListAt(lines, s, "canbus_uuids") == ["u"] && WordsAt(lines, s, "firmware") == Some(["k"])
    && Trim(TextAt(lines, s, "kconfig_make_profile")) == "p" && WordsAt(lines, s, "stop_services") == Some(["x"])
    && Trim(TextAt(lines, s, "k" + ARGS)) == "A" && ListAt(lines, s, "k" + REPOS) == ["r"]
    && ParseAll(ListAt(lines, s, "k" + PATCHES)) == Some([Patch("f", "l")])
  }

  lemma RowsSaySo()
    ensures SaysSo(ROWS, "type a")
  {
    hide Lookup, Trim, ListOf, WordsOf, ParseAll;
    RowsGive();
    TextsRead();
    KeysByName();
    ValuesByName();
  }

  lemma OneFamily(lines: seq<string>, s: string)
    requires SaysSo(lines, s)
    ensures LoadFws(lines, s, ["k"]) == Some(map["k" := FwConfig("A", [Patch("f", "l")], ["r"])])
  {
    hide TextAt, ListAt, WordsAt, Trim, ParseAll;
    assert ["k"][..0] == [];
    assert LoadFws(lines, s, []) == Some(map[]);
    assert [] + [Patch("f", "l")] == [Patch("f", "l")];
  }

  lemma TypeReads(lines: seq<string>, s: string)
    requires SaysSo(lines, s)
    ensures LoadType(lines, s, "a") == Some(READ) && FamiliesAt(lines, s) == ["k"]
  {
    hide TextAt, ListAt, WordsAt, Trim, ParseAll, LoadFws;
    OneFamily(lines, s);
    OnceOne("k");
  }

  lemma OnceOne(name: string)
    ensures Once([name]) == [name]
  {
    assert [name][..0] == [] && Once([]) == [];
  }

  lemma NameOfA()
    ensures TypeName("type a") == Some("a")
  {
    TypeNameIff("type a", "a");
    assert "type a"[..5] == "type " && "type a"[5..] == "a";
    StripIsTrimmed("a");
  }

  lemma OnlySection(lines: seq<string>, builders: map<string, string>)
    requires ParseLines(lines).duplicates == [] && NamesOf(lines) == ["type a"] && SaysSo(lines, "type a")
    requires forall k | k in REFUSED :: Lookup(lines, "type a", k).None?
    ensures LoadRegistry(lines, builders) ==
            if "k" !in builders then None
            else Some(if builders["k"] == KCONFIG then map["a" := READ] else map[])
  {
    hide ParseLines, NamesOf, Lookup, TypeName, SaysSo, LoadType;
    NameOfA();
    TypeReads(lines, "type a");
    assert ["type a"][..0] == [];
    assert LoadFrom(lines, [], builders) == Some(map[]);
    assert LoadFrom(lines, ["type a"], builders) == AlsoLoad(map[], lines, "type a", builders);
  }

  // The file loads as that type when its family is built by kconfig and make; when it is
  // built by another tool the type is not this registry's, and when nobody declared the
  // family the load raises.
  lemma FileLoads()
    ensures LoadRegistry(ROWS, map["k" := "kconfig_make"]) == Some(map["a" := READ])
    ensures LoadRegistry(ROWS, map["k" := "platformio"]) == Some(map[])
    ensures LoadRegistry(ROWS, map[]) == None
  {
    hide LoadRegistry, ParseLines, NamesOf, Lookup, SaysSo;
    RowsGive();
    RowsSaySo();
    KeysTold();
    assert "platformio"[0] != KCONFIG[0];
    OnlySection(ROWS, map["k" := "kconfig_make"]);
    OnlySection(ROWS, map["k" := "platformio"]);
    OnlySection(ROWS, map[]);
  }
}
