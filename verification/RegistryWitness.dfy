// Registries that do not come back as they were saved.

module RegistryWitness {
  import opened Text
  import opened CfgSyntax
  import opened CfgParse
  import opened CfgEdits
  import opened CfgValues
  import opened CfgOrder
  import opened CfgRender
  import opened CfgDocument
  import opened CfgOps
  import opened CfgGiven
  import opened CfgReads
  import opened CfgWitness
  import opened Words
  import opened Registry
  import opened RegistryOps
  import opened RegistryType
  import opened RegistryTrip
  import opened RegistryBack
  import opened RegistryCycles

  const BUILDERS := map["k" := KCONFIG]

  ghost function Reloaded(lines: seq<string>, m: McuType): Option<map<string, McuType>> {
    LoadRegistry(SavedFile(lines, [m], []), BUILDERS)
  }

  // What a save of one type comes to, when it loads.
  lemma OneType(lines: seq<string>, m: McuType)
    requires OneLiners(lines) && CleanType(m, []) && LoadRegistry(lines, BUILDERS).Some? && Loadable(lines, m, BUILDERS)
    ensures Reloaded(lines, m).Some?
    ensures var w := SectionFor(lines, m.name);
            var later := LaterOf(lines, BUILDERS, w, m.name);
            m.name in Reloaded(lines, m).value && Same(m, Reloaded(lines, m).value[m.name]) <==>
            if later.Some? then
              LoadType(lines, later.value, m.name).Some? && Same(m, LoadType(lines, later.value, m.name).value)
            else Ours(m.firmwares, BUILDERS) && NothingLeft(lines, w, m) && NoneDoubled(m)
  {
    hide CleanType, LoadRegistry, Loadable, SectionFor, LaterOf, Same, LoadType, NothingLeft, NoneDoubled, Ours,
         SavedFile;
    SavedLoads(lines, [m], [], BUILDERS);
    RoundTripIff(lines, [m], [], BUILDERS, 0);
  }

  // ----- a section that names one family -----

  // It names k, has no key a type is refused for, and no patches.
  ghost predicate JustK(lines: seq<string>, s: string) {
    && FamiliesAt(lines, s) == ["k"] && (forall q | q in REFUSED :: Lookup(lines, s, q).None?)
    && Lookup(lines, s, "k" + PATCHES).None? && LeftText(lines, s, "k" + PATCHES) == ""
  }

  lemma OursK()
    ensures GoodFamilies(["k"], BUILDERS) && Ours(["k"], BUILDERS)
  {
  }

  lemma RefusedKeysApart()
    ensures "firmware" !in REFUSED && "stop_services" !in REFUSED
  {
    assert |"firmware"| == 8 && |"env"| == 3 && |"profile"| == 7 && |"device_map"| == 10 && |"klipper_section"| == 15;
  }

  lemma PatchesKey()
    ensures "k" + PATCHES != "firmware" && "k" + PATCHES != "stop_services" && ParseAll(ListOf("")) == Some([])
  {
    hide Tail;
    FwKeyTails("k");
    FwTails();
    FirmwareTail();
    NoPatches();
    assert SplitLines("") == [] && ListOf("") == [];
  }

  lemma NoPatchesAt(lines: seq<string>, s: string)
    requires JustK(lines, s)
    ensures LoadFws(lines, s, ["k"]).Some?
  {
    hide Lookup, ListOf, ParseAll;
    PatchesKey();
    FamiliesParse(lines, s, ["k"]);
  }

  lemma Walks(lines: seq<string>, s: string)
    requires JustK(lines, s)
    ensures Loads(lines, s, BUILDERS) && ValidType(lines, s, BUILDERS)
  {
    hide Lookup, TypeName, TextAt, ListAt, WordsAt, Ours, FamiliesAt, LoadFws, GoodFamilies;
    NoPatchesAt(lines, s);
    OursK();
  }

  lemma WithK(lines: seq<string>, m: McuType)
    requires m.firmwares == ["k"] && JustK(lines, SectionFor(lines, m.name))
    ensures Loadable(lines, m, BUILDERS)
  {
    hide SectionFor, ParseAll, ListOf, FwGet, GoodFamilies, Ours, LeftText;
    OursK();
    PatchesKey();
  }

  // ----- one type in two sections -----

  const TWICE := ["[type a]", "firmware: k", "[type  a]", "firmware: k"]

  lemma TwiceReads()
    ensures NamesOf(TWICE) == ["type a", "type  a"] && ParseLines(TWICE).duplicates == [] && OneLiners(TWICE)
    ensures forall q :: Given(TWICE, "type a", q) == Given(TWICE, "type  a", q) == if q == "firmware" then ["k"] else []
  {
    hide Classify;
    HeaderRow("type a");
    HeaderRow("type  a");
    FirmwareRow();
    assert "[" + "type a" + "]" == "[type a]" && "[" + "type  a" + "]" == "[type  a]";
    var kinds := [Header("type a"), Entry("firmware", "k"), Header("type  a"), Entry("firmware", "k")];
    assert Kinds(TWICE) == kinds;
    assert "type a"[5] != "type  a"[5];
    TwoSections(kinds, "type a", "type  a", "firmware", "k");
  }

  lemma HeaderRow(s: string)
    requires s in {"type a", "type  a"}
    ensures Classify("[" + s + "]") == Header(s) && OneLine("[" + s + "]")
  {
    hide Classify;
    HeaderLine(s, "");
    assert "[" + s + "]" + "" == "[" + s + "]";
  }

  lemma FirmwareRow()
    ensures Classify("firmware: k") == Entry("firmware", "k") && OneLine("firmware: k")
    ensures CleanKey("firmware") && Clean("k") && "firmware" + ": " + "k" == "firmware: k"
  {
    hide Classify;
    PlainLine("firmware", "k");
    assert "firmware" + ": " + "k" == "firmware: k";
  }

  lemma WordK()
    ensures Word("k") && WordsOf("k") == ["k"]
  {
    FirstWord("k", "");
    assert "k" + "" == "k" && WordsOf("") == [] && ["k"] + [] == ["k"];
  }

  lemma BothDeclareA()
    ensures TypeName("type a") == Some("a") == TypeName("type  a")
  {
    hide Strip;
    StripPadded(" ", "a", "");
    StripPadded("  ", "a", "");
    assert "type a"[4..] == " " + "a" + "" && "type  a"[4..] == "  " + "a" + "";
    assert "type a"[..5] == "type " == "type  a"[..5];
  }

  // Each of the two sections as a load sees it.
  lemma TwiceLoads(s: string)
    requires s in {"type a", "type  a"}
    ensures JustK(TWICE, s)
  {
    hide Given, Lookup, WordsOf;
    PatchesKey();
    RefusedKeysApart();
    WordK();
    TwiceGiven(s, "firmware");
    TwiceGiven(s, "k" + PATCHES);
    forall q | q in REFUSED ensures Lookup(TWICE, s, q).None? { TwiceGiven(s, q); }
  }

  lemma TwiceGiven(s: string, q: string)
    requires s in {"type a", "type  a"}
    ensures Given(TWICE, s, q) == if q == "firmware" then ["k"] else []
    ensures Lookup(TWICE, s, q) == if q == "firmware" then Some("k") else None
  {
    hide Given, Lookup, CopiesOf, KeysOf, NamesOf, ParseLines;
    TwiceReads();
    GivenTells(TWICE, s, q);
  }

  lemma TwiceValid()
    ensures LoadRegistry(TWICE, BUILDERS).Some?
  {
    hide NamesOf, ParseLines, LoadFrom, TypeName, ValidType, Loads, JustK;
    TwiceReads();
    TwiceLoads("type a");
    TwiceLoads("type  a");
    Walks(TWICE, "type a");
    Walks(TWICE, "type  a");
    WalkLoads(TWICE, NamesOf(TWICE), BUILDERS);
  }

  // A save goes to the first section, a load to the second.
  lemma TwiceLater()
    ensures SectionFor(TWICE, "a") == "type a" && LaterOf(TWICE, BUILDERS, "type a", "a") == Some("type  a")
  {
    hide Lookup, TypeName, NamesOf, FamiliesAt, Ours, SectionFor;
    TwiceReads();
    BothDeclareA();
    OursK();
    TwiceLoads("type  a");
    SectionByOrder(TWICE, "a");
    assert ["type a", "type  a"][1..] == ["type  a"];
    OneMine(TWICE, "type  a", BUILDERS, "a");
  }

  lemma SecondReads()
    ensures LoadType(TWICE, "type  a", "a").Some? && LoadType(TWICE, "type  a", "a").value.chipset == ""
  {
    hide Lookup, ListAt, WordsAt, FamiliesAt, LoadFws, Trim, Given;
    TwiceLoads("type  a");
    NoPatchesAt(TWICE, "type  a");
    TwiceReads();
    assert |"chipset"| == 7 && |"firmware"| == 8;
    GivenTells(TWICE, "type  a", "chipset");
    assert Trim("") == "" by { TrimClean(""); }
  }

  lemma FirmwareTail()
    ensures Tail("firmware") == 'w' && Tail("stop_services") == 'i'
  {
  }

  // A save writes to the first of the two, a load keeps the last: the edit is lost.
  lemma EditLost(m: McuType)
    requires CleanType(m, []) && m.name == "a" && m.firmwares == ["k"] && m.chipset != ""
    ensures Reloaded(TWICE, m).Some?
    ensures !("a" in Reloaded(TWICE, m).value && Same(m, Reloaded(TWICE, m).value["a"]))
  {
    hide CleanType, LoadRegistry, Loadable, SectionFor, LaterOf, LoadType, NothingLeft, NoneDoubled, Ours, SavedFile,
         Reloaded;
    TwiceReads();
    TwiceValid();
    TwiceLater();
    SecondReads();
    TwiceLoads("type a");
    WithK(TWICE, m);
    OneType(TWICE, m);
  }

  // ----- a family declared twice -----

  const DOUBLED := McuType("a", "", [], [], ["k", "k"], "", None, ["k"],
    map["k" := FwConfig("", [Patch("f", "l")], [])])

  lemma DoubledClean()
    ensures CleanType(DOUBLED, [])
  {
    hide Trimmed, Clean, CleanName, CleanItem, FwName, Word;
    SmallTexts();
    assert DOUBLED.slots + [] == ["k"] && "type " + "a" == "type a";
    assert CleanPatch(Patch("f", "l"));
    assert CleanCfg(DOUBLED.fws["k"]);
  }

  lemma SmallTexts()
    ensures CleanName("type a") && Clean("") && Trimmed("a") && FwName("k") && CleanItem("f") && CleanItem("l")
    ensures Arrow("f", 0) == |"f"| && Word("k")
  {
    WordK();
  }

  lemma DoubledTimes()
    ensures TimesIn(DOUBLED.firmwares, "k") == 2 && FwGet(DOUBLED, "k").patches != []
  {
    assert ["k", "k"][..1] == ["k"] && ["k"][..0] == [];
    assert TimesIn(["k"], "k") == 1;
  }

  lemma EmptyFile()
    ensures LoadRegistry([], BUILDERS).Some? && NamesOf([]) == [] && SectionFor([], "a") == "type a"
    ensures LaterOf([], BUILDERS, "type a", "a").None?
  {
    hide SectionFor, TypeName;
    assert Kinds([]) == [];
    SectionByOrder([], "a");
    assert "type " + "a" == "type a";
  }

  lemma DoubledLoadable()
    ensures Loadable([], DOUBLED, BUILDERS) && Ours(DOUBLED.firmwares, BUILDERS)
  {
    hide LeftText, ListOf, ParseAll, SectionFor;
    DoubledTimes();
    assert forall fw | fw in DOUBLED.firmwares :: fw == "k";
  }

  // It loads with its patches twice over, not as it was.
  lemma PatchesDoubled()
    ensures Reloaded([], DOUBLED).Some?
    ensures !("a" in Reloaded([], DOUBLED).value && Same(DOUBLED, Reloaded([], DOUBLED).value["a"]))
  {
    hide CleanType, LoadRegistry, Loadable, SectionFor, LaterOf, LoadType, NothingLeft, Same, Ours, SavedFile,
         Reloaded, FwGet, TimesIn;
    DoubledClean();
    DoubledTimes();
    DoubledLoadable();
    EmptyFile();
    assert "k" in DOUBLED.firmwares;
    OneType([], DOUBLED);
  }

  // And twice over again with every cycle.
  lemma DoubledEachTime(n: nat)
    ensures |FwGet(Cycled(Held([], DOUBLED), [], n).m, "k").patches| == Power(2, n)
  {
    hide CleanType, Cycled, FwGet, SectionFor, Given, TimesIn;
    var h := Held([], DOUBLED);
    DoubledClean();
    DoubledTimes();
    forall s, k ensures |Given([], s, k)| == 0 { NothingGiven(s, k); }
    assert "k" in DOUBLED.firmwares;
    CyclesMultiply(h, [], n, "k");
    OnePatch();
  }

  lemma NothingGiven(s: string, k: string)
    ensures Given([], s, k) == []
  {
    assert Kinds([]) == [];
  }

  lemma OnePatch()
    ensures |FwGet(DOUBLED, "k").patches| == 1
  {
  }

  // ----- a key the save removes, given twice -----

  const REPEATED := ["[type a]", "firmware: k", "stop_services: x", "stop_services: y"]

  lemma RepeatedReads()
    ensures Gives(REPEATED, "type a", ["firmware", "stop_services"],
            map["firmware" := ["k"], "stop_services" := ["x", "y"]])
  {
    hide Gives, CleanKey, Clean, CleanName, AlsoGives;
    var one, two := ["[type a]"], ["[type a]", "firmware: k"];
    HeadOfA();
    FirmwareRow();
    EntryMore(one, "type a", [], map[], "firmware", "k");
    FirstKey("firmware", "k");
    assert one + ["firmware: k"] == two;
    StopReads(two);
  }

  lemma HeadOfA()
    ensures Gives(["[type a]"], "type a", [], map[])
  {
    hide Gives, CleanName;
    StopRows();
    HeaderOnly("type a");
    assert "[" + "type a" + "]" == "[type a]";
  }

  lemma StopReads(two: seq<string>)
    requires two == ["[type a]", "firmware: k"] && Gives(two, "type a", ["firmware"], map["firmware" := ["k"]])
    ensures Gives(REPEATED, "type a", ["firmware", "stop_services"],
            map["firmware" := ["k"], "stop_services" := ["x", "y"]])
  {
    hide Gives, CleanKey, Clean, CleanName, AlsoGives;
    StopRows();
    var three := two + ["stop_services: x"];
    assert three + ["stop_services: y"] == REPEATED;
    EntryMore(two, "type a", ["firmware"], map["firmware" := ["k"]], "stop_services", "x");
    StopOnce();
    EntryMore(three, "type a", ["firmware", "stop_services"], map["firmware" := ["k"], "stop_services" := ["x"]],
              "stop_services", "y");
    StopTwice();
  }

  lemma StopOnce()
    ensures ["firmware"] + ["stop_services"] == ["firmware", "stop_services"] && "stop_services" !in ["firmware"]
    ensures AlsoGives(map["firmware" := ["k"]], "stop_services", "x") ==
            map["firmware" := ["k"], "stop_services" := ["x"]]
  {
    assert |"firmware"| == 8 && |"stop_services"| == 13;
    assert [] + ["x"] == ["x"];
  }

  lemma StopTwice()
    ensures AlsoGives(map["firmware" := ["k"], "stop_services" := ["x"]], "stop_services", "y") ==
            map["firmware" := ["k"], "stop_services" := ["x", "y"]]
  {
    assert ["x"] + ["y"] == ["x", "y"];
  }

  lemma StopRows()
    ensures CleanName("type a") && CleanKey("stop_services") && Clean("x") && Clean("y")
    ensures "stop_services" + ": " + "x" == "stop_services: x" && "stop_services" + ": " + "y" == "stop_services: y"
  {
  }

  lemma RepeatedLoads()
    ensures JustK(REPEATED, "type a") && LoadRegistry(REPEATED, BUILDERS).Some?
    ensures SectionFor(REPEATED, "a") == "type a" && LaterOf(REPEATED, BUILDERS, "type a", "a").None?
  {
    hide Given, Lookup, WordsOf, Gives, NamesOf, ParseLines, LoadFrom, TypeName, ValidType, Loads, FamiliesAt,
         SectionFor;
    RepeatedReads();
    RepeatedJustK();
    GivesValues(REPEATED, "type a", ["firmware", "stop_services"],
                map["firmware" := ["k"], "stop_services" := ["x", "y"]], "firmware");
    Walks(REPEATED, "type a");
    WalkLoads(REPEATED, NamesOf(REPEATED), BUILDERS);
    BothDeclareA();
    SectionByOrder(REPEATED, "a");
    assert ["type a"][1..] == [];
  }

  lemma RepeatedJustK()
    ensures JustK(REPEATED, "type a")
  {
    hide Given, Lookup, WordsOf, Gives;
    RepeatedReads();
    PatchesKey();
    RefusedKeysApart();
    WordK();
    GivenTells(REPEATED, "type a", "firmware");
    RepeatedGives("firmware");
    RepeatedGives("k" + PATCHES);
    GivenTells(REPEATED, "type a", "k" + PATCHES);
    forall q | q in REFUSED ensures Lookup(REPEATED, "type a", q).None? {
      RepeatedGives(q);
      GivenTells(REPEATED, "type a", q);
    }
  }

  lemma RepeatedGives(q: string)
    ensures Given(REPEATED, "type a", q) == if q == "firmware" then ["k"] else if q == "stop_services" then ["x", "y"]
            else []
  {
    hide Given, Gives;
    RepeatedReads();
    assert |"firmware"| == 8 && |"stop_services"| == 13;
    GivesValues(REPEATED, "type a", ["firmware", "stop_services"],
                map["firmware" := ["k"], "stop_services" := ["x", "y"]], q);
  }

  // A type whose stop list was unset comes back with the second line's.
  lemma StopListStays(m: McuType)
    requires CleanType(m, []) && m.name == "a" && m.firmwares == ["k"] && m.stop.None?
    ensures Reloaded(REPEATED, m).Some?
    ensures !("a" in Reloaded(REPEATED, m).value && Same(m, Reloaded(REPEATED, m).value["a"]))
  {
    hide CleanType, LoadRegistry, Loadable, SectionFor, LaterOf, LoadType, NoneDoubled, Same, Ours, SavedFile,
         Reloaded, JustK, Given, Gives, NothingLeftOf, FwGet, LeftText, ListOf, Trim;
    RepeatedReads();
    RepeatedLoads();
    RepeatedGives("stop_services");
    GivesValues(REPEATED, "type a", ["firmware", "stop_services"],
                map["firmware" := ["k"], "stop_services" := ["x", "y"]], "firmware");
    assert !NothingLeft(REPEATED, "type a", m);
    WithK(REPEATED, m);
    OneType(REPEATED, m);
  }
}
