// One type, saved and loaded again.

module RegistryType {
  import opened Text
  import opened CfgSyntax
  import opened CfgParse
  import opened CfgEdits
  import opened CfgOrder
  import opened CfgRender
  import opened CfgDocument
  import opened CfgLaws
  import opened CfgOps
  import opened CfgGiven
  import opened CfgReads
  import opened Words
  import opened Registry
  import opened RegistryOps

  // ----- families, and how often each is declared -----

  function TimesIn(fws: seq<string>, fw: string): (n: nat)
    ensures n == 0 <==> fw !in fws
  {
    if fws == [] then 0
    else
      assert fws == fws[..|fws| - 1] + [fws[|fws| - 1]];
      TimesIn(fws[..|fws| - 1], fw) + if fws[|fws| - 1] == fw then 1 else 0
  }

  function Repeated(patches: seq<Patch>, n: nat): (r: seq<Patch>)
    ensures |r| == n * |patches|
  {
    if n == 0 then [] else Repeated(patches, n - 1) + patches
  }

  function PatchesAt(lines: seq<string>, s: string, fw: string): Option<seq<Patch>> {
    ParseAll(ListAt(lines, s, fw + PATCHES))
  }

  // The declared families load when all their patches parse.
  lemma {:induction false} FamiliesParse(lines: seq<string>, s: string, fws: seq<string>)
    ensures LoadFws(lines, s, fws).Some? <==> forall fw | fw in fws :: PatchesAt(lines, s, fw).Some?
  {
    hide ListAt, TextAt, Trim, ParseAll;
    if fws != [] {
      var n := |fws| - 1;
      assert forall fw :: fw in fws <==> fw in fws[..n] || fw == fws[n] by { assert fws == fws[..n] + [fws[n]]; }
      FamiliesParse(lines, s, fws[..n]);
      assert LoadFws(lines, s, fws).Some? <==> LoadFws(lines, s, fws[..n]).Some? && PatchesAt(lines, s, fws[n]).Some?;
    }
  }

  // Each has its arguments and repositories, and its patches as often over as it is declared.
  lemma {:induction false} FamilyLoaded(lines: seq<string>, s: string, fws: seq<string>, fw: string)
    requires LoadFws(lines, s, fws).Some?
    ensures fw in LoadFws(lines, s, fws).value <==> fw in fws
    ensures fw in fws ==>
              && PatchesAt(lines, s, fw).Some?
              && LoadFws(lines, s, fws).value[fw] ==
                 FwConfig(Trim(TextAt(lines, s, fw + ARGS)), Repeated(PatchesAt(lines, s, fw).value, TimesIn(fws, fw)),
                          ListAt(lines, s, fw + REPOS))
  {
    hide ListAt, TextAt, Trim, ParseAll;
    if fws != [] {
      var n := |fws| - 1;
      assert fws == fws[..n] + [fws[n]];
      FamilyLoaded(lines, s, fws[..n], fw);
      if fws[n] == fw && fw !in fws[..n] { assert Repeated(PatchesAt(lines, s, fw).value, 0) == []; }
    }
  }

  // A list repeated is the list itself when it is taken once, or empty.
  lemma RepeatedIs(patches: seq<Patch>, n: nat)
    requires n >= 1
    ensures Repeated(patches, n) == patches <==> n == 1 || patches == []
  {
    if n == 1 {
      assert Repeated(patches, 1) == [] + patches;
    } else if patches != [] {
      assert |Repeated(patches, n)| == |Repeated(patches, n - 1)| + |patches|;
      assert |Repeated(patches, n - 1)| == (n - 1) * |patches| >= |patches|;
    } else {
      RepeatedNone(n);
    }
  }

  lemma {:induction false} RepeatedNone(n: nat)
    ensures Repeated([], n) == []
  {
    if n > 0 { RepeatedNone(n - 1); }
  }

  // ----- what a save leaves under the keys of one type -----

  ghost predicate SavedType(lines: seq<string>, back: seq<string>, s: string, ops: seq<Op>) {
    forall op | op in ops :: Given(back, s, op.key) == Edited(op, Given(lines, s, op.key))
  }

  lemma OpAfter(lines: seq<string>, back: seq<string>, s: string, ops: seq<Op>, op: Op)
    requires SavedType(lines, back, s, ops) && op in ops
    ensures op.Put? ==> Lookup(back, s, op.key) == Some(TextOf(op.value))
    ensures op.Drop? ==> TextAt(back, s, op.key) == LeftText(lines, s, op.key)
    ensures op.Drop? ==> (Lookup(back, s, op.key).Some? <==> |Given(lines, s, op.key)| > 1)
  {
    hide Given, Lookup, TextOf, LeftText, TextAt;
    assert Given(back, s, op.key) == Edited(op, Given(lines, s, op.key));
    OneAfter(lines, back, s, op);
  }

  lemma OneAfter(lines: seq<string>, back: seq<string>, s: string, op: Op)
    requires Given(back, s, op.key) == Edited(op, Given(lines, s, op.key))
    ensures op.Put? ==> Lookup(back, s, op.key) == Some(TextOf(op.value))
    ensures op.Drop? ==> TextAt(back, s, op.key) == LeftText(lines, s, op.key)
    ensures op.Drop? ==> (Lookup(back, s, op.key).Some? <==> |Given(lines, s, op.key)| > 1)
  {
    hide Given, Lookup, TextOf;
    GivenTells(back, s, op.key);
  }

  // Once the line of a key is removed, nothing is left under it that a load would take.
  ghost predicate NothingLeft(lines: seq<string>, s: string, m: McuType) {
    && (m.uuids == [] ==> ListOf(LeftText(lines, s, "canbus_uuids")) == [])
    && (m.profile == "" ==> Trim(LeftText(lines, s, "kconfig_make_profile")) == "")
    && (m.stop.None? ==> |Given(lines, s, "stop_services")| <= 1)
    && (forall fw | fw in m.firmwares :: NothingLeftOf(lines, s, fw, FwGet(m, fw)))
  }

  ghost predicate NothingLeftOf(lines: seq<string>, s: string, fw: string, cfg: FwConfig) {
    && (cfg.args == "" ==> Trim(LeftText(lines, s, fw + ARGS)) == "")
    && (cfg.patches == [] ==> ListOf(LeftText(lines, s, fw + PATCHES)) == [])
    && (cfg.repos == [] ==> ListOf(LeftText(lines, s, fw + REPOS)) == [])
  }

  // No family with patches is declared twice.
  ghost predicate NoneDoubled(m: McuType) {
    forall fw | fw in m.firmwares :: TimesIn(m.firmwares, fw) == 1 || FwGet(m, fw).patches == []
  }

  lemma OpsIn(m: McuType, known: seq<string>, op: Op)
    requires CleanType(m, known)
    ensures op in TypeOps(m) ==> op in SaveOps(m, known)
    ensures forall fw | fw in m.firmwares :: op in FwOps(m, fw) ==> op in SaveOps(m, known)
  {
    hide TypeOps, FwOps, CleanOps, SaveOps, Clean, CleanItems, FwName, CleanCfg, AllWords, CleanName, Trimmed;
    SaveOpsClean(m, known);
  }

  // A text that is put, or whose key is removed when it is empty.
  lemma TextAfter(lines: seq<string>, back: seq<string>, s: string, ops: seq<Op>, key: string, text: string)
    requires SavedType(lines, back, s, ops) && Clean(text)
    requires (if text != "" then Put(key, TextValue(text)) else Drop(key)) in ops
    ensures Trim(TextAt(back, s, key)) == text <==> (text == "" ==> Trim(LeftText(lines, s, key)) == "")
  {
    hide Given, Lookup, TextOf, Trim, Clean, LeftText;
    OpAfter(lines, back, s, ops, if text != "" then Put(key, TextValue(text)) else Drop(key));
    CleanIsText(text);
    TrimClean(text);
  }

  lemma ListAfter(lines: seq<string>, back: seq<string>, s: string, ops: seq<Op>, key: string, items: seq<string>)
    requires SavedType(lines, back, s, ops) && CleanItems(items)
    requires (if items != [] then Put(key, Items(items)) else Drop(key)) in ops
    ensures ListAt(back, s, key) == (if items == [] then ListOf(LeftText(lines, s, key)) else items)
  {
    hide Given, Lookup, CleanItems, LeftText, ListOf;
    OpAfter(lines, back, s, ops, if items != [] then Put(key, Items(items)) else Drop(key));
    ItemsText(items);
  }

  lemma ItemsText(items: seq<string>)
    requires CleanItems(items)
    ensures ListOf(TextOf(Items(items))) == items
  {
    NonBlankClean(items);
    ListOfJoined(items);
  }

  // ----- the type's own keys -----

  ghost predicate OwnSame(back: seq<string>, s: string, m: McuType) {
    && Trim(TextAt(back, s, "chipset")) == m.chipset && ListAt(back, s, "serials") == m.serials
    && ListAt(back, s, "canbus_uuids") == m.uuids && FamiliesAt(back, s) == m.firmwares
    && Trim(TextAt(back, s, "kconfig_make_profile")) == m.profile && WordsAt(back, s, "stop_services") == m.stop
  }

  lemma OwnBack(lines: seq<string>, back: seq<string>, s: string, m: McuType, known: seq<string>)
    requires CleanType(m, known) && SavedType(lines, back, s, SaveOps(m, known))
    ensures FamiliesAt(back, s) == m.firmwares
    ensures OwnSame(back, s, m) <==>
            && (m.uuids == [] ==> ListOf(LeftText(lines, s, "canbus_uuids")) == [])
            && (m.profile == "" ==> Trim(LeftText(lines, s, "kconfig_make_profile")) == "")
            && (m.stop.None? ==> |Given(lines, s, "stop_services")| <= 1)
  {
    hide Given, Lookup, TextOf, Trim, Clean, CleanItems, FwName, CleanCfg, AllWords, CommaJoin, CleanName, SaveOps,
         LeftText, ListOf, ListAt, TextAt, SavedType, WordsAt;
    var ops := SaveOps(m, known);
    forall op | op in TypeOps(m) ensures op in ops { OpsIn(m, known, op); }
    var own := TypeOps(m);
    assert own[0] in own && own[1] in own && own[2] in own && own[3] in own && own[4] in own && own[5] in own;
    AlwaysPut(lines, back, s, m, known);
    TrimClean(m.profile);
    ListAfter(lines, back, s, ops, "canbus_uuids", m.uuids);
    TextAfter(lines, back, s, ops, "kconfig_make_profile", m.profile);
    StopAfter(lines, back, s, ops, m);
  }

  lemma AlwaysPut(lines: seq<string>, back: seq<string>, s: string, m: McuType, known: seq<string>)
    requires CleanType(m, known) && SavedType(lines, back, s, SaveOps(m, known))
    ensures Trim(TextAt(back, s, "chipset")) == m.chipset && ListAt(back, s, "serials") == m.serials
    ensures FamiliesAt(back, s) == m.firmwares
  {
    hide Given, Lookup, TextOf, Trim, Clean, CleanItems, FwName, CleanCfg, AllWords, CommaJoin, CleanName, SaveOps,
         LeftText, ListOf, SavedType, WordsOf;
    var ops, own := SaveOps(m, known), TypeOps(m);
    assert own[0] in own && own[1] in own && own[3] in own;
    OpsIn(m, known, own[0]);
    OpsIn(m, known, own[1]);
    OpsIn(m, known, own[3]);
    OpAfter(lines, back, s, ops, own[0]);
    OpAfter(lines, back, s, ops, own[1]);
    OpAfter(lines, back, s, ops, own[3]);
    CleanIsText(m.chipset);
    TrimClean(m.chipset);
    ItemsText(m.serials);
    WordsText(m.firmwares);
  }

  lemma WordsText(words: seq<string>)
    requires AllWords(words)
    ensures WordsOf(TextOf(TextValue(CommaJoin(words)))) == words
  {
    hide WordsOf, CommaJoin;
    JoinedWords(words);
    CleanIsText(CommaJoin(words));
  }

  lemma StopAfter(lines: seq<string>, back: seq<string>, s: string, ops: seq<Op>, m: McuType)
    requires SavedType(lines, back, s, ops) && (m.stop.Some? ==> AllWords(m.stop.value))
    requires (if m.stop.None? then Drop("stop_services")
             else Put("stop_services", TextValue(CommaJoin(m.stop.value)))) in ops
    ensures WordsAt(back, s, "stop_services") == m.stop <==> (m.stop.None? ==> |Given(lines, s, "stop_services")| <= 1)
  {
    hide Given, Lookup, TextOf, AllWords, CommaJoin, LeftText, WordsOf, SavedType;
    if m.stop.Some? {
      WordsText(m.stop.value);
      OpAfter(lines, back, s, ops, Put("stop_services", TextValue(CommaJoin(m.stop.value))));
    } else {
      OpAfter(lines, back, s, ops, Drop("stop_services"));
    }
  }

  // ----- a family's keys -----

  lemma FamilyAfter(lines: seq<string>, back: seq<string>, s: string, m: McuType, known: seq<string>, fw: string)
    requires CleanType(m, known) && SavedType(lines, back, s, SaveOps(m, known)) && fw in m.firmwares
    ensures var cfg := FwGet(m, fw);
            && (Trim(TextAt(back, s, fw + ARGS)) == cfg.args <==>
               (cfg.args == "" ==> Trim(LeftText(lines, s, fw + ARGS)) == ""))
            && PatchesAt(back, s, fw) ==
               (if cfg.patches == [] then ParseAll(ListOf(LeftText(lines, s, fw + PATCHES))) else Some(cfg.patches))
            && (ListAt(back, s, fw + REPOS) == cfg.repos <==>
               (cfg.repos == [] ==> ListOf(LeftText(lines, s, fw + REPOS)) == []))
  {
    hide Given, Lookup, TextOf, Trim, Clean, CleanItems, FwName, AllWords, CleanName, SaveOps, LeftText, ListOf,
         CleanPatch, Rendered, ListAt, TextAt, SavedType, ParseAll;
    var ops, cfg := SaveOps(m, known), FwGet(m, fw);
    CfgClean(m, known, fw);
    var own := FwOps(m, fw);
    assert own[0] in own && own[1] in own && own[2] in own;
    forall op | op in own ensures op in ops { OpsIn(m, known, op); }
    TrimClean(cfg.args);
    RenderedClean(cfg.patches);
    TextAfter(lines, back, s, ops, fw + ARGS, cfg.args);
    ListAfter(lines, back, s, ops, fw + PATCHES, Rendered(cfg.patches));
    ListAfter(lines, back, s, ops, fw + REPOS, cfg.repos);
  }

  lemma CfgClean(m: McuType, known: seq<string>, fw: string)
    requires CleanType(m, known)
    ensures CleanCfg(FwGet(m, fw))
  {
    hide Clean, CleanItems, FwName, AllWords, CleanName, CleanPatch;
    PlainClean();
  }

  lemma NoneParse(raws: seq<string>)
    ensures ParseAll(raws) == Some([]) <==> raws == []
  {
  }

  lemma FamilyBack(lines: seq<string>, back: seq<string>, s: string, m: McuType, known: seq<string>, fw: string)
    requires CleanType(m, known) && SavedType(lines, back, s, SaveOps(m, known)) && fw in m.firmwares
    requires LoadFws(back, s, m.firmwares).Some?
    ensures fw in LoadFws(back, s, m.firmwares).value
    ensures LoadFws(back, s, m.firmwares).value[fw] == FwGet(m, fw) <==>
            NothingLeftOf(lines, s, fw, FwGet(m, fw)) && (TimesIn(m.firmwares, fw) == 1 || FwGet(m, fw).patches == [])
  {
    hide Given, Lookup, Trim, SaveOps, LeftText, ListOf, ListAt, TextAt, SavedType, ParseAll, CleanType, FwGet,
         Repeated;
    var cfg, n := FwGet(m, fw), TimesIn(m.firmwares, fw);
    FamilyAfter(lines, back, s, m, known, fw);
    FamilyLoaded(back, s, m.firmwares, fw);
    RepeatedIs(cfg.patches, n);
    if cfg.patches == [] {
      var left := PatchesAt(back, s, fw).value;
      NoneParse(ListOf(LeftText(lines, s, fw + PATCHES)));
      assert left != [] ==> |Repeated(left, n)| > 0;
      RepeatedNone(n);
    }
  }

  // A type that was saved to a section is read back from it the same exactly when nothing is
  // left under the keys that were removed, and no family with patches is declared twice.
  lemma TypeBackIff(lines: seq<string>, back: seq<string>, s: string, m: McuType, known: seq<string>)
    requires CleanType(m, known) && SavedType(lines, back, s, SaveOps(m, known))
    ensures var r := LoadType(back, s, m.name);
            r.Some? && Same(m, r.value) <==> NothingLeft(lines, s, m) && NoneDoubled(m)
  {
    hide Given, Lookup, Trim, SaveOps, LeftText, ListOf, ListAt, TextAt, WordsAt, SavedType, CleanType, FwGet,
         NothingLeftOf, LoadFws, FamiliesAt, ParseAll;
    OwnBack(lines, back, s, m, known);
    FamiliesParse(back, s, m.firmwares);
    if LoadFws(back, s, m.firmwares).Some? {
      LoadedFamilies(lines, back, s, m, known);
    } else {
      var fw :| fw in m.firmwares && PatchesAt(back, s, fw).None?;
      FamilyAfter(lines, back, s, m, known, fw);
      NoneParse(ListOf(LeftText(lines, s, fw + PATCHES)));
      LeftPatches(lines, s, fw, FwGet(m, fw));
    }
  }

  lemma LeftPatches(lines: seq<string>, s: string, fw: string, cfg: FwConfig)
    ensures NothingLeftOf(lines, s, fw, cfg) && cfg.patches == [] ==> ListOf(LeftText(lines, s, fw + PATCHES)) == []
  {
  }

  lemma LoadedFamilies(lines: seq<string>, back: seq<string>, s: string, m: McuType, known: seq<string>)
    requires CleanType(m, known) && SavedType(lines, back, s, SaveOps(m, known)) && LoadFws(back, s, m.firmwares).Some?
    ensures var r := LoadType(back, s, m.name);
            && r.Some?
            && (Same(m, r.value) <==>
                (OwnSame(back, s, m) &&
                 forall fw | fw in m.firmwares ::
                   NothingLeftOf(lines, s, fw, FwGet(m, fw)) &&
                     (TimesIn(m.firmwares, fw) == 1 || FwGet(m, fw).patches == [])))
  {
    hide Given, Lookup, Trim, SaveOps, LeftText, ListOf, ListAt, TextAt, WordsAt, SavedType, CleanType, NothingLeftOf,
         LoadFws, FamiliesAt;
    OwnBack(lines, back, s, m, known);
    forall fw | fw in m.firmwares
      ensures fw in LoadFws(back, s, m.firmwares).value
      ensures LoadFws(back, s, m.firmwares).value[fw] == FwGet(m, fw) <==>
              NothingLeftOf(lines, s, fw, FwGet(m, fw)) && (TimesIn(m.firmwares, fw) == 1 || FwGet(m, fw).patches == [])
    {
      FamilyBack(lines, back, s, m, known, fw);
    }
  }
}
