// A registry saved and loaded again and again.

module RegistryCycles {
  import opened Text
  import opened CfgSyntax
  import opened CfgEdits
  import opened CfgOrder
  import opened CfgRender
  import opened CfgDocument
  import opened CfgOps
  import opened CfgGiven
  import opened CfgReads
  import opened Words
  import opened Registry
  import opened RegistryOps
  import opened RegistryType
  import opened RegistryTrip
  import opened RegistryBack

  // The file, and the type as it is held.
  datatype Held = Held(lines: seq<string>, m: McuType)

  // Saved, and read from where it was written.
  ghost function Cycle(h: Held, known: seq<string>): Held {
    var back := SavedFile(h.lines, [h.m], known);
    var r := LoadType(back, SectionFor(h.lines, h.m.name), h.m.name);
    Held(back, if r.Some? then r.value else h.m)
  }

  ghost function Cycled(h: Held, known: seq<string>, n: nat): Held {
    if n == 0 then h else Cycle(Cycled(h, known, n - 1), known)
  }

  function Power(times: nat, n: nat): nat { if n == 0 then 1 else Power(times, n - 1) * times }

  // No key of the type's section is given twice.
  ghost predicate NoRepeats(lines: seq<string>, s: string) { forall k :: |Given(lines, s, k)| <= 1 }

  ghost predicate Ready(h: Held, known: seq<string>) {
    OneLiners(h.lines) && CleanType(h.m, known) && NoRepeats(h.lines, SectionFor(h.lines, h.m.name))
  }

  // All but the patches as before, and each family's patches as often over as it is declared.
  ghost predicate Multiplied(was: McuType, now: McuType) {
    && now.name == was.name && now.chipset == was.chipset && now.serials == was.serials && now.uuids == was.uuids
    && now.firmwares == was.firmwares && now.profile == was.profile && now.stop == was.stop
    && (forall fw | fw in was.firmwares ::
          fw in now.fws && now.fws[fw] ==
          FwGet(was, fw).(patches := Repeated(FwGet(was, fw).patches, TimesIn(was.firmwares, fw))))
    && (forall fw | fw in now.fws :: fw in was.firmwares) && now.slots == Once(was.firmwares)
  }

  lemma Unrepeated(lines: seq<string>, s: string, k: string)
    requires NoRepeats(lines, s)
    ensures LeftText(lines, s, k) == ""
  {
    hide Given;
  }

  lemma EmptyReads()
    ensures ListOf("") == [] && Trim("") == "" && ParseAll([]) == Some([])
  {
    NoPatches();
    assert SplitLines("") == [];
  }

  // What is read back under one family's keys.
  lemma FamilyHeld(lines: seq<string>, back: seq<string>, s: string, m: McuType, known: seq<string>, fw: string)
    requires CleanType(m, known) && SavedType(lines, back, s, SaveOps(m, known)) && NoRepeats(lines, s)
    requires fw in m.firmwares
    ensures Trim(TextAt(back, s, fw + ARGS)) == FwGet(m, fw).args
    ensures PatchesAt(back, s, fw) == Some(FwGet(m, fw).patches)
    ensures ListAt(back, s, fw + REPOS) == FwGet(m, fw).repos
  {
    hide Given, Lookup, Trim, SaveOps, LeftText, ListOf, ListAt, TextAt, SavedType, ParseAll, CleanType, FwGet,
         NoRepeats;
    FamilyAfter(lines, back, s, m, known, fw);
    EmptyReads();
    Unrepeated(lines, s, fw + ARGS);
    Unrepeated(lines, s, fw + PATCHES);
    Unrepeated(lines, s, fw + REPOS);
  }

  lemma OwnHeld(lines: seq<string>, back: seq<string>, s: string, m: McuType, known: seq<string>)
    requires CleanType(m, known) && SavedType(lines, back, s, SaveOps(m, known)) && NoRepeats(lines, s)
    ensures OwnSame(back, s, m)
  {
    hide Given, Lookup, Trim, SaveOps, LeftText, ListOf, SavedType, CleanType, OwnSame;
    OwnBack(lines, back, s, m, known);
    EmptyReads();
    Unrepeated(lines, s, "canbus_uuids");
    Unrepeated(lines, s, "kconfig_make_profile");
  }

  lemma LoadsBack(lines: seq<string>, back: seq<string>, s: string, m: McuType, known: seq<string>)
    requires CleanType(m, known) && SavedType(lines, back, s, SaveOps(m, known)) && NoRepeats(lines, s)
    ensures LoadType(back, s, m.name).Some? && Multiplied(m, LoadType(back, s, m.name).value)
  {
    hide Given, Lookup, Trim, SaveOps, ListAt, TextAt, WordsAt, SavedType, CleanType, FwGet, NoRepeats, LoadFws, Once,
         FamiliesAt, Repeated;
    OwnHeld(lines, back, s, m, known);
    forall fw | fw in m.firmwares ensures PatchesAt(back, s, fw) == Some(FwGet(m, fw).patches) {
      FamilyHeld(lines, back, s, m, known, fw);
    }
    FamiliesParse(back, s, m.firmwares);
    forall fw ensures fw in LoadFws(back, s, m.firmwares).value <==> fw in m.firmwares
              ensures fw in m.firmwares ==>
                        LoadFws(back, s, m.firmwares).value[fw] ==
                        FwGet(m, fw).(patches := Repeated(FwGet(m, fw).patches, TimesIn(m.firmwares, fw)))
    {
      FamilyLoaded(back, s, m.firmwares, fw);
      if fw in m.firmwares { FamilyHeld(lines, back, s, m, known, fw); }
    }
  }

  // ----- the next cycle can start -----

  lemma {:induction false} RepeatedClean(patches: seq<Patch>, n: nat)
    requires forall i | 0 <= i < |patches| :: CleanPatch(patches[i])
    ensures forall i | 0 <= i < |Repeated(patches, n)| :: CleanPatch(Repeated(patches, n)[i])
  {
    hide CleanPatch;
    if n > 0 { RepeatedClean(patches, n - 1); }
  }

  lemma StillClean(was: McuType, now: McuType, known: seq<string>)
    requires CleanType(was, known) && Multiplied(was, now)
    ensures CleanType(now, known)
  {
    hide Clean, CleanItems, FwName, AllWords, CleanName, Trimmed, CleanPatch, FwGet, Repeated;
    forall fw | fw in now.fws ensures CleanCfg(now.fws[fw]) {
      CfgClean(was, known, fw);
      RepeatedClean(FwGet(was, fw).patches, TimesIn(was.firmwares, fw));
    }
  }

  lemma StillUnrepeated(lines: seq<string>, back: seq<string>, m: McuType, known: seq<string>)
    requires Saved(lines, back, [m], known) && NoRepeats(lines, SectionFor(lines, m.name))
    ensures NoRepeats(back, SectionFor(lines, m.name))
  {
    hide Given, SectionFor, SaveOps, ParseLines, NamesOf, Added, KeysOf;
    var s, edits := SectionFor(lines, m.name), EditsOf(lines, [m], known);
    assert edits == [EditOf(lines, m, known)];
    assert MadeGiven(lines, back, edits[0]);
    forall k ensures |Given(back, s, k)| <= 1 {
      if Touches(SaveOps(m, known), k) {
        var i :| 0 <= i < |SaveOps(m, known)| && SaveOps(m, known)[i].key == k;
        assert Given(back, s, k) == Edited(SaveOps(m, known)[i], Given(lines, s, k));
      } else {
        assert !Edits(edits, s, k);
      }
      assert |Given(lines, s, k)| <= 1;
    }
  }

  lemma FileOneLiners(lines: seq<string>, m: McuType, known: seq<string>)
    ensures OneLiners(SavedFile(lines, [m], known))
  {
    hide RenderText, SavedLines;
  }

  lemma OneCycle(h: Held, known: seq<string>)
    requires Ready(h, known)
    ensures Ready(Cycle(h, known), known) && Multiplied(h.m, Cycle(h, known).m)
    ensures SectionFor(Cycle(h, known).lines, h.m.name) == SectionFor(h.lines, h.m.name)
  {
    hide CleanType, SaveOps, SectionFor, LoadType, Multiplied, SavedFile, Saved, SavedType, NoRepeats, OneLiners;
    var back, s := SavedFile(h.lines, [h.m], known), SectionFor(h.lines, h.m.name);
    assert CanSave(h.lines, [h.m], known);
    FileSaved(h.lines, [h.m], known);
    TypeSaved(h.lines, back, [h.m], known, 0);
    LoadsBack(h.lines, back, s, h.m, known);
    SameName(h.m, LoadType(back, s, h.m.name).value);
    StillClean(h.m, LoadType(back, s, h.m.name).value, known);
    StillUnrepeated(h.lines, back, h.m, known);
    FileOneLiners(h.lines, h.m, known);
  }

  lemma SameName(was: McuType, now: McuType)
    requires Multiplied(was, now)
    ensures now.name == was.name && now.firmwares == was.firmwares
  {
  }

  // ----- copies of copies -----

  lemma {:induction false} RepeatedSum(patches: seq<Patch>, a: nat, b: nat)
    ensures Repeated(patches, a + b) == Repeated(patches, a) + Repeated(patches, b)
  {
    if b == 0 {
      assert Repeated(patches, a) + [] == Repeated(patches, a);
    } else {
      RepeatedSum(patches, a, b - 1);
    }
  }

  lemma {:induction false} RepeatedTwice(patches: seq<Patch>, a: nat, b: nat)
    ensures Repeated(Repeated(patches, a), b) == Repeated(patches, a * b)
  {
    hide Repeated;
    if b == 0 {
      NoneRepeated(patches);
      NoneRepeated(Repeated(patches, a));
    } else {
      RepeatedTwice(patches, a, b - 1);
      RepeatedNext(Repeated(patches, a), b);
      RepeatedSum(patches, a * (b - 1), a);
      assert a * (b - 1) + a == a * b;
    }
  }

  lemma NoneRepeated(patches: seq<Patch>)
    ensures Repeated(patches, 0) == []
  {
  }

  lemma RepeatedNext(patches: seq<Patch>, n: nat)
    requires n > 0
    ensures Repeated(patches, n) == Repeated(patches, n - 1) + patches
  {
  }

  // A family declared m times has its patches m^n times over after n cycles of saving and
  // loading; everything else of the type is as it was.
  lemma {:induction false} CyclesMultiply(h: Held, known: seq<string>, n: nat, fw: string)
    requires Ready(h, known) && fw in h.m.firmwares
    ensures var now := Cycled(h, known, n);
            && Ready(now, known)
            && Same(h.m, now.m.(fws := h.m.fws)) && SectionFor(now.lines, h.m.name) == SectionFor(h.lines, h.m.name)
            && FwGet(now.m, fw) ==
               FwGet(h.m, fw).(patches := Repeated(FwGet(h.m, fw).patches, Power(TimesIn(h.m.firmwares, fw), n)))
  {
    hide Ready, SectionFor, Cycle, Repeated, Multiplied;
    var patches := FwGet(h.m, fw).patches;
    if n == 0 {
      OnceRepeated(patches);
    } else {
      CyclesMultiply(h, known, n - 1, fw);
      var was := Cycled(h, known, n - 1);
      OneCycle(was, known);
      FamilyMultiplied(was.m, Cycle(was, known).m, fw);
      RepeatedTwice(patches, Power(TimesIn(h.m.firmwares, fw), n - 1), TimesIn(h.m.firmwares, fw));
    }
  }

  lemma OnceRepeated(patches: seq<Patch>)
    ensures Repeated(patches, 1) == patches
  {
    assert Repeated(patches, 0) + patches == patches;
  }

  lemma FamilyMultiplied(was: McuType, now: McuType, fw: string)
    requires Multiplied(was, now) && fw in was.firmwares
    ensures FwGet(now, fw) == FwGet(was, fw).(patches := Repeated(FwGet(was, fw).patches, TimesIn(was.firmwares, fw)))
    ensures now.name == was.name && now.chipset == was.chipset && now.serials == was.serials && now.uuids == was.uuids
    ensures now.firmwares == was.firmwares && now.profile == was.profile && now.stop == was.stop
  {
    hide Repeated;
  }
}
