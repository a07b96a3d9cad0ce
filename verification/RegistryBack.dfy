// What a load of the saved file gives: which types, from which sections, and whether as they
// were.

module RegistryBack {
  import opened Text
  import opened CfgSyntax
  import opened CfgParse
  import opened CfgEdits
  import opened CfgOrder
  import opened CfgRender
  import opened CfgDocument
  import opened CfgLaws
  import opened CfgOps
  import opened CfgGiven
  import opened CfgReads
  import opened Words
  import opened Registry
  import opened RegistryOps
  import opened RegistryType
  import opened RegistryTrip

  // ----- the last section of a type -----

  // A section that declares the type, for a family this registry builds.
  predicate Mine(lines: seq<string>, s: string, builders: map<string, string>, name: string) {
    TypeName(s) == Some(name) && Ours(FamiliesAt(lines, s), builders)
  }

  function LastMine(lines: seq<string>, sections: seq<string>, builders: map<string, string>,
                    name: string): (r: Option<string>)
    ensures r.Some? ==> r.value in sections && Mine(lines, r.value, builders, name)
    ensures r.None? ==> forall s | s in sections :: !Mine(lines, s, builders, name)
  {
    if sections == [] then None
    else
      assert sections == [sections[0]] + sections[1..];
      var later := LastMine(lines, sections[1..], builders, name);
      if later.Some? then later else if Mine(lines, sections[0], builders, name) then Some(sections[0]) else None
  }

  lemma {:induction false} LastMineJoin(lines: seq<string>, a: seq<string>, b: seq<string>,
                                        builders: map<string, string>, name: string)
    ensures LastMine(lines, a + b, builders, name) ==
            if LastMine(lines, b, builders, name).Some? then LastMine(lines, b, builders, name)
            else LastMine(lines, a, builders, name)
  {
    hide Mine;
    if a == [] {
      assert a + b == b;
    } else {
      assert (a + b)[1..] == a[1..] + b;
      LastMineJoin(lines, a[1..], b, builders, name);
    }
  }

  // A type is loaded when a section of its is ours, and then from the last of them.
  lemma {:induction false} TypeLoaded(lines: seq<string>, sections: seq<string>, builders: map<string, string>,
                                      name: string)
    requires LoadFrom(lines, sections, builders).Some?
    ensures var r, last := LoadFrom(lines, sections, builders).value, LastMine(lines, sections, builders, name);
            && (name in r <==> last.Some?)
            && (last.Some? ==> LoadType(lines, last.value, name) == Some(r[name]))
  {
    hide Mine, LastMine, AlsoLoad, LoadType;
    if sections == [] {
      NoneMine(lines, builders, name);
    } else {
      var n := |sections| - 1;
      TypeLoaded(lines, sections[..n], builders, name);
      assert sections == sections[..n] + [sections[n]];
      LastMineJoin(lines, sections[..n], [sections[n]], builders, name);
      OneMine(lines, sections[n], builders, name);
      AlsoLoads(LoadFrom(lines, sections[..n], builders).value, lines, sections[n], builders, name);
    }
  }

  lemma NoneMine(lines: seq<string>, builders: map<string, string>, name: string)
    ensures LastMine(lines, [], builders, name).None?
  {
  }

  lemma AlsoLoads(held: map<string, McuType>, lines: seq<string>, s: string, builders: map<string, string>,
                  name: string)
    requires AlsoLoad(held, lines, s, builders).Some?
    ensures var r := AlsoLoad(held, lines, s, builders).value;
            if Mine(lines, s, builders, name) then name in r && LoadType(lines, s, name) == Some(r[name])
            else (name in r <==> name in held) && (name in held ==> r[name] == held[name])
  {
    hide TypeName, Ours, FamiliesAt, LoadType;
  }

  lemma OneMine(lines: seq<string>, s: string, builders: map<string, string>, name: string)
    ensures LastMine(lines, [s], builders, name) == if Mine(lines, s, builders, name) then Some(s) else None
  {
    assert [s][1..] == [];
  }

  predicate Loads(lines: seq<string>, s: string, builders: map<string, string>) {
    TypeName(s).Some? && Ours(FamiliesAt(lines, s), builders) ==> LoadType(lines, s, TypeName(s).value).Some?
  }

  // The walk goes through when every one of our sections loads.
  lemma {:induction false} WalkLoads(lines: seq<string>, sections: seq<string>, builders: map<string, string>)
    ensures LoadFrom(lines, sections, builders).Some? <==> forall s | s in sections :: Loads(lines, s, builders)
  {
    hide TypeName, Ours, FamiliesAt, LoadType;
    if sections != [] {
      var n := |sections| - 1;
      WalkLoads(lines, sections[..n], builders);
      assert forall s :: s in sections <==> s in sections[..n] || s == sections[n] by {
        assert sections == sections[..n] + [sections[n]];
      }
      assert LoadFrom(lines, sections, builders).Some? <==>
             LoadFrom(lines, sections[..n], builders).Some? && Loads(lines, sections[n], builders);
    }
  }

  // The sections behind one of them, in file order.
  function Behind(names: seq<string>, s: string): (r: seq<string>)
    ensures forall t | t in r :: t in names
  {
    if names == [] then [] else if names[0] == s then names[1..] else Behind(names[1..], s)
  }

  lemma {:induction false} BehindMore(names: seq<string>, more: seq<string>, s: string)
    ensures Behind(names + more, s) == if s in names then Behind(names, s) + more else Behind(more, s)
  {
    if names == [] {
      assert names + more == more;
    } else {
      assert (names + more)[1..] == names[1..] + more;
      BehindMore(names[1..], more, s);
      assert names == [names[0]] + names[1..];
    }
  }

  // The last section of a type is behind the first, or is the first.
  lemma {:induction false} FirstOrBehind(lines: seq<string>, names: seq<string>, builders: map<string, string>,
                                         name: string)
    requires Named(names, name)
    ensures var first := FirstOf(names, name);
            var later := LastMine(lines, Behind(names, first), builders, name);
            LastMine(lines, names, builders, name) ==
            if later.Some? then later else if Ours(FamiliesAt(lines, first), builders) then Some(first) else None
  {
    hide TypeName, Ours, FamiliesAt;
    FirstIs(names, name);
    if TypeName(names[0]) != Some(name) {
      assert names == [names[0]] + names[1..];
      assert Named(names[1..], name);
      FirstIs(names[1..], name);
      FirstOrBehind(lines, names[1..], builders, name);
    }
  }

  // ----- what a save does to each section -----

  ghost function SavedFile(lines: seq<string>, types: seq<McuType>, known: seq<string>): seq<string> {
    SplitLines(RenderText(SavedLines(lines, types, known)))
  }

  ghost predicate Saved(lines: seq<string>, back: seq<string>, types: seq<McuType>, known: seq<string>) {
    var edits := EditsOf(lines, types, known);
    && NamesOf(back) == NamesOf(lines) + Added(lines, edits)
    && ParseLines(back).duplicates == ParseLines(lines).duplicates
    && (forall i | 0 <= i < |types| :: MadeGiven(lines, back, edits[i]))
    && (forall s, k | !Edits(edits, s, k) :: Given(back, s, k) == Given(lines, s, k))
  }

  lemma FileSaved(lines: seq<string>, types: seq<McuType>, known: seq<string>)
    requires CanSave(lines, types, known)
    ensures Saved(lines, SavedFile(lines, types, known), types, known)
  {
    hide TypeName, SectionFor, SaveOps, CleanType, ParseLines, Ready, DistinctSections, NamesOf, Added, ApplyEdits,
         SavedLines, RenderText, SplitLines, Given, Edits, KeysOf, Edited, Made, Lookup, CopiesOf;
    var edits := EditsOf(lines, types, known);
    ReadyEdits(lines, types, known);
    SavedIsEdits(lines, types, known);
    EditsNames(lines, edits);
    ApplyEditsReads(lines, edits);
    ApplyEditsGives(lines, edits);
    var saved := ApplyEdits(lines, edits);
    RenderReads(saved);
    RenderNames(saved);
    RenderGives(saved);
    var back := SavedFile(lines, types, known);
    forall i | 0 <= i < |types| ensures MadeGiven(lines, back, edits[i]) { GivenOn(lines, saved, back, edits[i]); }
  }

  lemma GivenOn(lines: seq<string>, saved: seq<string>, back: seq<string>, e: Edit)
    requires MadeGiven(lines, saved, e) && SameGiven(saved, back)
    ensures MadeGiven(lines, back, e)
  {
    hide Given, KeysOf, Edited;
  }

  lemma TypeSaved(lines: seq<string>, back: seq<string>, types: seq<McuType>, known: seq<string>, i: nat)
    requires CanSave(lines, types, known) && Saved(lines, back, types, known) && i < |types|
    ensures SectionFor(back, types[i].name) == SectionFor(lines, types[i].name)
    ensures SectionFor(lines, types[i].name) in NamesOf(back)
    ensures SavedType(lines, back, SectionFor(lines, types[i].name), SaveOps(types[i], known))
  {
    hide TypeName, SectionFor, SaveOps, CleanType, ParseLines, NamesOf, Added, Given, Edits, Edited, FirstOf, Named;
    var m, edits := types[i], EditsOf(lines, types, known);
    var w := SectionFor(lines, m.name);
    MadeIsSaved(lines, back, edits[i]);
    assert edits[i] == EditOf(lines, m, known);
    SectionByOrder(lines, m.name);
    SectionByOrder(back, m.name);
    FirstOfMore(NamesOf(lines), Added(lines, edits), m.name);
    AddedAre(lines, edits);
    NamesTell(lines);
    assert edits[i].section == w;
    if !Named(NamesOf(lines), m.name) {
      NoFirst(NamesOf(lines), m.name);
      NotNamed(lines, w, m, known);
      OnlyAdded(lines, types, known, i);
    } else {
      FirstIs(NamesOf(lines), m.name);
    }
  }

  lemma NotNamed(lines: seq<string>, w: string, m: McuType, known: seq<string>)
    requires CleanType(m, known) && w == SectionFor(lines, m.name) && !Named(NamesOf(lines), m.name)
    ensures !HasSection(lines, w)
  {
    hide TypeName, SectionFor, ParseLines, NamesOf, CleanType;
    SectionNamed(lines, m, known);
    NamesTell(lines);
  }

  lemma MadeIsSaved(lines: seq<string>, back: seq<string>, e: Edit)
    requires MadeGiven(lines, back, e)
    ensures SavedType(lines, back, e.section, e.ops)
  {
    hide Given, Edited;
  }

  // The one new section of a type nobody declared.
  lemma OnlyAdded(lines: seq<string>, types: seq<McuType>, known: seq<string>, i: nat)
    requires CanSave(lines, types, known) && i < |types| && !HasSection(lines, SectionFor(lines, types[i].name))
    ensures var w, added := SectionFor(lines, types[i].name), Added(lines, EditsOf(lines, types, known));
            w in added && Named(added, types[i].name) && FirstOf(added, types[i].name) == w
  {
    hide TypeName, SectionFor, SaveOps, CleanType, ParseLines, FirstOf, Added;
    var name, edits := types[i].name, EditsOf(lines, types, known);
    var w, added := SectionFor(lines, name), Added(lines, edits);
    AddedAre(lines, edits);
    assert edits[i].section == w;
    SectionNamed(lines, types[i], known);
    FirstIs(added, name);
    NewIsOwn(lines, types, known, FirstOf(added, name), i);
  }

  lemma NewIsOwn(lines: seq<string>, types: seq<McuType>, known: seq<string>, t: string, i: nat)
    requires CanSave(lines, types, known) && i < |types|
    requires t in Added(lines, EditsOf(lines, types, known)) && TypeName(t) == Some(types[i].name)
    ensures t == SectionFor(lines, types[i].name)
  {
    hide TypeName, SectionFor, SaveOps, CleanType, ParseLines, Added;
    var edits := EditsOf(lines, types, known);
    AddedAre(lines, edits);
    var j :| 0 <= j < |edits| && edits[j].section == t;
    SectionNamed(lines, types[j], known);
    assert types[j].name == types[i].name;
  }

  // A section no type is written to reads as before.
  lemma Untouched(lines: seq<string>, back: seq<string>, types: seq<McuType>, known: seq<string>, t: string)
    requires Saved(lines, back, types, known) && forall m | m in types :: SectionFor(lines, m.name) != t
    ensures forall k :: Lookup(back, t, k) == Lookup(lines, t, k)
  {
    hide TypeName, SectionFor, SaveOps, ParseLines, NamesOf, Added, Given, Lookup, Touches;
    var edits := EditsOf(lines, types, known);
    forall k ensures Lookup(back, t, k) == Lookup(lines, t, k) {
      forall i | 0 <= i < |edits| ensures edits[i].section != t { assert types[i] in types; }
      assert !Edits(edits, t, k);
      GivenTells(back, t, k);
      GivenTells(lines, t, k);
    }
  }

  lemma SameLoads(lines: seq<string>, back: seq<string>, t: string, name: string)
    requires forall k :: Lookup(back, t, k) == Lookup(lines, t, k)
    ensures FamiliesAt(back, t) == FamiliesAt(lines, t) && LoadType(back, t, name) == LoadType(lines, t, name)
  {
    hide Lookup, ListOf, WordsOf, Trim, ParseAll;
    SameFamilies(lines, back, t, FamiliesAt(lines, t));
  }

  lemma {:induction false} SameFamilies(lines: seq<string>, back: seq<string>, t: string, fws: seq<string>)
    requires forall k :: Lookup(back, t, k) == Lookup(lines, t, k)
    ensures LoadFws(back, t, fws) == LoadFws(lines, t, fws)
  {
    hide Lookup, ListOf, Trim, ParseAll;
    if fws != [] { SameFamilies(lines, back, t, fws[..|fws| - 1]); }
  }

  // Where a section of a type that is not the first is, nothing is written.
  lemma LaterUntouched(lines: seq<string>, back: seq<string>, types: seq<McuType>, known: seq<string>, t: string)
    requires CanSave(lines, types, known) && Saved(lines, back, types, known)
    requires TypeName(t).Some? && t != SectionFor(lines, TypeName(t).value)
    ensures forall k :: Lookup(back, t, k) == Lookup(lines, t, k)
  {
    hide TypeName, SectionFor, Saved, CleanType, Lookup;
    forall m | m in types ensures SectionFor(lines, m.name) != t { SectionNamed(lines, m, known); }
    Untouched(lines, back, types, known, t);
  }

  lemma {:induction false} SameLast(lines: seq<string>, back: seq<string>, sections: seq<string>,
                                    builders: map<string, string>,
                                    name: string)
    requires forall t | t in sections && TypeName(t) == Some(name) :: FamiliesAt(back, t) == FamiliesAt(lines, t)
    ensures LastMine(back, sections, builders, name) == LastMine(lines, sections, builders, name)
  {
    hide TypeName, FamiliesAt, Ours;
    if sections != [] {
      assert sections == [sections[0]] + sections[1..];
      SameLast(lines, back, sections[1..], builders, name);
    }
  }

  // ----- the section each type is read from -----

  lemma {:induction false} NotBehind(names: seq<string>, s: string)
    requires forall i, j | 0 <= i < j < |names| :: names[i] != names[j]
    ensures s !in Behind(names, s)
    ensures s !in names ==> Behind(names, s) == []
  {
    if names != [] {
      assert names == [names[0]] + names[1..];
      NotBehind(names[1..], s);
      if names[0] == s { assert forall j | 0 <= j < |names[1..]| :: names[1..][j] == names[j + 1]; }
    }
  }

  // The last of our sections of a type behind the one it is written to, if there is one.
  function LaterOf(lines: seq<string>, builders: map<string, string>, w: string, name: string): Option<string> {
    LastMine(lines, Behind(NamesOf(lines), w), builders, name)
  }

  lemma LaterSame(lines: seq<string>, back: seq<string>, types: seq<McuType>, known: seq<string>,
                  builders: map<string, string>, i: nat)
    requires CanSave(lines, types, known) && Saved(lines, back, types, known) && i < |types|
    ensures var w := SectionFor(lines, types[i].name);
            LastMine(back, Behind(NamesOf(back), w), builders, types[i].name) ==
              LaterOf(lines, builders, w, types[i].name)
  {
    hide TypeName, SectionFor, CleanType, NamesOf, Added, Lookup, Mine, ParseLines, FamiliesAt, MadeGiven, Edits,
         Given;
    var name, edits := types[i].name, EditsOf(lines, types, known);
    var w, added := SectionFor(lines, name), Added(lines, edits);
    NamesTell(lines);
    NamesTell(back);
    NotBehind(NamesOf(lines), w);
    NotBehind(NamesOf(back), w);
    BehindMore(NamesOf(lines), added, w);
    if w in NamesOf(lines) {
      LastMineJoin(back, Behind(NamesOf(lines), w), added, builders, name);
      NoneAdded(lines, back, types, known, builders, i, added);
      StillLast(lines, back, types, known, builders, Behind(NamesOf(lines), w), name);
    } else {
      NoneAdded(lines, back, types, known, builders, i, Behind(added, w));
    }
  }

  lemma NoneAdded(lines: seq<string>, back: seq<string>, types: seq<McuType>, known: seq<string>,
                  builders: map<string, string>, i: nat, some: seq<string>)
    requires CanSave(lines, types, known) && i < |types|
    requires forall t | t in some :: t in Added(lines, EditsOf(lines, types, known))
    requires SectionFor(lines, types[i].name) in some ==> HasSection(lines, SectionFor(lines, types[i].name))
    ensures LastMine(back, some, builders, types[i].name).None?
  {
    hide TypeName, SectionFor, CleanType, Added, ParseLines, FamiliesAt, Ours;
    var last := LastMine(back, some, builders, types[i].name);
    if last.Some? {
      AddedAre(lines, EditsOf(lines, types, known));
      NewIsOwn(lines, types, known, last.value, i);
      assert false;
    }
  }

  lemma StillLast(lines: seq<string>, back: seq<string>, types: seq<McuType>, known: seq<string>,
                  builders: map<string, string>, sections: seq<string>, name: string)
    requires CanSave(lines, types, known) && Saved(lines, back, types, known) && SectionFor(lines, name) !in sections
    ensures LastMine(back, sections, builders, name) == LastMine(lines, sections, builders, name)
  {
    hide TypeName, SectionFor, CanSave, Saved, Lookup, FamiliesAt, LoadType;
    forall t | t in sections && TypeName(t) == Some(name) ensures FamiliesAt(back, t) == FamiliesAt(lines, t) {
      LaterUntouched(lines, back, types, known, t);
      SameLoads(lines, back, t, name);
    }
    SameLast(lines, back, sections, builders, name);
  }

  // A type that was saved is read from a later section of its own, if there is one, and else
  // from where it was written, if its first family is ours.
  lemma ReadFrom(lines: seq<string>, back: seq<string>, types: seq<McuType>, known: seq<string>,
                 builders: map<string, string>, i: nat)
    requires CanSave(lines, types, known) && Saved(lines, back, types, known) && i < |types|
    ensures var m, w := types[i], SectionFor(lines, types[i].name);
            var later := LaterOf(lines, builders, w, m.name);
            LastMine(back, NamesOf(back), builders, m.name) ==
            if later.Some? then later else if Ours(m.firmwares, builders) then Some(w) else None
  {
    hide TypeName, SectionFor, CleanType, NamesOf, Lookup, Mine, Ours, FamiliesAt, SaveOps, Saved, SavedType, FirstOf,
         LaterOf;
    var m, w := types[i], SectionFor(lines, types[i].name);
    TypeSaved(lines, back, types, known, i);
    SectionNamed(lines, m, known);
    SectionByOrder(back, m.name);
    OwnBack(lines, back, w, m, known);
    assert Named(NamesOf(back), m.name);
    FirstOrBehind(back, NamesOf(back), builders, m.name);
    LaterSame(lines, back, types, known, builders, i);
  }

  // ----- the round trip -----

  // Loading the file a save wrote gives back a type it held, the same for all who ask about it,
  // exactly when no later section declares it again and nothing is left under a removed key and
  // no family with patches is declared twice; or when a later section already said the same.
  lemma RoundTripIff(lines: seq<string>, types: seq<McuType>, known: seq<string>, builders: map<string, string>, i: nat)
    requires CanSave(lines, types, known) && i < |types|
    requires LoadRegistry(SavedFile(lines, types, known), builders).Some?
    ensures var m, r := types[i], LoadRegistry(SavedFile(lines, types, known), builders).value;
            var w := SectionFor(lines, m.name);
            var later := LaterOf(lines, builders, w, m.name);
            && SectionFor(SavedFile(lines, types, known), m.name) == w
            && (m.name in r <==> later.Some? || Ours(m.firmwares, builders))
            && (m.name in r && Same(m, r[m.name]) <==>
                if later.Some? then
                  LoadType(lines, later.value, m.name).Some? && Same(m, LoadType(lines, later.value, m.name).value)
                else Ours(m.firmwares, builders) && NothingLeft(lines, w, m) && NoneDoubled(m))
  {
    hide TypeName, SectionFor, CleanType, NamesOf, Lookup, Mine, Ours, FamiliesAt, SaveOps, Saved, SavedType,
         SavedFile, LoadType, Same, NothingLeft, NoneDoubled, LoadFrom, AllValid, ParseLines, LaterOf;
    var m, back := types[i], SavedFile(lines, types, known);
    var w := SectionFor(lines, m.name);
    FileSaved(lines, types, known);
    TypeSaved(lines, back, types, known, i);
    ReadFrom(lines, back, types, known, builders, i);
    TypeLoaded(back, NamesOf(back), builders, m.name);
    TypeBackIff(lines, back, w, m, known);
    LaterReads(lines, back, types, known, builders, w, m.name);
  }

  lemma LaterReads(lines: seq<string>, back: seq<string>, types: seq<McuType>, known: seq<string>,
                   builders: map<string, string>, w: string, name: string)
    requires CanSave(lines, types, known) && Saved(lines, back, types, known) && w == SectionFor(lines, name)
    ensures var later := LaterOf(lines, builders, w, name);
            later.Some? ==> LoadType(back, later.value, name) == LoadType(lines, later.value, name)
  {
    hide TypeName, SectionFor, CanSave, NamesOf, Lookup, Ours, FamiliesAt, Saved, LoadType;
    var later := LaterOf(lines, builders, w, name);
    if later.Some? {
      NamesTell(lines);
      NotBehind(NamesOf(lines), w);
      LaterUntouched(lines, back, types, known, later.value);
      SameLoads(lines, back, later.value, name);
    }
  }

  // Every other type is there exactly when it was, and reads as it did.
  lemma OthersBack(lines: seq<string>, types: seq<McuType>, known: seq<string>, builders: map<string, string>,
                   name: string)
    requires CanSave(lines, types, known) && forall m | m in types :: m.name != name
    requires LoadRegistry(SavedFile(lines, types, known), builders).Some? && LoadRegistry(lines, builders).Some?
    ensures var was, r := LoadRegistry(lines, builders).value,
            LoadRegistry(SavedFile(lines, types, known), builders).value;
            (name in r <==> name in was) && (name in was ==> r[name] == was[name])
  {
    hide TypeName, SectionFor, CleanType, NamesOf, Lookup, Ours, FamiliesAt, SaveOps, Saved, SavedFile, LoadType,
         LoadFrom, AllValid, ParseLines, Added;
    var back := SavedFile(lines, types, known);
    FileSaved(lines, types, known);
    TypeLoaded(lines, NamesOf(lines), builders, name);
    TypeLoaded(back, NamesOf(back), builders, name);
    OtherLast(lines, back, types, known, builders, name);
    var last := LastMine(lines, NamesOf(lines), builders, name);
    if last.Some? {
      NotWritten(lines, types, known, last.value, name);
      Untouched(lines, back, types, known, last.value);
      SameLoads(lines, back, last.value, name);
    }
  }

  lemma NotWritten(lines: seq<string>, types: seq<McuType>, known: seq<string>, t: string, name: string)
    requires CanSave(lines, types, known) && TypeName(t) == Some(name) && forall m | m in types :: m.name != name
    ensures forall m | m in types :: SectionFor(lines, m.name) != t
  {
    hide TypeName, SectionFor, CleanType;
    forall m | m in types ensures SectionFor(lines, m.name) != t { SectionNamed(lines, m, known); }
  }

  lemma AddedHeld(lines: seq<string>, types: seq<McuType>, known: seq<string>, t: string)
    ensures t in Added(lines, EditsOf(lines, types, known)) ==> exists m :: m in types && SectionFor(lines, m.name) == t
  {
    hide SectionFor, SaveOps, ParseLines, Added;
    var edits := EditsOf(lines, types, known);
    AddedAre(lines, edits);
    if t in Added(lines, edits) {
      var j :| 0 <= j < |edits| && edits[j].section == t;
      assert types[j] in types;
    }
  }

  lemma OtherLast(lines: seq<string>, back: seq<string>, types: seq<McuType>, known: seq<string>,
                  builders: map<string, string>, name: string)
    requires CanSave(lines, types, known) && Saved(lines, back, types, known) && forall m | m in types :: m.name != name
    ensures LastMine(back, NamesOf(back), builders, name) == LastMine(lines, NamesOf(lines), builders, name)
  {
    hide TypeName, SectionFor, CleanType, NamesOf, Lookup, Ours, FamiliesAt, SaveOps, LoadType, ParseLines, Added,
         Given, Edits, MadeGiven;
    var edits := EditsOf(lines, types, known);
    var added := Added(lines, edits);
    LastMineJoin(back, NamesOf(lines), added, builders, name);
    forall t | t in added ensures TypeName(t) != Some(name) {
      AddedHeld(lines, types, known, t);
      var m :| m in types && SectionFor(lines, m.name) == t;
      SectionNamed(lines, m, known);
    }
    forall t | t in NamesOf(lines) && TypeName(t) == Some(name) ensures FamiliesAt(back, t) == FamiliesAt(lines, t) {
      NotWritten(lines, types, known, t, name);
      Untouched(lines, back, types, known, t);
      SameLoads(lines, back, t, name);
    }
    SameLast(lines, back, NamesOf(lines), builders, name);
  }

  // So what is loaded is exactly what was held, when everything that was in the file was held
  // and every held type's first family is ours.
  lemma NamesBack(lines: seq<string>, types: seq<McuType>, known: seq<string>, builders: map<string, string>)
    requires CanSave(lines, types, known)
    requires LoadRegistry(SavedFile(lines, types, known), builders).Some? && LoadRegistry(lines, builders).Some?
    requires forall name | name in LoadRegistry(lines, builders).value :: exists m :: m in types && m.name == name
    requires forall m | m in types :: Ours(m.firmwares, builders)
    ensures LoadRegistry(SavedFile(lines, types, known), builders).value.Keys == set m | m in types :: m.name
  {
    hide TypeName, SectionFor, CleanType, NamesOf, Ours, SaveOps, Saved, SavedFile, LoadType, LoadFrom, AllValid,
         LoadRegistry, Same, NothingLeft, NoneDoubled, LaterOf;
    var r := LoadRegistry(SavedFile(lines, types, known), builders).value;
    forall name ensures name in r <==> exists m :: m in types && m.name == name {
      if m :| m in types && m.name == name {
        var i :| 0 <= i < |types| && types[i] == m;
        RoundTripIff(lines, types, known, builders, i);
      } else {
        OthersBack(lines, types, known, builders, name);
      }
    }
  }

  // ----- whether the saved file loads at all -----

  // What is left under a removed patch list parses.
  ghost predicate LeftParses(lines: seq<string>, s: string, m: McuType) {
    forall fw | fw in m.firmwares && FwGet(m, fw).patches == [] ::
      ParseAll(ListOf(LeftText(lines, s, fw + PATCHES))).Some?
  }

  ghost predicate Loadable(lines: seq<string>, m: McuType, builders: map<string, string>) {
    && GoodFamilies(m.firmwares, builders)
    && (Ours(m.firmwares, builders) ==> LeftParses(lines, SectionFor(lines, m.name), m))
  }

  // No key a save writes is one a type is refused for.
  lemma RefusedApart(m: McuType, known: seq<string>, k: string)
    requires CleanType(m, known) && k in REFUSED
    ensures !Touches(SaveOps(m, known), k)
  {
    hide TypeOps, FwOps, CleanType, CleanOps, Distinct, Tail, FwName;
    var ops, visits := SaveOps(m, known), Once(m.slots + known);
    NamesVisited(m, known);
    AllFwOpsClean(m, known, visits);
    KeysOfType(m);
    RefusedKeys();
    forall i | 0 <= i < |ops| ensures ops[i].key != k {
      if i < |TypeOps(m)| {
        assert ops[i] == TypeOps(m)[i];
      } else {
        assert ops[i] == AllFwOps(m, visits)[i - |TypeOps(m)|];
        assert ops[i] in AllFwOps(m, visits);
        var fw :| fw in visits && ops[i] in FwOps(m, fw);
        FwKeyEnds(m, fw, ops[i]);
      }
    }
  }

  lemma RefusedKeys()
    ensures forall k, i | k in REFUSED && 0 <= i < |TYPE_KEYS| :: TYPE_KEYS[i] != k
    ensures forall k | k in REFUSED :: Tail(k) !in {Tail(ARGS), Tail(PATCHES), Tail(REPOS)}
  {
    FwTails();
    var t := TYPE_KEYS;
    assert |t[0]| == 7 && |t[1]| == 7 && |t[2]| == 12 && |t[3]| == 8 && |t[4]| == 20 && |t[5]| == 13 && |t[6]| == 18;
    assert t[0][0] == 'c' && t[1][0] == 's' && "profile"[0] == 'p';
    assert |"env"| == 3 && |"profile"| == 7 && |"device_map"| == 10 && |"klipper_section"| == 15;
    assert Tail("env") == ' ' && Tail("profile") == 'f' && Tail("device_map") == '_' && Tail("klipper_section") == 't';
  }

  lemma FwKeyEnds(m: McuType, fw: string, op: Op)
    requires op in FwOps(m, fw)
    ensures Tail(op.key) in {Tail(ARGS), Tail(PATCHES), Tail(REPOS)}
  {
    hide Tail, Trim, Rendered;
    FwKeyTails(fw);
  }

  lemma RefusedStay(lines: seq<string>, back: seq<string>, types: seq<McuType>, known: seq<string>, i: nat, k: string)
    requires CanSave(lines, types, known) && Saved(lines, back, types, known) && i < |types| && k in REFUSED
    ensures Lookup(back, SectionFor(lines, types[i].name), k) == Lookup(lines, SectionFor(lines, types[i].name), k)
  {
    hide TypeName, SectionFor, SaveOps, CleanType, ParseLines, NamesOf, Added, Given, Lookup, Touches, MadeGiven;
    var edits, w := EditsOf(lines, types, known), SectionFor(lines, types[i].name);
    RefusedApart(types[i], known, k);
    EditsApart(lines, types, known);
    forall j | 0 <= j < |edits| && edits[j].section == w ensures !Touches(edits[j].ops, k) {
      assert edits[i].section == w;
      assert i == j;
    }
    assert !Edits(edits, w, k);
    GivenTells(back, w, k);
    GivenTells(lines, w, k);
  }

  // The section a type was written to is valid when the type's families are.
  lemma WrittenValid(lines: seq<string>, back: seq<string>, types: seq<McuType>, known: seq<string>,
                     builders: map<string, string>, i: nat)
    requires CanSave(lines, types, known) && Saved(lines, back, types, known) && i < |types| &&
             AllValid(lines, builders)
    ensures ValidType(back, SectionFor(lines, types[i].name), builders) <==> GoodFamilies(types[i].firmwares, builders)
  {
    hide TypeName, SectionFor, SaveOps, CleanType, ParseLines, NamesOf, Lookup, GoodFamilies, Saved, FamiliesAt,
         SavedType;
    var w, m := SectionFor(lines, types[i].name), types[i];
    TypeSaved(lines, back, types, known, i);
    OwnBack(lines, back, w, m, known);
    forall k | k in REFUSED ensures Lookup(back, w, k).None? {
      RefusedStay(lines, back, types, known, i, k);
      SectionNamed(lines, m, known);
      NamesTell(lines);
      if w !in NamesOf(lines) { NothingThere(lines, w, k); }
    }
  }

  lemma NothingThere(lines: seq<string>, s: string, k: string)
    requires !HasSection(lines, s)
    ensures Lookup(lines, s, k).None?
  {
  }

  lemma WrittenLoads(lines: seq<string>, back: seq<string>, types: seq<McuType>, known: seq<string>,
                     builders: map<string, string>, i: nat)
    requires CanSave(lines, types, known) && Saved(lines, back, types, known) && i < |types|
    ensures var w := SectionFor(lines, types[i].name);
            Loads(back, w, builders) <==> (Ours(types[i].firmwares, builders) ==> LeftParses(lines, w, types[i]))
  {
    hide TypeName, SectionFor, SaveOps, CleanType, NamesOf, Lookup, Saved, FamiliesAt, SavedType, Ours, ListOf,
         LeftText, ListAt, TextAt, ParseAll, LoadFws, FwGet;
    var w, m := SectionFor(lines, types[i].name), types[i];
    TypeSaved(lines, back, types, known, i);
    SectionNamed(lines, m, known);
    OwnBack(lines, back, w, m, known);
    FamiliesParse(back, w, m.firmwares);
    forall fw | fw in m.firmwares
      ensures PatchesAt(back, w, fw).Some? <==>
              (FwGet(m, fw).patches == [] ==> ParseAll(ListOf(LeftText(lines, w, fw + PATCHES))).Some?)
    {
      FamilyAfter(lines, back, w, m, known, fw);
    }
  }

  // A section nobody was written to is valid, and loads, as before.
  lemma OthersLoad(lines: seq<string>, back: seq<string>, types: seq<McuType>, known: seq<string>,
                   builders: map<string, string>, t: string)
    requires Saved(lines, back, types, known) && forall m | m in types :: SectionFor(lines, m.name) != t
    ensures ValidType(back, t, builders) <==> ValidType(lines, t, builders)
    ensures Loads(back, t, builders) <==> Loads(lines, t, builders)
  {
    hide TypeName, SectionFor, NamesOf, Lookup, Saved, FamiliesAt, Ours, GoodFamilies, LoadType;
    Untouched(lines, back, types, known, t);
    if TypeName(t).Some? { SameLoads(lines, back, t, TypeName(t).value); }
    SameLoads(lines, back, t, "");
  }

  lemma SectionLoads(lines: seq<string>, back: seq<string>, types: seq<McuType>, known: seq<string>,
                     builders: map<string, string>, t: string)
    requires CanSave(lines, types, known) && Saved(lines, back, types, known) && t in NamesOf(back) && TypeName(t).Some?
    requires AllValid(lines, builders) && forall s | s in NamesOf(lines) :: Loads(lines, s, builders)
    ensures (forall m | m in types && SectionFor(lines, m.name) == t :: Loadable(lines, m, builders)) <==>
            ValidType(back, t, builders) && Loads(back, t, builders)
  {
    hide TypeName, SectionFor, CleanType, SaveOps, Lookup, FamiliesAt, Ours, GoodFamilies, LoadType, ValidType, Loads,
         LeftParses, NamesOf, Added, Given, Edits, MadeGiven, ParseLines;
    if m :| m in types && SectionFor(lines, m.name) == t {
      var i :| 0 <= i < |types| && types[i] == m;
      WrittenValid(lines, back, types, known, builders, i);
      WrittenLoads(lines, back, types, known, builders, i);
      forall n | n in types && SectionFor(lines, n.name) == t ensures n == m {
        var j :| 0 <= j < |types| && types[j] == n;
        SectionNamed(lines, m, known);
        SectionNamed(lines, n, known);
        assert types[j].name == types[i].name;
      }
    } else {
      OthersLoad(lines, back, types, known, builders, t);
      AddedHeld(lines, types, known, t);
    }
  }

  // A save of a file that loaded leaves one that loads exactly when each held type's families
  // are declared and built by one tool, and what is left of its removed patch lists parses.
  lemma SavedLoads(lines: seq<string>, types: seq<McuType>, known: seq<string>, builders: map<string, string>)
    requires CanSave(lines, types, known) && LoadRegistry(lines, builders).Some?
    ensures LoadRegistry(SavedFile(lines, types, known), builders).Some? <==>
            forall m | m in types :: Loadable(lines, m, builders)
  {
    hide TypeName, SectionFor, CleanType, SaveOps, FamiliesAt, Ours, LoadType, ValidType, Loads, NamesOf, Loadable,
         ParseLines, SavedFile, LoadFrom, Saved;
    var back := SavedFile(lines, types, known);
    FileSaved(lines, types, known);
    SameDuplicates(lines, back, types, known);
    WalkLoads(lines, NamesOf(lines), builders);
    WalkLoads(back, NamesOf(back), builders);
    forall t | t in NamesOf(back) && TypeName(t).Some?
      ensures (forall m | m in types && SectionFor(lines, m.name) == t :: Loadable(lines, m, builders)) <==>
              ValidType(back, t, builders) && Loads(back, t, builders)
    {
      SectionLoads(lines, back, types, known, builders, t);
    }
    forall m | m in types
      ensures SectionFor(lines, m.name) in NamesOf(back) && TypeName(SectionFor(lines, m.name)).Some?
    {
      var i :| 0 <= i < |types| && types[i] == m;
      TypeSaved(lines, back, types, known, i);
      SectionNamed(lines, m, known);
    }
    forall t | TypeName(t).None? ensures Loads(back, t, builders) { NoTypeLoads(back, t, builders); }
  }

  lemma NoTypeLoads(lines: seq<string>, t: string, builders: map<string, string>)
    ensures TypeName(t).None? ==> Loads(lines, t, builders)
  {
  }

  lemma SameDuplicates(lines: seq<string>, back: seq<string>, types: seq<McuType>, known: seq<string>)
    requires Saved(lines, back, types, known)
    ensures ParseLines(back).duplicates == ParseLines(lines).duplicates
  {
  }
}
