// The board types of the config: what a save writes for each, and what a load reads.

module Registry {
  import opened Text
  import opened CfgSyntax
  import opened CfgParse
  import opened CfgEdits
  import opened CfgRender
  import opened CfgDocument
  import opened CfgLaws
  import opened CfgOps
  import opened CfgGiven
  import opened CfgReads
  import opened Words

  // ----- Makefile patches as text -----

  datatype Patch = Patch(file: string, line: string) {
    predicate IsValid() { file != "" && line != "" }
  }

  predicate ArrowAt(s: string, i: nat) { i + 2 <= |s| && s[i] == '-' && s[i + 1] == '>' }

  // Where the first "->" is; the length when there is none.
  function Arrow(s: string, i: nat): (n: nat)
    requires i <= |s|
    ensures i <= n <= |s| && (n < |s| ==> ArrowAt(s, n)) && forall j | i <= j < n :: !ArrowAt(s, j)
    decreases |s| - i
  {
    if i == |s| || ArrowAt(s, i) then i else Arrow(s, i + 1)
  }

  function ParsePatch(raw: string): Option<Patch> {
    var n := Arrow(raw, 0);
    if n == |raw| then None
    else
      var patch := Patch(Strip(raw[..n]), Strip(raw[n + 2..]));
      if patch.IsValid() then Some(patch) else None
  }

  function RenderPatch(p: Patch): string { p.file + " -> " + p.line }

  // A patch the format can hold: clean parts, and no arrow in the file's name.
  predicate CleanPatch(p: Patch) {
    CleanItem(p.file) && CleanItem(p.line) && Arrow(p.file, 0) == |p.file|
  }

  lemma PatchReads(p: Patch)
    requires CleanPatch(p)
    ensures ParsePatch(RenderPatch(p)) == Some(p) && CleanItem(RenderPatch(p))
  {
    hide Strip, StartsNote;
    var raw := RenderPatch(p);
    var at := |p.file| + 1;
    assert raw[at] == '-' && raw[at + 1] == '>';
    forall j: nat | j < at ensures !ArrowAt(raw, j) {
      if j < |p.file| { assert raw[j] == p.file[j] && !ArrowAt(p.file, j); }
      if j + 1 < |p.file| { assert raw[j + 1] == p.file[j + 1]; }
    }
    assert ArrowAt(raw, at);
    assert Arrow(raw, 0) == at;
    assert raw[..at] == "" + p.file + " " && raw[at + 2..] == " " + p.line + "";
    StripPadded("", p.file, " ");
    StripPadded(" ", p.line, "");
    CleanJoin(p.file, " -> ", p.line);
  }

  // ----- types -----

  datatype FwConfig = FwConfig(args: string, patches: seq<Patch>, repos: seq<string>)

  const PLAIN_FW := FwConfig("", [], [])

  // slots are the families it carries settings for, in the order they were given.
  datatype McuType = McuType(name: string, chipset: string, serials: seq<string>, uuids: seq<string>,
                             firmwares: seq<string>, profile: string, stop: Option<seq<string>>,
                             slots: seq<string>, fws: map<string, FwConfig>)

  function FwGet(m: McuType, fw: string): FwConfig { if fw in m.fws then m.fws[fw] else PLAIN_FW }

  const ARGS := "_extra_args"
  const PATCHES := "_makefile_patches"
  const REPOS := "_extra_repos"

  function Rendered(patches: seq<Patch>): (r: seq<string>)
  {
    if patches == [] then []
    else
      var before, last := Rendered(patches[..|patches| - 1]), patches[|patches| - 1];
      if last.IsValid() then before + [RenderPatch(last)] else before
  }

  // ----- what a save writes -----

  function TypeOps(m: McuType): seq<Op> {
    [Put("chipset", TextValue(m.chipset)),
     Put("serials", Items(m.serials)),
     if m.uuids != [] then Put("canbus_uuids", Items(m.uuids)) else Drop("canbus_uuids"),
     Put("firmware", TextValue(CommaJoin(m.firmwares))),
     if Trim(m.profile) != "" then Put("kconfig_make_profile", TextValue(Trim(m.profile)))
        else Drop("kconfig_make_profile"),
     if m.stop.None? then Drop("stop_services") else Put("stop_services", TextValue(CommaJoin(m.stop.value))),
     Drop("katapult_installed")]
  }

  function FwOps(m: McuType, fw: string): seq<Op> {
    var cfg := FwGet(m, fw);
    [if Trim(cfg.args) != "" then Put(fw + ARGS, TextValue(Trim(cfg.args))) else Drop(fw + ARGS),
     if Rendered(cfg.patches) != [] then Put(fw + PATCHES, Items(Rendered(cfg.patches))) else Drop(fw + PATCHES),
     if cfg.repos != [] then Put(fw + REPOS, Items(cfg.repos)) else Drop(fw + REPOS)]
  }

  function AllFwOps(m: McuType, visits: seq<string>): seq<Op> {
    if visits == [] then [] else AllFwOps(m, visits[..|visits| - 1]) + FwOps(m, visits[|visits| - 1])
  }

  // Each once, in first-seen order.
  function Once(names: seq<string>): (r: seq<string>)
    ensures forall n :: n in r <==> n in names
    ensures forall i, j | 0 <= i < j < |r| :: r[i] != r[j]
  {
    if names == [] then []
    else
      var before, last := Once(names[..|names| - 1]), names[|names| - 1];
      assert names == names[..|names| - 1] + [last];
      if last in before then before else before + [last]
  }

  function SaveOps(m: McuType, known: seq<string>): seq<Op> { TypeOps(m) + AllFwOps(m, Once(m.slots + known)) }

  // ----- where a type is written -----

  // The type a section declares, if it does.
  function TypeName(section: string): Option<string> {
    if section == "type" || (|section| >= 5 && section[..5] == "type ") then
      var name := Strip(section[4..]);
      if name == "" then None else Some(name)
    else None
  }

  predicate Declares(lines: seq<string>, s: string, name: string) { HasSection(lines, s) && TypeName(s) == Some(name) }

  ghost predicate IsFirst(lines: seq<string>, s: string, name: string) {
    && Declares(lines, s, name)
    && forall t | Declares(lines, t, name) :: SectionOf(lines, s).header <= SectionOf(lines, t).header
  }

  lemma HeadersDiffer(lines: seq<string>, s: string, t: string)
    requires HasSection(lines, s) && HasSection(lines, t) && SectionOf(lines, s).header == SectionOf(lines, t).header
    ensures s == t
  {
    hide After;
    SectionsPlaced(Kinds(lines), |lines|, s);
    SectionsPlaced(Kinds(lines), |lines|, t);
  }

  lemma {:induction false} FirstExists(lines: seq<string>, name: string, among: set<string>) returns (s: string)
    requires exists t :: t in among && Declares(lines, t, name)
    ensures Declares(lines, s, name)
    ensures forall t | t in among && Declares(lines, t, name) ::
            SectionOf(lines, s).header <= SectionOf(lines, t).header
    decreases |among|
  {
    hide After;
    s :| s in among && Declares(lines, s, name);
    var rest := among - {s};
    if exists t :: t in rest && Declares(lines, t, name) {
      var best := FirstExists(lines, name, rest);
      if SectionOf(lines, best).header < SectionOf(lines, s).header { s := best; }
    }
  }

  lemma FirstThere(lines: seq<string>, name: string)
    requires exists s :: Declares(lines, s, name)
    ensures exists s :: IsFirst(lines, s, name)
  {
    var s := FirstExists(lines, name, ParseLines(lines).sections.Keys);
    assert IsFirst(lines, s, name);
  }

  // The header to write a type under: the first that declares it, or a new one.
  ghost function SectionFor(lines: seq<string>, name: string): (s: string)
    ensures IsFirst(lines, s, name) || (s == "type " + name && forall t :: !Declares(lines, t, name))
  {
    if exists s :: Declares(lines, s, name) then
      FirstThere(lines, name);
      var s :| IsFirst(lines, s, name); s
    else "type " + name
  }

  ghost function SavedLines(lines: seq<string>, types: seq<McuType>, known: seq<string>): seq<string> {
    if types == [] then lines
    else
      var n := |types| - 1;
      var mid := SavedLines(lines, types[..n], known);
      ApplyAll(mid, SectionFor(mid, types[n].name), SaveOps(types[n], known))
  }

  // ----- what a load reads -----

  function ParseAll(raws: seq<string>): Option<seq<Patch>> {
    if raws == [] then Some([])
    else
      var before, last := ParseAll(raws[..|raws| - 1]), ParsePatch(raws[|raws| - 1]);
      if before.None? || last.None? then None else Some(before.value + [last.value])
  }

  // The settings of the declared families; None when a patch does not parse. A family
  // declared twice gathers its patches twice.
  function LoadFws(lines: seq<string>, s: string, fws: seq<string>): Option<map<string, FwConfig>> {
    if fws == [] then Some(map[])
    else
      var n := |fws| - 1;
      var fw, before := fws[n], LoadFws(lines, s, fws[..n]);
      var patches := ParseAll(ListAt(lines, s, fw + PATCHES));
      if before.None? || patches.None? then None
      else
        var held := if fw in before.value then before.value[fw].patches else [];
        Some(before.value[fw := FwConfig(Trim(TextAt(lines, s, fw + ARGS)), held + patches.value,
          ListAt(lines, s, fw + REPOS))])
  }

  function LoadType(lines: seq<string>, s: string, name: string): Option<McuType> {
    var firmwares := FamiliesAt(lines, s);
    var fws := LoadFws(lines, s, firmwares);
    if fws.None? then None
    else Some(McuType(name, Trim(TextAt(lines, s, "chipset")), ListAt(lines, s, "serials"),
      ListAt(lines, s, "canbus_uuids"),
                      firmwares, Trim(TextAt(lines, s, "kconfig_make_profile")), WordsAt(lines, s, "stop_services"),
                      Once(firmwares), fws.value))
  }

  // ----- what a load of the whole file reads -----

  const KCONFIG := "kconfig_make"

  // Keys under which a type is refused: three renamed, one no longer read.
  const REFUSED := ["env", "profile", "device_map", "klipper_section"]

  function FamiliesAt(lines: seq<string>, s: string): seq<string> {
    var named := WordsAt(lines, s, "firmware");
    if named.Some? then named.value else []
  }

  // builders gives each declared family its builder. A type this registry holds is one whose
  // first family is built by kconfig and make.
  predicate Ours(fws: seq<string>, builders: map<string, string>) {
    fws != [] && fws[0] in builders && builders[fws[0]] == KCONFIG
  }

  // What a type's families must be: some, all declared, all built by one tool.
  predicate GoodFamilies(fws: seq<string>, builders: map<string, string>) {
    fws != [] && fws[0] in builders && forall fw | fw in fws :: fw in builders && builders[fw] == builders[fws[0]]
  }

  predicate ValidType(lines: seq<string>, s: string, builders: map<string, string>) {
    (forall k | k in REFUSED :: Lookup(lines, s, k).None?) && GoodFamilies(FamiliesAt(lines, s), builders)
  }

  predicate AllValid(lines: seq<string>, builders: map<string, string>) {
    forall s | s in NamesOf(lines) && TypeName(s).Some? :: ValidType(lines, s, builders)
  }

  // The types of some sections, each read over an earlier one of the same name; None when a
  // patch does not parse.
  function LoadFrom(lines: seq<string>, sections: seq<string>,
                    builders: map<string, string>): Option<map<string, McuType>> {
    if sections == [] then Some(map[])
    else
      var n := |sections| - 1;
      var before := LoadFrom(lines, sections[..n], builders);
      if before.None? then None else AlsoLoad(before.value, lines, sections[n], builders)
  }

  function AlsoLoad(held: map<string, McuType>, lines: seq<string>, s: string, builders: map<string, string>):
    Option<map<string, McuType>>
  {
    var name := TypeName(s);
    if name.None? || !Ours(FamiliesAt(lines, s), builders) then Some(held)
    else
      var m := LoadType(lines, s, name.value);
      if m.None? then None else Some(held[name.value := m.value])
  }

  // None when it raises: a repeated section, a type that is not valid, a patch that does not
  // parse.
  function LoadRegistry(lines: seq<string>, builders: map<string, string>): Option<map<string, McuType>> {
    if ParseLines(lines).duplicates != [] || !AllValid(lines, builders) then None
    else LoadFrom(lines, NamesOf(lines), builders)
  }

  // ----- a type the format can hold -----

  predicate FwName(fw: string) { Word(fw) && ':' !in fw && '=' !in fw && fw[0] != '[' }

  predicate CleanCfg(c: FwConfig) {
    && Clean(c.args) && CleanItems(c.repos)
    && forall i | 0 <= i < |c.patches| :: CleanPatch(c.patches[i])
  }

  ghost predicate CleanType(m: McuType, known: seq<string>) {
    && CleanName("type " + m.name) && m.name != "" && Trimmed(m.name)
    && Clean(m.chipset) && CleanItems(m.serials) && CleanItems(m.uuids) && Clean(m.profile)
    && AllWords(m.firmwares) && (m.stop.Some? ==> AllWords(m.stop.value))
    && (forall fw | fw in m.slots + known :: FwName(fw))
    && (forall fw | fw in m.firmwares :: fw in m.slots + known)
    && (forall fw | fw in m.fws :: CleanCfg(m.fws[fw]))
  }

  // The same for everyone who asks about the type or the families it declares.
  ghost predicate Same(m: McuType, r: McuType) {
    && r.name == m.name && r.chipset == m.chipset && r.serials == m.serials && r.uuids == m.uuids
    && r.firmwares == m.firmwares && r.profile == m.profile && r.stop == m.stop
    && forall fw | fw in m.firmwares :: FwGet(r, fw) == FwGet(m, fw)
  }

  // ----- the loops of a load -----

  lemma ParseMore(raws: seq<string>, i: nat)
    requires i < |raws|
    ensures raws[..i + 1][..i] == raws[..i] && raws[..i + 1][i] == raws[i]
  {
  }

  lemma {:induction false} ParseStops(raws: seq<string>, n: nat)
    requires n <= |raws| && ParseAll(raws[..n]).None?
    ensures ParseAll(raws).None?
    decreases |raws| - n
  {
    hide ParsePatch;
    if n == |raws| {
      assert raws[..n] == raws;
    } else {
      ParseMore(raws, n);
      ParseStops(raws, n + 1);
    }
  }

  method ReadPatches(raws: seq<string>) returns (r: Option<seq<Patch>>)
    ensures r == ParseAll(raws)
  {
    hide ParsePatch;
    var patches: seq<Patch> := [];
    for i := 0 to |raws|
      invariant ParseAll(raws[..i]) == Some(patches)
    {
      ParseMore(raws, i);
      var patch := ParsePatch(raws[i]);
      if patch.None? {
        ParseStops(raws, i + 1);
        return None;
      }
      patches := patches + [patch.value];
    }
    assert raws[..|raws|] == raws;
    r := Some(patches);
  }

  lemma {:induction false} FwsStop(lines: seq<string>, s: string, fws: seq<string>, n: nat)
    requires n <= |fws| && LoadFws(lines, s, fws[..n]).None?
    ensures LoadFws(lines, s, fws).None?
    decreases |fws| - n
  {
    hide ParseAll, ListAt, TextAt, Trim;
    if n == |fws| {
      assert fws[..n] == fws;
    } else {
      assert fws[..n + 1][..n] == fws[..n];
      FwsStop(lines, s, fws, n + 1);
    }
  }

  // One section's families, each filled in turn; a family met again gets its patches again.
  method ReadFws(doc: CfgDocument, s: string, fws: seq<string>) returns (r: Option<map<string, FwConfig>>)
    requires doc.Valid()
    ensures r == LoadFws(doc.lines, s, fws)
  {
    hide ParseAll, ListAt, TextAt, Trim;
    var held: map<string, FwConfig> := map[];
    for i := 0 to |fws|
      invariant LoadFws(doc.lines, s, fws[..i]) == Some(held)
    {
      assert fws[..i + 1][..i] == fws[..i];
      var fw := fws[i];
      var patches := ReadPatches(ListAt(doc.lines, s, fw + PATCHES));
      if patches.None? {
        FwsStop(doc.lines, s, fws, i + 1);
        return None;
      }
      var before := if fw in held then held[fw].patches else [];
      held := held[fw := FwConfig(Trim(TextAt(doc.lines, s, fw + ARGS)), before + patches.value,
                                  ListAt(doc.lines, s, fw + REPOS))];
    }
    assert fws[..|fws|] == fws;
    r := Some(held);
  }

  lemma {:induction false} LoadStops(lines: seq<string>, sections: seq<string>, builders: map<string, string>, n: nat)
    requires n <= |sections| && LoadFrom(lines, sections[..n], builders).None?
    ensures LoadFrom(lines, sections, builders).None?
    decreases |sections| - n
  {
    hide AlsoLoad;
    if n == |sections| {
      assert sections[..n] == sections;
    } else {
      assert sections[..n + 1][..n] == sections[..n];
      LoadStops(lines, sections, builders, n + 1);
    }
  }

  // The walk over the type sections, in file order.
  method LoadTypes(doc: CfgDocument, builders: map<string, string>) returns (r: Option<map<string, McuType>>)
    requires doc.Valid()
    ensures r == LoadRegistry(doc.lines, builders)
  {
    hide NamesOf, AllValid, TypeName, Ours, WordsAt, ListAt, TextAt, Trim, LoadFws, ParseLines;
    if doc.duplicateSections != [] || !AllValid(doc.lines, builders) {
      return None;
    }
    var sections := NamesOf(doc.lines);
    var types: map<string, McuType> := map[];
    for i := 0 to |sections|
      invariant LoadFrom(doc.lines, sections[..i], builders) == Some(types)
    {
      assert sections[..i + 1][..i] == sections[..i];
      var s := sections[i];
      var name, fws := TypeName(s), FamiliesAt(doc.lines, s);
      if name.Some? && Ours(fws, builders) {
        var cfgs := ReadFws(doc, s, fws);
        if cfgs.None? {
          LoadStops(doc.lines, sections, builders, i + 1);
          return None;
        }
        var m := McuType(name.value, Trim(TextAt(doc.lines, s, "chipset")), ListAt(doc.lines, s, "serials"),
                         ListAt(doc.lines, s, "canbus_uuids"), fws, Trim(TextAt(doc.lines, s, "kconfig_make_profile")),
                         WordsAt(doc.lines, s, "stop_services"), Once(fws), cfgs.value);
        types := types[name.value := m];
      }
    }
    assert sections[..|sections|] == sections;
    r := Some(types);
  }

  // ----- the registry object -----

  // Where a type of this name is, or how many there are when there is none.
  function IndexOf(types: seq<McuType>, name: string): (i: nat)
    ensures i <= |types| && (i < |types| ==> types[i].name == name)
    ensures forall j | 0 <= j < i :: types[j].name != name
  {
    if types == [] || types[0].name == name then 0 else IndexOf(types[1..], name) + 1
  }

  // list.remove: the first one goes.
  function Without(items: seq<string>, item: string): seq<string>
    requires item in items
  {
    if items[0] == item then items[1..] else [items[0]] + Without(items[1..], item)
  }

  datatype Change = Unknown | Unchanged | Changed

  class TypeRegistry {
    var types: seq<McuType>
    const doc: CfgDocument

    constructor (types: seq<McuType>, doc: CfgDocument)
      ensures this.types == types && this.doc == doc
    {
      this.types, this.doc := types, doc;
    }

    method AddSerial(name: string, serial: string) returns (r: Change)
      modifies `types
      ensures var i := IndexOf(old(types), name);
              if i == |old(types)| then r == Unknown && types == old(types)
              else if serial in old(types)[i].serials then r == Unchanged && types == old(types)
              else r == Changed && types == old(types)[i := old(types)[i].(serials := old(types)[i].serials + [serial])]
    {
      var i := IndexOf(types, name);
      if i == |types| {
        return Unknown;
      }
      if serial in types[i].serials {
        return Unchanged;
      }
      types := types[i := types[i].(serials := types[i].serials + [serial])];
      r := Changed;
    }

    method RemoveSerial(name: string, serial: string) returns (r: Change)
      modifies `types
      ensures var i := IndexOf(old(types), name);
              if i == |old(types)| then r == Unknown && types == old(types)
              else if serial !in old(types)[i].serials then r == Unchanged && types == old(types)
              else r == Changed && types == old(types)[i := old(types)[i].(serials := Without(old(types)[i].serials,
                serial))]
    {
      var i := IndexOf(types, name);
      if i == |types| {
        return Unknown;
      }
      if serial !in types[i].serials {
        return Unchanged;
      }
      types := types[i := types[i].(serials := Without(types[i].serials, serial))];
      r := Changed;
    }

    // The first section in the file that declares the type, or a new one's header.
    method SectionOfType(name: string) returns (s: string)
      requires doc.Valid()
      ensures s == SectionFor(doc.lines, name)
    {
      hide TypeName, ParseLines;
      var left := doc.sections.Keys;
      var found: Option<string> := None;
      while left != {}
        invariant left <= doc.sections.Keys
        invariant found.None? ==> forall t | t in doc.sections.Keys - left :: TypeName(t) != Some(name)
        invariant found.Some? ==> Declares(doc.lines, found.value, name)
        invariant found.Some? ==> forall t | t in doc.sections.Keys - left && TypeName(t) == Some(name) ::
                    doc.sections[found.value].header <= doc.sections[t].header
        decreases |left|
      {
        var t :| t in left;
        if TypeName(t) == Some(name) && (found.None? || doc.sections[t].header < doc.sections[found.value].header) {
          found := Some(t);
        }
        left := left - {t};
      }
      if found.None? {
        NotDeclared(doc.lines, name, doc.sections.Keys);
        return "type " + name;
      }
      s := found.value;
      IsFirstOne(doc.lines, s, name);
    }

    // One type's settings, key by key, in the order they are written.
    method SaveType(m: McuType, known: seq<string>)
      requires doc.Valid() && !doc.frozen
      modifies doc
      ensures doc.Valid() && !doc.frozen
      ensures doc.lines == ApplyAll(old(doc.lines), SectionFor(old(doc.lines), m.name), SaveOps(m, known))
    {
      hide ApplyAll, ParseLines, SectionFor, TypeOps, FwOps;
      ghost var was := doc.lines;
      var s := SectionOfType(m.name);
      MakeAll(doc, s, TypeOps(m));
      var visits := Once(m.slots + known);
      assert TypeOps(m) + AllFwOps(m, visits[..0]) == TypeOps(m);
      for v := 0 to |visits|
        invariant doc.Valid() && !doc.frozen
        invariant doc.lines == ApplyAll(was, s, TypeOps(m) + AllFwOps(m, visits[..v]))
      {
        assert visits[..v + 1][..v] == visits[..v];
        ApplyJoined(was, s, TypeOps(m) + AllFwOps(m, visits[..v]), FwOps(m, visits[v]));
        assert (TypeOps(m) + AllFwOps(m, visits[..v])) + FwOps(m, visits[v]) ==
               TypeOps(m) + AllFwOps(m, visits[..v + 1]);
        MakeAll(doc, s, FwOps(m, visits[v]));
      }
      assert visits[..|visits|] == visits;
    }

    method Save(known: seq<string>)
      requires doc.Valid() && !doc.frozen
      modifies doc
      ensures doc.Valid() && !doc.frozen && doc.lines == SavedLines(old(doc.lines), types, known)
    {
      hide ApplyAll, SaveOps, ParseLines, SectionFor;
      for i := 0 to |types|
        invariant doc.Valid() && !doc.frozen && doc.lines == SavedLines(old(doc.lines), types[..i], known)
      {
        assert types[..i + 1][..i] == types[..i];
        SaveType(types[i], known);
      }
      assert types[..|types|] == types;
    }
  }

  lemma NotDeclared(lines: seq<string>, name: string, keys: set<string>)
    requires keys == ParseLines(lines).sections.Keys && forall t | t in keys :: TypeName(t) != Some(name)
    ensures SectionFor(lines, name) == "type " + name
  {
    hide TypeName;
  }

  lemma IsFirstOne(lines: seq<string>, s: string, name: string)
    requires IsFirst(lines, s, name)
    ensures SectionFor(lines, name) == s
  {
    hide TypeName, ParseLines;
    HeadersDiffer(lines, s, SectionFor(lines, name));
  }
}
