// The whole registry, saved and loaded again.

module RegistryTrip {
  import opened Text
  import opened CfgSyntax
  import opened CfgParse
  import opened CfgEdits
  import opened CfgOrder
  import opened CfgRender
  import opened CfgDocument
  import opened CfgLaws
  import opened CfgOps
  import opened CfgGiven
  import opened CfgReads
  import opened Words
  import opened Registry
  import opened RegistryOps
  import opened RegistryType

  // ----- the first section of a type, by the order of the sections -----

  function FirstOf(names: seq<string>, name: string): (s: string)
    ensures s in names || s == "type " + name
  {
    if names == [] then "type " + name else if TypeName(names[0]) == Some(name) then names[0]
       else FirstOf(names[1..], name)
  }

  predicate Named(names: seq<string>, name: string) { exists s :: s in names && TypeName(s) == Some(name) }

  lemma {:induction false} FirstIs(names: seq<string>, name: string)
    requires Named(names, name)
    ensures var s := FirstOf(names, name);
            s in names && TypeName(s) == Some(name) &&
            exists i :: 0 <= i < |names| && names[i] == s && forall j | 0 <= j < i :: TypeName(names[j]) != Some(name)
  {
    hide TypeName;
    if TypeName(names[0]) != Some(name) {
      FirstIs(names[1..], name);
      var s := FirstOf(names, name);
      var i :| 0 <= i < |names[1..]| && names[1..][i] == s && forall j | 0 <= j < i ::
        TypeName(names[1..][j]) != Some(name);
      assert names[i + 1] == s;
      forall j | 0 <= j < i + 1 ensures TypeName(names[j]) != Some(name) {
        if j > 0 { assert names[j] == names[1..][j - 1]; }
      }
    } else {
      assert names[0] == FirstOf(names, name);
    }
  }

  lemma {:induction false} FirstOfMore(names: seq<string>, more: seq<string>, name: string)
    ensures Named(names, name) ==> FirstOf(names + more, name) == FirstOf(names, name)
    ensures !Named(names, name) ==> FirstOf(names + more, name) == FirstOf(more, name)
  {
    hide TypeName;
    if names == [] {
      assert names + more == more;
    } else {
      assert (names + more)[1..] == names[1..] + more;
      FirstOfMore(names[1..], more, name);
      assert Named(names, name) <==> TypeName(names[0]) == Some(name) || Named(names[1..], name) by {
        assert names == [names[0]] + names[1..];
      }
    }
  }

  lemma {:induction false} NoFirst(names: seq<string>, name: string)
    requires !Named(names, name)
    ensures FirstOf(names, name) == "type " + name
  {
    hide TypeName;
    if names != [] {
      assert names[0] in names;
      assert forall s | s in names[1..] :: s in names;
      NoFirst(names[1..], name);
    }
  }

  lemma SectionByOrder(lines: seq<string>, name: string)
    ensures SectionFor(lines, name) == FirstOf(NamesOf(lines), name)
  {
    hide TypeName, ParseLines, SectionFor, NamesOf, FirstOf;
    var names := NamesOf(lines);
    NamesTell(lines);
    if Named(names, name) {
      FirstIs(names, name);
      var s := FirstOf(names, name);
      forall t | Declares(lines, t, name) ensures SectionOf(lines, s).header <= SectionOf(lines, t).header {
        NotBefore(lines, names, s, t, name);
      }
      IsFirstOne(lines, s, name);
    } else {
      NoFirst(names, name);
      NotDeclared(lines, name, ParseLines(lines).sections.Keys);
    }
  }

  lemma NotBefore(lines: seq<string>, names: seq<string>, s: string, t: string, name: string)
    requires names == NamesOf(lines) && HasSection(lines, s) && Declares(lines, t, name)
    requires exists i :: 0 <= i < |names| && names[i] == s && forall j | 0 <= j < i :: TypeName(names[j]) != Some(name)
    ensures SectionOf(lines, s).header <= SectionOf(lines, t).header
  {
    hide TypeName, ParseLines, NamesOf;
    NamesTell(lines);
    HeaderIs(lines, s);
    HeaderIs(lines, t);
    var i :| 0 <= i < |names| && names[i] == s && forall j | 0 <= j < i :: TypeName(names[j]) != Some(name);
    var j :| 0 <= j < |names| && names[j] == t;
    assert i <= j;
  }

  lemma HeaderIs(lines: seq<string>, s: string)
    requires HasSection(lines, s)
    ensures HeaderOf(ParseLines(lines), s) == SectionOf(lines, s).header
  {
    hide After;
  }

  // ----- the sections after a save -----

  ghost predicate Names(types: seq<McuType>) { forall i, j | 0 <= i < j < |types| :: types[i].name != types[j].name }

  ghost function EditOf(lines: seq<string>, m: McuType, known: seq<string>): Edit {
    Edit(SectionFor(lines, m.name), SaveOps(m, known))
  }

  ghost function EditsOf(lines: seq<string>, types: seq<McuType>, known: seq<string>): (r: seq<Edit>)
    ensures |r| == |types| && forall i | 0 <= i < |r| :: r[i] == EditOf(lines, types[i], known)
  {
    seq(|types|, i requires 0 <= i < |types| => EditOf(lines, types[i], known))
  }

  // What saving some types asks of them and of the document.
  ghost predicate CanSave(lines: seq<string>, types: seq<McuType>, known: seq<string>) {
    OneLiners(lines) && Names(types) && forall m | m in types :: CleanType(m, known)
  }

  lemma NewName(name: string)
    requires name != "" && Trimmed(name)
    ensures TypeName("type " + name) == Some(name)
  {
    hide Strip;
    var s := "type " + name;
    assert s[..5] == "type " && s[4..] == " " + name + "";
    StripPadded(" ", name, "");
  }

  lemma SectionNamed(lines: seq<string>, m: McuType, known: seq<string>)
    requires CleanType(m, known)
    ensures TypeName(SectionFor(lines, m.name)) == Some(m.name)
    ensures HasSection(lines, SectionFor(lines, m.name)) || CleanName(SectionFor(lines, m.name))
  {
    hide TypeName, SectionFor;
    NewName(m.name);
  }

  lemma EditReady(lines: seq<string>, types: seq<McuType>, known: seq<string>, m: McuType)
    requires CanSave(lines, types, known) && m in types
    ensures Ready(lines, EditOf(lines, m, known))
  {
    hide TypeName, SectionFor, SaveOps, CleanOps, Distinct, CleanType;
    SectionNamed(lines, m, known);
    SaveOpsClean(m, known);
  }

  lemma EditsApart(lines: seq<string>, types: seq<McuType>, known: seq<string>)
    requires Names(types) && forall m | m in types :: CleanType(m, known)
    ensures DistinctSections(EditsOf(lines, types, known))
  {
    hide TypeName, SectionFor, SaveOps, CleanType;
    forall i, j | 0 <= i < j < |types|
      ensures SectionFor(lines, types[i].name) != SectionFor(lines, types[j].name)
    {
      SectionNamed(lines, types[i], known);
      SectionNamed(lines, types[j], known);
    }
  }

  lemma FirstIsPut(m: McuType, known: seq<string>)
    ensures SaveOps(m, known) != [] && SaveOps(m, known)[0].Put?
  {
    hide Trim, AllFwOps, CommaJoin;
  }

  // The sections some edits add, in the order of the edits.
  ghost function Added(lines: seq<string>, edits: seq<Edit>): seq<string> {
    if edits == [] then []
    else
      var n := |edits| - 1;
      Added(lines, edits[..n]) + if HasSection(lines, edits[n].section) then [] else [edits[n].section]
  }

  lemma {:induction false} AddedAre(lines: seq<string>, edits: seq<Edit>)
    ensures forall s :: s in Added(lines, edits) <==>
            !HasSection(lines, s) && exists i :: 0 <= i < |edits| && edits[i].section == s
  {
    hide ParseLines;
    if edits != [] {
      var n := |edits| - 1;
      AddedAre(lines, edits[..n]);
      assert forall i | 0 <= i < n :: edits[..n][i] == edits[i];
    }
  }

  // Sections there before stay in their order; new ones follow.
  lemma {:induction false} EditsNames(lines: seq<string>, edits: seq<Edit>)
    requires DistinctSections(edits) && OneLiners(lines) && forall i | 0 <= i < |edits| :: Ready(lines, edits[i])
    requires forall i | 0 <= i < |edits| :: edits[i].ops != [] && edits[i].ops[0].Put?
    ensures NamesOf(ApplyEdits(lines, edits)) == NamesOf(lines) + Added(lines, edits)
  {
    hide ParseLines, CopiesOf, Lookup, ApplyAll, Made, Ready, Edits, Touches, Fits, CleanOps, Distinct, Took, NamesOf;
    if edits == [] {
      assert NamesOf(lines) + [] == NamesOf(lines);
    } else {
      var n := |edits| - 1;
      var e := edits[n];
      EditsNames(lines, edits[..n]);
      ApplyEditsReads(lines, edits[..n]);
      var mid := ApplyEdits(lines, edits[..n]);
      StillReady(lines, mid, e);
      ReadyParts(mid, e);
      ApplyAllNames(mid, e.section, e.ops);
      AddedAre(lines, edits[..n]);
      NamesTell(mid);
      NamesTell(lines);
      assert HasSection(mid, e.section) <==> HasSection(lines, e.section);
    }
  }

  // Writing other types does not change where this one is written.
  lemma SameSection(lines: seq<string>, mid: seq<string>, edits: seq<Edit>, name: string)
    requires NamesOf(mid) == NamesOf(lines) + Added(lines, edits)
    requires forall e | e in edits :: TypeName(e.section) != Some(name)
    ensures SectionFor(mid, name) == SectionFor(lines, name)
  {
    hide TypeName, ParseLines, NamesOf, SectionFor, FirstOf;
    SectionByOrder(lines, name);
    SectionByOrder(mid, name);
    FirstOfMore(NamesOf(lines), Added(lines, edits), name);
    AddedAre(lines, edits);
    NoFirst(Added(lines, edits), name);
    if !Named(NamesOf(lines), name) { NoFirst(NamesOf(lines), name); }
  }

  lemma ReadyEdits(lines: seq<string>, types: seq<McuType>, known: seq<string>)
    requires CanSave(lines, types, known)
    ensures var edits := EditsOf(lines, types, known);
            && DistinctSections(edits)
            && forall i | 0 <= i < |edits| :: Ready(lines, edits[i]) && edits[i].ops != [] && edits[i].ops[0].Put?
  {
    hide TypeName, SectionFor, SaveOps, CleanType, Ready;
    var edits := EditsOf(lines, types, known);
    EditsApart(lines, types, known);
    forall i | 0 <= i < |edits| ensures Ready(lines, edits[i]) && edits[i].ops != [] && edits[i].ops[0].Put? {
      EditReady(lines, types, known, types[i]);
      FirstIsPut(types[i], known);
    }
  }

  lemma SameForLast(lines: seq<string>, types: seq<McuType>, known: seq<string>)
    requires CanSave(lines, types, known) && types != []
    ensures var n := |types| - 1;
            SectionFor(ApplyEdits(lines, EditsOf(lines, types[..n], known)), types[n].name) ==
            SectionFor(lines, types[n].name)
  {
    hide TypeName, SectionFor, SaveOps, CleanType, ParseLines, ApplyAll, Ready, DistinctSections, NamesOf, Added;
    var n := |types| - 1;
    var first := types[..n];
    assert types == first + [types[n]];
    var edits := EditsOf(lines, first, known);
    ReadyEdits(lines, first, known);
    EditsNames(lines, edits);
    forall e | e in edits ensures TypeName(e.section) != Some(types[n].name) {
      var i :| 0 <= i < n && edits[i] == e;
      SectionNamed(lines, first[i], known);
    }
    SameSection(lines, ApplyEdits(lines, edits), edits, types[n].name);
  }

  lemma {:induction false} SavedIsEdits(lines: seq<string>, types: seq<McuType>, known: seq<string>)
    requires CanSave(lines, types, known)
    ensures SavedLines(lines, types, known) == ApplyEdits(lines, EditsOf(lines, types, known))
  {
    hide TypeName, SectionFor, SaveOps, CleanType, ParseLines, ApplyAll, Ready, DistinctSections, NamesOf, Added;
    if types != [] {
      var n := |types| - 1;
      var first := types[..n];
      assert types == first + [types[n]];
      SavedIsEdits(lines, first, known);
      var edits := EditsOf(lines, first, known);
      SameForLast(lines, types, known);
      assert EditsOf(lines, types, known) == edits + [EditOf(lines, types[n], known)];
      assert EditsOf(lines, types, known)[..n] == edits;
    }
  }
}
