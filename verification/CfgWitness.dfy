// Files at which an edit does not do what its name says, read line by line.

module CfgWitness {
  import opened Text
  import opened CfgSyntax
  import opened CfgParse
  import opened CfgEdits
  import opened CfgValues
  import opened CfgOrder
  import opened CfgRender
  import opened CfgDocument
  import opened CfgLaws
  import opened CfgGiven
  import opened CfgRename

  // What a file gives one section, and the parser inside that section at its end.
  ghost predicate Gives(lines: seq<string>, s: string, keys: seq<string>, values: map<string, seq<string>>) {
    && OneLiners(lines) && LiveAt(ParseLines(lines), s) && ParseLines(lines).duplicates == [] && NamesOf(lines) == [s]
    && KeysOf(lines, s) == keys
    && forall k :: Given(lines, s, k) == if k in values then values[k] else []
  }

  function AlsoGives(values: map<string, seq<string>>, k: string, v: string): map<string, seq<string>> {
    values[k := (if k in values then values[k] else []) + [v]]
  }

  lemma HeaderOnly(s: string)
    requires CleanName(s)
    ensures Gives(["[" + s + "]"], s, [], map[])
  {
    hide Classify;
    var lines := ["[" + s + "]"];
    HeaderLine(s, "");
    assert "[" + s + "]" + "" == "[" + s + "]";
    assert Kinds(lines) == [Header(s)];
    OneHeader(s);
    OneName(s);
  }

  lemma OneHeader(s: string)
    ensures var st := After([Header(s)], 1); LiveAt(st, s) && st.duplicates == [] && st.sections.Keys == {s}
    ensures KeysIn([Header(s)], 1, s) == [] && forall k :: Values([Header(s)], 1, s, k) == []
  {
    assert After([Header(s)], 0) == START;
    assert forall k :: Values([Header(s)], 0, s, k) == [];
  }

  lemma FirstKey(k: string, v: string)
    ensures [] + [k] == [k] && AlsoGives(map[], k, v) == map[k := [v]]
  {
    assert [] + [v] == [v];
  }

  // One more "key: value" line.
  lemma EntryMore(lines: seq<string>, s: string, keys: seq<string>, values: map<string, seq<string>>, k: string,
                  v: string)
    requires Gives(lines, s, keys, values) && CleanKey(k) && Clean(v)
    ensures Gives(lines + [k + ": " + v], s, if k in keys then keys else keys + [k], AlsoGives(values, k, v))
  {
    hide Classify, CleanKey, Clean, After, Values, KeysIn, Kinds;
    var row := k + ": " + v;
    var now := lines + [row];
    PlainLine(k, v);
    KindsConcat(lines, [row]);
    OneKind(row, k, v);
    RowNames(lines, row);
    LastEntry(Kinds(lines), s, k, v);
    GivenTells(lines, s, k);
    forall q ensures Given(now, s, q) == if q in AlsoGives(values, k, v) then AlsoGives(values, k, v)[q] else [] {
      assert Given(lines, s, q) == if q in values then values[q] else [];
    }
  }

  lemma OneKind(row: string, k: string, v: string)
    requires Classify(row) == Entry(k, v)
    ensures Kinds([row]) == [Entry(k, v)]
  {
  }

  // A key of one small letter and values of one digit.
  lemma SmallClean()
    ensures CleanName("a") && CleanName("b") && CleanKey("k") && Clean("1") && Clean("2")
  {
  }

  lemma PlainLine(k: string, v: string)
    requires CleanKey(k) && Clean(v)
    ensures Classify(k + ": " + v) == Entry(k, v) && OneLine(k + ": " + v)
  {
    hide Classify, Trimmed, StartsNote;
    TextLine(k, v, "");
    assert k + ": " + v + "" == k + ": " + v;
  }

  lemma LastEntry(kinds: seq<Line>, s: string, k: string, v: string)
    requires LiveAt(Final(kinds), s)
    ensures var now := kinds + [Entry(k, v)];
            && LiveAt(Final(now), s) && Final(now).duplicates == Final(kinds).duplicates
            && KeysIn(now, |now|, s) == KeysIn(kinds, |kinds|, s) + (if Get(Final(kinds), s, k).None? then [k] else [])
            && forall q :: Values(now, |now|, s, q) == Values(kinds, |kinds|, s, q) + if q == k then [v] else []
  {
    hide Step;
    var now, n := kinds + [Entry(k, v)], |kinds|;
    assert now[..n] == kinds[..n];
    AfterPrefix(now, kinds, n);
    KeysPrefix(now, kinds, n, s);
    StepPlaceAndKey(After(now, n), n, now[n]);
    forall q ensures Values(now, |now|, s, q) == Values(kinds, n, s, q) + if q == k then [v] else [] {
      ValuesPrefix(now, kinds, n, s, q);
    }
  }

  // ----- a key given twice -----

  lemma TwoValues()
    ensures Gives(["[a]", "k: 1", "k: 2"], "a", ["k"], map["k" := ["1", "2"]])
  {
    hide Gives, Clean, CleanKey, CleanName;
    SmallClean();
    HeaderOnly("a");
    assert "[" + "a" + "]" == "[a]";
    EntryMore(["[a]"], "a", [], map[], "k", "1");
    assert "k" + ": " + "1" == "k: 1" && ["[a]"] + ["k: 1"] == ["[a]", "k: 1"];
    assert [] + ["k"] == ["k"] && [] + ["1"] == ["1"] && ["1"] + ["2"] == ["1", "2"];
    assert AlsoGives(map[], "k", "1") == map["k" := [] + ["1"]] == map["k" := ["1"]];
    EntryMore(["[a]", "k: 1"], "a", ["k"], map["k" := ["1"]], "k", "2");
    assert "k" + ": " + "2" == "k: 2" && ["[a]", "k: 1"] + ["k: 2"] == ["[a]", "k: 1", "k: 2"];
    assert AlsoGives(map["k" := ["1"]], "k", "2") == map["k" := ["1"] + ["2"]] == map["k" := ["1", "2"]];
  }

  // Removing the option leaves it with the other line's value.
  lemma RemovedStillThere()
    ensures var lines := ["[a]", "k: 1", "k: 2"];
            Lookup(lines, "a", "k") == Some("1") && Lookup(RemoveLines(lines, "a", "k"), "a", "k") == Some("2")
  {
    hide Gives, Regiven, RemoveLines, Lookup;
    var lines := ["[a]", "k: 1", "k: 2"];
    TwoValues();
    GivesValues(lines, "a", ["k"], map["k" := ["1", "2"]], "k");
    RemoveGives(lines, "a", "k");
    RegivenValue(lines, RemoveLines(lines, "a", "k"), "a", "k", Rest(Given(lines, "a", "k")));
    assert Rest(["1", "2"]) == ["2"];
    GivenTells(lines, "a", "k");
    GivenTells(RemoveLines(lines, "a", "k"), "a", "k");
  }

  lemma GivesValues(lines: seq<string>, s: string, keys: seq<string>, values: map<string, seq<string>>, k: string)
    requires Gives(lines, s, keys, values)
    ensures Given(lines, s, k) == if k in values then values[k] else []
    ensures KeysOf(lines, s) == keys && OneLiners(lines) && ParseLines(lines).duplicates == [] && NamesOf(lines) == [s]
  {
  }

  lemma RegivenValue(was: seq<string>, now: seq<string>, s: string, k: string, values: seq<string>)
    requires Regiven(was, now, s, k, values)
    ensures Given(now, s, k) == values
  {
  }

  // ----- a section given twice -----

  // Renamed, it is still there under its old name, with what the second copy says.
  lemma RenamedStillThere()
    ensures var lines := ["[a]", "k: 1", "[a]", "k: 2"];
            var renamed := RenameLines(lines, "a", "b");
            && Lookup(lines, "a", "k") == Some("1")
            && Lookup(renamed, "b", "k") == Some("1") && Lookup(renamed, "a", "k") == Some("2")
  {
    hide Classify, Clean, CleanKey, CleanName, RenameLines;
    var lines := ["[a]", "k: 1", "[a]", "k: 2"];
    SmallClean();
    HeaderLine("a", "");
    assert "[" + "a" + "]" + "" == "[a]";
    PlainLine("k", "1");
    PlainLine("k", "2");
    assert "k" + ": " + "1" == "k: 1" && "k" + ": " + "2" == "k: 2";
    var kinds := [Header("a"), Entry("k", "1"), Header("a"), Entry("k", "2")];
    assert Kinds(lines) == kinds;
    FourSteps(kinds, "a");
    RenamedKinds(lines, "a", "b");
    var h := SectionOf(lines, "a").header;
    FourSteps(kinds[0 := Header("b")], "b");
  }

  lemma FourSteps(kinds: seq<Line>, s: string)
    requires s in {"a", "b"} && kinds == [Header(s), Entry("k", "1"), Header("a"), Entry("k", "2")]
    ensures var st := Final(kinds);
            && Get(st, s, "k") == Some("1") && st.sections[s].header == 0
            && (s == "b" ==> Get(st, "a", "k") == Some("2"))
            && ("b" in st.sections <==> s == "b")
  {
    assert After(kinds, 0) == START;
    assert After(kinds, 1) == Step(START, 0, kinds[0]);
    assert After(kinds, 2) == Step(After(kinds, 1), 1, kinds[1]);
    assert After(kinds, 3) == Step(After(kinds, 2), 2, kinds[2]);
    assert After(kinds, 4) == Step(After(kinds, 3), 3, kinds[3]);
  }

  // ----- two sections of one key each -----

  lemma TwoSections(kinds: seq<Line>, s: string, t: string, k: string, v: string)
    requires s != t && kinds == [Header(s), Entry(k, v), Header(t), Entry(k, v)]
    ensures NamesIn(kinds, 4) == [s, t] && Final(kinds).duplicates == []
    ensures forall q :: Values(kinds, 4, s, q) == Values(kinds, 4, t, q) == if q == k then [v] else []
  {
    hide Step, Values, NamesIn;
    OneHeader(s);
    assert kinds[..1] == [Header(s)];
    AfterPrefix(kinds, [Header(s)], 1);
    NamesPrefix(kinds, [Header(s)], 1);
    OneName(s);
    forall q ensures Values(kinds, 4, s, q) == Values(kinds, 4, t, q) == if q == k then [v] else [] {
      NothingYet(kinds, s, t, q);
      ValueSteps(kinds, s, t, k, v, q);
    }
    StepPlaceAndKey(After(kinds, 1), 1, kinds[1]);
    StepPlaceAndKey(After(kinds, 2), 2, kinds[2]);
    StepPlaceAndKey(After(kinds, 3), 3, kinds[3]);
    NameSteps(kinds, s, t);
  }

  lemma OneName(s: string)
    ensures NamesIn([Header(s)], 1) == [s]
  {
    assert NamesIn([Header(s)], 0) == [];
  }

  lemma NothingYet(kinds: seq<Line>, s: string, t: string, q: string)
    requires |kinds| == 4 && kinds[0] == Header(s)
    ensures Values(kinds, 1, s, q) == [] == Values(kinds, 1, t, q)
  {
    assert Values(kinds, 0, s, q) == [] == Values(kinds, 0, t, q);
  }

  lemma NameSteps(kinds: seq<Line>, s: string, t: string)
    requires |kinds| == 4 && !kinds[1].Header? && kinds[2] == Header(t) && !kinds[3].Header?
    requires NamesIn(kinds, 1) == [s] && t !in After(kinds, 2).sections
    ensures NamesIn(kinds, 4) == [s, t]
  {
    assert NamesIn(kinds, 2) == [s] && NamesIn(kinds, 3) == [s] + [t];
  }

  lemma ValueSteps(kinds: seq<Line>, s: string, t: string, k: string, v: string, q: string)
    requires s != t && kinds == [Header(s), Entry(k, v), Header(t), Entry(k, v)]
    requires LiveAt(After(kinds, 1), s) && After(kinds, 1).sections.Keys == {s}
    requires Values(kinds, 1, s, q) == [] == Values(kinds, 1, t, q)
    ensures Values(kinds, 4, s, q) == Values(kinds, 4, t, q) == if q == k then [v] else []
  {
    hide Step;
    StepPlaceAndKey(After(kinds, 1), 1, kinds[1]);
    StepPlaceAndKey(After(kinds, 2), 2, kinds[2]);
    var own := if q == k then [v] else [];
    assert [] + [v] == [v];
    assert Values(kinds, 2, s, q) == own && Values(kinds, 2, t, q) == [];
    assert Values(kinds, 3, s, q) == own && Values(kinds, 3, t, q) == [];
  }
}
