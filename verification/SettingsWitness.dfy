// Config files from which saved settings do not come back.

module SettingsWitness {
  import opened Text
  import opened CfgSyntax
  import opened CfgParse
  import opened CfgRender
  import opened CfgOrder
  import opened CfgDocument
  import opened CfgGiven
  import opened CfgReads
  import opened CfgWitness
  import opened Settings
  import opened SettingsTrip

  function Reloaded(lines: seq<string>, s: Settings): Option<Settings> {
    Load(SplitLines(RenderText(Written(lines, s))))
  }

  lemma Header()
    ensures Gives(["[updater]"], SECTION, [], map[])
  {
    hide Gives;
    SectionClean();
    HeaderOnly(SECTION);
    assert "[" + SECTION + "]" == "[updater]";
  }

  lemma OneLineFile(row: string, k: string, v: string)
    requires row == k + ": " + v && CleanKey(k) && Clean(v)
    ensures Gives(["[updater]", row], SECTION, [k], map[k := [v]])
  {
    hide Gives, CleanKey, Clean;
    Header();
    EntryMore(["[updater]"], SECTION, [], map[], k, v);
    FirstKey(k, v);
    assert ["[updater]"] + [row] == ["[updater]", row];
  }

  lemma TwoLineFile(row: string, k: string, v: string, next: string, q: string, w: string)
    requires row == k + ": " + v && CleanKey(k) && Clean(v)
    requires next == q + ": " + w && CleanKey(q) && Clean(w)
    ensures Gives(["[updater]", row, next], SECTION, if q == k then [k] else [k, q],
                  if q == k then map[k := [v, w]] else map[k := [v], q := [w]])
  {
    hide Gives, CleanKey, Clean;
    OneLineFile(row, k, v);
    EntryMore(["[updater]", row], SECTION, [k], map[k := [v]], q, w);
    assert ["[updater]", row] + [next] == ["[updater]", row, next];
    assert [k] + [q] == [k, q] && [v] + [w] == [v, w] && [] + [w] == [w];
    assert AlsoGives(map[k := [v]], q, w) == if q == k then map[k := [v, w]] else map[k := [v], q := [w]];
  }

  lemma DashedStop()
    ensures Undash("stop-services") == "stop_services" && "stop-services" != "stop_services"
    ensures CleanKey("stop-services") && Clean("klipper")
  {
    assert "stop-services"[4] != "stop_services"[4];
  }

  // A dashed stop list is not removed, so an unset one is set again.
  lemma DashedStopComesBack(s: Settings)
    requires CleanSettings(s) && s.stop.None?
    ensures Reloaded(["[updater]", "stop-services: klipper"], s) != Some(Normal(s))
  {
    hide Gives, CleanKey, Clean, CleanSettings, Load, Written, Normal, Undash, Parses, FieldStays, KeysOf, Given,
         ParseLines;
    var lines := ["[updater]", "stop-services: klipper"];
    DashedStop();
    assert "stop-services" + ": " + "klipper" == "stop-services: klipper";
    OneLineFile("stop-services: klipper", "stop-services", "klipper");
    GivesValues(lines, SECTION, ["stop-services"], map["stop-services" := ["klipper"]], "stop-services");
    assert "stop-services" in Spelled(KeysOf(lines, SECTION), KEYS[STOP]);
    RoundTripIff(lines, s);
  }

  lemma DashedRun()
    ensures Undash("dry-run") == "dry_run" == KEYS[4] && "dry-run" != "dry_run" && Undash("dry_run") == "dry_run"
    ensures CleanKey("dry-run") && CleanKey("dry_run") && Clean("false") && Clean("true")
  {
    assert "dry-run"[3] != "dry_run"[3];
  }

  lemma TrueReads()
    ensures ReadOption("dry_run", "true") == Read(Flag(true))
  {
    hide KindOf, ParseBool;
    KindTable();
    assert KEYS[4] == "dry_run";
    BoolReads(true);
  }

  // A dashed spelling further down is read over the field's own key: a dry run that was
  // turned off stays on.
  lemma DashedRunWins(s: Settings)
    requires CleanSettings(s) && !s.dryRun
    ensures Reloaded(["[updater]", "dry_run: false", "dry-run: true"], s) != Some(Normal(s))
  {
    hide CleanSettings, Load, Written, Normal, Undash, Parses, KeysOf, ParseLines, FieldStays, NoStopLeft;
    RunOverridden(s);
    RoundTripIff(["[updater]", "dry_run: false", "dry-run: true"], s);
  }

  // The file as it is read: the two spellings in their order, and what the second says.
  lemma DashedRunFile()
    ensures var lines := ["[updater]", "dry_run: false", "dry-run: true"];
            KeysOf(lines, SECTION) == ["dry_run", "dry-run"] && Given(lines, SECTION, "dry-run") == ["true"]
            && OneLiners(lines) && SECTION !in ParseLines(lines).duplicates
  {
    hide Gives, CleanKey, Clean, KeysOf, Given, ParseLines, Undash;
    DashedRun();
    assert "dry_run" + ": " + "false" == "dry_run: false" && "dry-run" + ": " + "true" == "dry-run: true";
    TwoLineFile("dry_run: false", "dry_run", "false", "dry-run: true", "dry-run", "true");
    GivesValues(["[updater]", "dry_run: false", "dry-run: true"], SECTION, ["dry_run", "dry-run"],
                map["dry_run" := ["false"], "dry-run" := ["true"]], "dry-run");
  }

  lemma RunOverridden(s: Settings)
    requires !s.dryRun
    ensures var lines := ["[updater]", "dry_run: false", "dry-run: true"];
            && OneLiners(lines) && SECTION !in ParseLines(lines).duplicates && !FieldStays(lines, s, 4)
  {
    hide CleanKey, Clean, KeysOf, Given, ParseLines, Undash, ReadOption, Lookup, FieldStays;
    var lines := ["[updater]", "dry_run: false", "dry-run: true"];
    DashedRunFile();
    DashedRun();
    GivenTells(lines, SECTION, "dry-run");
    SpelledBoth("dry_run", "dry-run", KEYS[4]);
    LastSays(lines, s);
  }

  // The last spelling of the field says true.
  lemma LastSays(lines: seq<string>, s: Settings)
    requires !s.dryRun && Spelled(KeysOf(lines, SECTION), KEYS[4]) == ["dry_run", "dry-run"]
    requires RawAt(lines, "dry-run") == "true"
    ensures !FieldStays(lines, s, 4)
  {
    hide KeysOf, Spelled, TextAt, ReadOption, WithoutHash, Undash;
    DashedRun();
    TrueReads();
    assert LastSpelling(lines, KEYS[4]) == "dry-run";
  }

  lemma SpelledBoth(a: string, b: string, name: string)
    requires Undash(a) == name == Undash(b)
    ensures Spelled([a, b], name) == [a, b]
  {
    hide Undash;
    SpelledNext([], a, name);
    SpelledNext([a], b, name);
    assert [] + [a] == [a] && [a] + [b] == [a, b];
  }

  // A second line of the stop list comes to life when the first is removed.
  lemma RepeatedStopComesBack(s: Settings)
    requires CleanSettings(s) && s.stop.None?
    ensures Reloaded(["[updater]", "stop_services: a", "stop_services: b"], s) != Some(Normal(s))
  {
    hide Gives, CleanKey, Clean, CleanSettings, Load, Written, Normal, Undash, Parses, FieldStays, KeysOf, Given,
         ParseLines, Spelled;
    var lines := ["[updater]", "stop_services: a", "stop_services: b"];
    OwnStop();
    assert "stop_services" + ": " + "a" == "stop_services: a" && "stop_services" + ": " + "b" == "stop_services: b";
    TwoLineFile("stop_services: a", "stop_services", "a", "stop_services: b", "stop_services", "b");
    GivesValues(lines, SECTION, ["stop_services"], map["stop_services" := ["a", "b"]], "stop_services");
    assert KEYS[STOP] == "stop_services" && |Given(lines, SECTION, KEYS[STOP])| == 2;
    RoundTripIff(lines, s);
  }

  lemma OwnStop()
    ensures CleanKey("stop_services") && Clean("a") && Clean("b")
  {
  }
}
