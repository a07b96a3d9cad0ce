// One type's saved configs, where each came from, and when one may be replaced. Hashes are
// taken to tell texts apart, so a text stands for its hash. What a source tree makes of an
// answer file is given with each step.

module Profiles {
  import opened Text
  import opened H = ProfileHeader

  const CUSTOM := "config.custom"
  const DERIVED := "derived:"

  datatype Record = Record(profile: string, source: Option<string>, config: Option<string>, answers: seq<string>)

  // By firmware: the saved config, what was recorded when it was seeded, the type's own
  // profile file, and the vendor's seed files.
  datatype World = World(kind: string, configs: map<string, string>, records: map<string, Record>,
                         customs: map<string, string>, seeds: map<string, map<string, string>>)

  function Lookup<T>(m: map<string, T>, key: string): Option<T> { if key in m then Some(m[key]) else None }

  // ----- status -----

  datatype Reason = Matches | Unmanaged | Customised | SeedMoved

  // A profile by name; the type's own name is never the vendor's to use.
  function Find(w: World, fw: string, name: string): Option<string> {
    var wanted := Strip(name);
    if wanted == CUSTOM then Lookup(w.customs, fw)
    else if fw in w.seeds then Lookup(w.seeds[fw], wanted) else None
  }

  function SourceNow(w: World, fw: string, name: string): Option<string> {
    if StartsWith(name, DERIVED) then Lookup(w.configs, name[|DERIVED|..]) else Find(w, fw, name)
  }

  function Status(w: World, fw: string): Reason {
    if fw !in w.records then Unmanaged
    else
      var record := w.records[fw];
      var source := SourceNow(w, fw, record.profile);
      if Lookup(w.configs, fw) != record.config then Customised
      else if record.source.Some? && source.Some? && record.source != source then SeedMoved
      else Matches
  }

  predicate Refused(w: World, fw: string, force: bool) {
    !force && fw in w.configs && Status(w, fw) in {Unmanaged, Customised}
  }

  // ----- captures -----

  datatype Fork = Fork(parent: Option<string>, base: seq<string>)

  function ReadCustom(text: string): Fork {
    var h := HeaderOf(SplitLines(text));
    Fork(h.parent, h.base)
  }

  // Which profile a capture says it came from, and what that answered.
  function ForkedFrom(w: World, fw: string, parent: Option<string>): Fork {
    var record := Lookup(w.records, fw);
    var given := if parent.Some? && parent.value != "" && parent.value != CUSTOM then parent else None;
    if given.None? && fw in w.customs then ReadCustom(w.customs[fw])
    else
      var resolved := if given.Some? then given
                      else if record.Some? && record.value.profile != CUSTOM then Some(record.value.profile)
                      else None;
      if resolved.None? then Fork(None, [])
      else if fw in w.customs && ReadCustom(w.customs[fw]).parent == resolved && ReadCustom(w.customs[fw]).base != []
      then Fork(resolved, ReadCustom(w.customs[fw]).base)
      else if record.Some? && Some(record.value.profile) == resolved then Fork(resolved, record.value.answers)
      else Fork(resolved, [])
  }

  // answers is None when they are to be worked out from the config: read is what the tree
  // makes of it, None when it cannot.
  datatype Taking = Taking(answers: Option<seq<string>>, read: Option<seq<string>>, moment: string, writes: bool)

  function TakenAnswers(w: World, fw: string, t: Taking): Option<seq<string>> {
    if t.answers.Some? then t.answers else if fw in w.configs then t.read else None
  }

  // The world after a capture, or None when it raises.
  function Capture(w: World, fw: string, parent: Option<string>, t: Taking): Option<World> {
    var answers := TakenAnswers(w, fw, t);
    var fork := ForkedFrom(w, fw, parent);
    if answers.None? || !t.writes then None
    else Some(w.(customs := w.customs[fw := CaptureFile(w.kind, fw, fork.parent, t.moment, fork.base, answers.value)]))
  }

  // ----- seeding -----

  // What loading a seed and writing a config comes to: nothing, or the text and its minimal
  // answers; and whether the record could be written after it.
  datatype Emit = Fails | Emits(config: string, answers: seq<string>, recorded: bool)

  function Saved(w: World, fw: string, profile: string, source: Option<string>, out: Emit): World
    requires out.Emits?
  {
    var v := w.(configs := w.configs[fw := out.config]);
    if out.recorded
    then v.(records := v.records[fw := Record(profile, source, Some(out.config), out.answers)])
    else v
  }

  // Answers about to be overwritten are kept first, when they are not the record's.
  function Keep(w: World, fw: string, wanted: string, t: Taking): Option<World> {
    if wanted == CUSTOM || Status(w, fw) != Customised then Some(w)
    else Capture(w, fw, Some(w.records[fw].profile), t.(answers := None))
  }

  datatype Result = Result(world: World, raised: bool)

  function Seed(w: World, fw: string, name: string, force: bool, t: Taking, out: Emit): Result {
    var found := Find(w, fw, name);
    if found.None? || Refused(w, fw, force) then Result(w, true)
    else
      var kept := Keep(w, fw, Strip(name), t);
      if kept.None? then Result(w, true)
      else if out.Fails? then Result(kept.value, true)
      else Result(Saved(kept.value, fw, Strip(name), found, out), false)
  }

  // agree: the two trees' addresses match, or neither has the notion.
  function Derive(w: World, app: string, boot: string, force: bool, agree: bool, out: Emit): Result {
    if app !in w.configs || Refused(w, boot, force) || out.Fails? || !agree then Result(w, true)
    else Result(Saved(w, boot, DERIVED + app, Some(w.configs[app]), out), false)
  }

  function Reseed(w: World, fw: string, agree: bool, t: Taking, out: Emit): Result {
    if Status(w, fw) != SeedMoved then Result(w, false)
    else
      var profile := w.records[fw].profile;
      if StartsWith(profile, DERIVED) then Derive(w, profile[|DERIVED|..], fw, false, agree, out)
      else Seed(w, fw, profile, false, t, out)
  }

  // The files themselves, changed one at a time.
  class Store {
    const kind: string
    var configs: map<string, string>
    var records: map<string, Record>
    var customs: map<string, string>
    var seeds: map<string, map<string, string>>

    ghost function Contents(): World
      reads this
    {
      World(kind, configs, records, customs, seeds)
    }

    constructor (w: World)
      ensures Contents() == w
    {
      kind, configs, records, customs, seeds := w.kind, w.configs, w.records, w.customs, w.seeds;
    }

    method CaptureCustom(fw: string, parent: Option<string>, t: Taking) returns (raised: bool)
      modifies `customs
      ensures var taken := Capture(old(Contents()), fw, parent, t);
              raised == taken.None? && Contents() == if taken.Some? then taken.value else old(Contents())
    {
      var w := World(kind, configs, records, customs, seeds);
      var answers := t.answers;
      if answers.None? {
        if fw !in configs || t.read.None? {
          return true;
        }
        answers := t.read;
      }
      var fork := ForkedFrom(w, fw, parent);
      if !t.writes {
        return true;
      }
      customs := customs[fw := CaptureFile(kind, fw, fork.parent, t.moment, fork.base, answers.value)];
      raised := false;
    }

    method ApplySeed(fw: string, name: string, force: bool, t: Taking, out: Emit) returns (raised: bool)
      modifies this
      ensures Result(Contents(), raised) == Seed(old(Contents()), fw, name, force, t, out)
    {
      hide Strip, ForkedFrom, CaptureFile, StartsWith;
      var w := World(kind, configs, records, customs, seeds);
      var seed := Find(w, fw, name);
      if seed.None? || Refused(w, fw, force) {
        return true;
      }
      if Strip(name) != CUSTOM && Status(w, fw) == Customised {
        var failed := CaptureCustom(fw, Some(records[fw].profile), t.(answers := None));
        if failed {
          return true;
        }
      }
      if out.Fails? {
        return true;
      }
      SaveConfig(fw, Strip(name), seed, out);
      raised := false;
    }

    // The config, then its record; a record that cannot be written is left as it was.
    method SaveConfig(fw: string, profile: string, source: Option<string>, out: Emit)
      requires out.Emits?
      modifies `configs, `records
      ensures Contents() == Saved(old(Contents()), fw, profile, source, out)
    {
      configs := configs[fw := out.config];
      if out.recorded {
        records := records[fw := Record(profile, source, Some(out.config), out.answers)];
      }
    }

    method DeriveBootloader(app: string, boot: string, force: bool, agree: bool, out: Emit) returns (raised: bool)
      modifies this
      ensures Result(Contents(), raised) == Derive(old(Contents()), app, boot, force, agree, out)
    {
      hide Strip, StartsWith;
      if app !in configs || Refused(World(kind, configs, records, customs, seeds), boot, force) || out.Fails? ||
         !agree {
        return true;
      }
      SaveConfig(boot, DERIVED + app, Some(configs[app]), out);
      raised := false;
    }

    method ReseedIfMoved(fw: string, agree: bool, t: Taking, out: Emit) returns (raised: bool)
      modifies this
      ensures Result(Contents(), raised) == Reseed(old(Contents()), fw, agree, t, out)
    {
      hide Strip, Seed, Derive;
      if Status(World(kind, configs, records, customs, seeds), fw) != SeedMoved {
        return false;
      }
      var profile := records[fw].profile;
      if StartsWith(profile, DERIVED) {
        raised := DeriveBootloader(profile[|DERIVED|..], fw, false, agree, out);
      } else {
        raised := ApplySeed(fw, profile, false, t, out);
      }
    }
  }

  // ----- everything that happens to the files -----

  datatype Action =
    | UserEdit(fw: string, config: Option<string>)
    | Vendor(fw: string, files: map<string, string>)
    | Forget(fw: string)
    | Take(fw: string, parent: Option<string>, t: Taking)
    | ApplySeed(fw: string, name: string, force: bool, t: Taking, out: Emit)
    | DeriveBoot(app: string, fw: string, force: bool, agree: bool, out: Emit)
    | ReseedIfMoved(fw: string, agree: bool, t: Taking, out: Emit)

  function Do(w: World, a: Action): World {
    match a
    case UserEdit(fw, config) =>
      w.(configs := if config.Some? then w.configs[fw := config.value] else w.configs - {fw})
    case Vendor(fw, files) => w.(seeds := w.seeds[fw := files])
    case Forget(fw) => w.(records := w.records - {fw})
    case Take(fw, parent, t) => var taken := Capture(w, fw, parent, t); if taken.Some? then taken.value else w
    case ApplySeed(fw, name, force, t, out) => Seed(w, fw, name, force, t, out).world
    case DeriveBoot(app, fw, force, agree, out) => Derive(w, app, fw, force, agree, out).world
    case ReseedIfMoved(fw, agree, t, out) => Reseed(w, fw, agree, t, out).world
  }

  function After(w: World, run: seq<Action>): World {
    if run == [] then w else Do(After(w, run[..|run| - 1]), run[|run| - 1])
  }

  // A config that is the user's: there is no record, or it is not what was recorded.
  predicate Theirs(w: World, fw: string) {
    fw in w.configs && (fw !in w.records || w.records[fw].config != Some(w.configs[fw]))
  }

  // The user's own edit, or a replacement they forced.
  predicate Asked(a: Action, fw: string) {
    match a
    case UserEdit(f, _) => f == fw
    case ApplySeed(f, _, force, _, _) => f == fw && force
    case DeriveBoot(_, f, force, _, _) => f == fw && force
    case _ => false
  }

  // No step the user did not ask for replaces a config that is theirs, or makes it pass
  // for the tool's.
  lemma StepSpares(w: World, a: Action, fw: string)
    requires Theirs(w, fw) && !Asked(a, fw)
    ensures Theirs(Do(w, a), fw) && Do(w, a).configs[fw] == w.configs[fw]
  {
    hide Strip, ForkedFrom, CaptureFile, Find, SourceNow, StartsWith, Seed, Derive, Capture;
    match a {
      case Take(f, parent, t) => CaptureSpares(w, f, parent, t);
      case ApplySeed(f, name, force, t, out) => SeedSpares(w, f, name, force, t, out, fw);
      case DeriveBoot(app, f, force, agree, out) => DeriveSpares(w, app, f, force, agree, out, fw);
      case ReseedIfMoved(f, agree, t, out) =>
        if f in w.records {
          SeedSpares(w, f, w.records[f].profile, false, t, out, fw);
          if StartsWith(w.records[f].profile, DERIVED) {
            StartsLong(w.records[f].profile);
            DeriveSpares(w, w.records[f].profile[|DERIVED|..], f, false, agree, out, fw);
          }
        }
      case _ =>
    }
  }

  lemma StartsLong(profile: string)
    requires StartsWith(profile, DERIVED)
    ensures |profile| >= |DERIVED|
  {
  }

  lemma CaptureSpares(w: World, f: string, parent: Option<string>, t: Taking)
    ensures var v := Capture(w, f, parent, t);
            v.Some? ==> v.value.configs == w.configs && v.value.records == w.records
  {
    hide ForkedFrom, CaptureFile;
  }

  lemma SavedSpares(w: World, f: string, profile: string, source: Option<string>, out: Emit, fw: string)
    requires out.Emits? && f != fw && Theirs(w, fw)
    ensures var v := Saved(w, f, profile, source, out); Theirs(v, fw) && v.configs[fw] == w.configs[fw]
  {
  }

  // A config that is theirs is refused to a step that is not forced.
  lemma TheirsRefused(w: World, fw: string)
    requires Theirs(w, fw)
    ensures Refused(w, fw, false)
  {
    hide SourceNow;
  }

  lemma SeedSpares(w: World, f: string, name: string, force: bool, t: Taking, out: Emit, fw: string)
    requires Theirs(w, fw) && (f != fw || !force)
    ensures var v := Seed(w, f, name, force, t, out).world; Theirs(v, fw) && v.configs[fw] == w.configs[fw]
  {
    hide Strip, Find, Saved, Refused, Capture, Status;
    TheirsRefused(w, fw);
    var kept := Keep(w, f, Strip(name), t);
    KeepSpares(w, f, Strip(name), t);
    if kept.Some? && out.Emits? && f != fw {
      SavedSpares(kept.value, f, Strip(name), Find(w, f, name), out, fw);
    }
  }

  lemma KeepSpares(w: World, f: string, wanted: string, t: Taking)
    ensures var v := Keep(w, f, wanted, t);
            v.Some? ==> v.value.configs == w.configs && v.value.records == w.records
  {
    hide Capture, SourceNow;
    if wanted != CUSTOM && Status(w, f) == Customised {
      CaptureSpares(w, f, Some(w.records[f].profile), t.(answers := None));
    }
  }

  lemma DeriveSpares(w: World, app: string, boot: string, force: bool, agree: bool, out: Emit, fw: string)
    requires Theirs(w, fw) && (boot != fw || !force)
    ensures var v := Derive(w, app, boot, force, agree, out).world; Theirs(v, fw) && v.configs[fw] == w.configs[fw]
  {
    hide Saved, Refused;
    TheirsRefused(w, fw);
    if app in w.configs && out.Emits? && boot != fw {
      SavedSpares(w, boot, DERIVED + app, Some(w.configs[app]), out, fw);
    }
  }

  // Over any run of unforced seeding, deriving and reseeding, captures, vendor changes,
  // forgetting, and edits and forced seeds of other firmwares: what the user wrote stays.
  lemma {:induction false} AnswersSurvive(w: World, run: seq<Action>, fw: string)
    requires Theirs(w, fw) && forall i | 0 <= i < |run| :: !Asked(run[i], fw)
    ensures Theirs(After(w, run), fw) && After(w, run).configs[fw] == w.configs[fw]
  {
    hide Theirs, Asked, Do;
    if run != [] {
      AnswersSurvive(w, run[..|run| - 1], fw);
      StepSpares(After(w, run[..|run| - 1]), run[|run| - 1], fw);
    }
  }

  // ----- what a capture says of itself -----

  predicate CleanAnswers(answers: seq<string>) { AllAnswers(answers) && AllPlain(answers) }

  predicate CleanTaking(t: Taking) {
    && OneLine(t.moment) && (t.answers.Some? ==> CleanAnswers(t.answers.value))
    && (t.read.Some? ==> CleanAnswers(t.read.value))
  }

  predicate CleanFork(f: Fork) {
    f.parent != Some(CUSTOM) && (f.parent.Some? ==> Plain(f.parent.value)) && AllPlain(f.base)
  }

  ghost predicate CleanNames(files: map<string, string>) { forall name | name in files :: Plain(name) }

  // The names and answers the tool itself writes are plain, and no one edits a capture.
  ghost predicate Clean(w: World) {
    && OneLine(w.kind) && !StartsWith(w.kind, "base:")
    && (forall fw | fw in w.records :: Plain(w.records[fw].profile) && AllPlain(w.records[fw].answers))
    && (forall fw | fw in w.customs :: CleanFork(ReadCustom(w.customs[fw])))
    && (forall fw | fw in w.seeds :: CleanNames(w.seeds[fw]))
  }

  predicate CleanEmit(out: Emit) { out.Emits? ==> AllPlain(out.answers) }

  ghost predicate CleanAction(a: Action) {
    match a
    case UserEdit(_, _) => true
    case Vendor(_, files) => CleanNames(files)
    case Forget(_) => true
    case Take(fw, parent, t) => OneLine(fw) && CleanTaking(t) &&
      (parent.Some? && parent.value != "" ==> Plain(parent.value))
    case ApplySeed(fw, _, _, t, out) => OneLine(fw) && CleanTaking(t) && CleanEmit(out)
    case DeriveBoot(app, _, _, _, out) => Plain(app) && CleanEmit(out)
    case ReseedIfMoved(fw, _, t, out) => OneLine(fw) && CleanTaking(t) && CleanEmit(out)
  }

  // A fork point is never the type's own profile.
  lemma ForkIsClean(w: World, fw: string, parent: Option<string>)
    requires Clean(w) && (parent.Some? && parent.value != "" ==> Plain(parent.value))
    ensures CleanFork(ForkedFrom(w, fw, parent))
  {
    hide ReadCustom, Plain;
    if fw in w.customs { assert CleanFork(ReadCustom(w.customs[fw])); }
  }

  // The file a capture wrote reads back as the fork it was given and the answers it took.
  lemma CaptureReads(w: World, fw: string, parent: Option<string>, t: Taking)
    requires Clean(w) && OneLine(fw) && CleanTaking(t) && (parent.Some? && parent.value != "" ==> Plain(parent.value))
    requires Capture(w, fw, parent, t).Some?
    ensures var text := Capture(w, fw, parent, t).value.customs[fw];
            && ReadCustom(text) == ForkedFrom(w, fw, parent)
            && Some(AnswerLines(SplitLines(text))) == TakenAnswers(w, fw, t)
  {
    hide ForkedFrom, CaptureFile, HeaderOf, AnswerLines, Overrides, SplitLines;
    ForkIsClean(w, fw, parent);
    var fork := ForkedFrom(w, fw, parent);
    FileReads(w.kind, fw, fork.parent, t.moment, fork.base, TakenAnswers(w, fw, t).value);
  }

  lemma CaptureClean(w: World, fw: string, parent: Option<string>, t: Taking)
    requires Clean(w) && OneLine(fw) && CleanTaking(t) && (parent.Some? && parent.value != "" ==> Plain(parent.value))
    ensures Capture(w, fw, parent, t).Some? ==> Clean(Capture(w, fw, parent, t).value)
  {
    hide ReadCustom, Plain, CaptureFile, ForkedFrom;
    if Capture(w, fw, parent, t).Some? {
      CaptureReads(w, fw, parent, t);
      ForkIsClean(w, fw, parent);
    }
  }

  lemma SavedClean(w: World, fw: string, profile: string, source: Option<string>, out: Emit)
    requires Clean(w) && out.Emits? && CleanEmit(out) && Plain(profile)
    ensures Clean(Saved(w, fw, profile, source, out))
  {
    hide ReadCustom, Plain, StartsWith;
  }

  lemma SeedClean(w: World, fw: string, name: string, force: bool, t: Taking, out: Emit)
    requires Clean(w) && OneLine(fw) && CleanTaking(t) && CleanEmit(out)
    ensures Clean(Seed(w, fw, name, force, t, out).world)
  {
    hide Clean, Plain, Strip, Capture, StartsWith, Status, CleanTaking;
    KeepClean(w, fw, Strip(name), t);
    FoundPlain(w, fw, name);
    var kept := Keep(w, fw, Strip(name), t);
    if Find(w, fw, name).Some? && kept.Some? && out.Emits? {
      SavedClean(kept.value, fw, Strip(name), Find(w, fw, name), out);
    }
  }

  lemma FoundPlain(w: World, fw: string, name: string)
    requires Clean(w)
    ensures Find(w, fw, name).Some? ==> Plain(Strip(name))
  {
    hide Strip, ReadCustom;
    if fw in w.seeds { assert CleanNames(w.seeds[fw]); }
  }

  lemma KeepClean(w: World, fw: string, wanted: string, t: Taking)
    requires Clean(w) && OneLine(fw) && CleanTaking(t)
    ensures Keep(w, fw, wanted, t).Some? ==> Clean(Keep(w, fw, wanted, t).value)
  {
    hide Capture, ReadCustom, StartsWith;
    if fw in w.records { CaptureClean(w, fw, Some(w.records[fw].profile), t.(answers := None)); }
  }

  lemma DeriveClean(w: World, app: string, boot: string, force: bool, agree: bool, out: Emit)
    requires Clean(w) && Plain(DERIVED + app) && CleanEmit(out)
    ensures Clean(Derive(w, app, boot, force, agree, out).world)
  {
    hide Clean, Plain, Status;
    if out.Emits? && app in w.configs { SavedClean(w, boot, DERIVED + app, Some(w.configs[app]), out); }
  }

  lemma StepClean(w: World, a: Action)
    requires Clean(w) && CleanAction(a)
    ensures Clean(Do(w, a))
  {
    hide Seed, Derive, Capture, ReadCustom, Status, StartsWith, CleanTaking;
    match a {
      case Take(fw, parent, t) => CaptureClean(w, fw, parent, t);
      case ApplySeed(fw, name, force, t, out) => SeedClean(w, fw, name, force, t, out);
      case DeriveBoot(app, fw, force, agree, out) =>
        assert DERIVED + app != "" && (DERIVED + app)[0] == 'd' &&
               (DERIVED + app)[|DERIVED + app| - 1] == app[|app| - 1];
        DeriveClean(w, app, fw, force, agree, out);
      case ReseedIfMoved(fw, agree, t, out) =>
        if Status(w, fw) == SeedMoved {
          HasRecord(w, fw);
          var profile := w.records[fw].profile;
          if StartsWith(profile, DERIVED) {
            PrefixBack(profile, DERIVED);
            DeriveClean(w, profile[|DERIVED|..], fw, false, agree, out);
          } else {
            SeedClean(w, fw, profile, false, t, out);
          }
        }
      case _ =>
    }
  }

  lemma HasRecord(w: World, fw: string)
    ensures Status(w, fw) != Unmanaged ==> fw in w.records
  {
  }

  lemma PrefixBack(s: string, p: string)
    requires StartsWith(s, p)
    ensures |s| >= |p| && p + s[|p|..] == s
  {
  }

  // In every run, whatever is seeded, edited, shipped or captured in between: no capture
  // says it came from the type's own profile.
  lemma {:induction false} ParentNeverCustom(w: World, run: seq<Action>)
    requires Clean(w) && forall i | 0 <= i < |run| :: CleanAction(run[i])
    ensures Clean(After(w, run))
    ensures forall fw | fw in After(w, run).customs :: ReadCustom(After(w, run).customs[fw]).parent != Some(CUSTOM)
  {
    hide ReadCustom, CleanAction, Do, StartsWith;
    if run != [] {
      ParentNeverCustom(w, run[..|run| - 1]);
      StepClean(After(w, run[..|run| - 1]), run[|run| - 1]);
    }
    assert forall fw | fw in After(w, run).customs :: CleanFork(ReadCustom(After(w, run).customs[fw]));
  }

  // Capturing again, with no parent named, one named as the type's own, or the same one,
  // keeps the original parent and baseline; only the answers are new.
  lemma RecaptureKeeps(w: World, fw: string, parent: Option<string>, t: Taking)
    requires Clean(w) && OneLine(fw) && CleanTaking(t) && (parent.Some? && parent.value != "" ==> Plain(parent.value))
    requires fw in w.customs && Capture(w, fw, parent, t).Some?
    requires var was := ReadCustom(w.customs[fw]);
             parent in {None, Some(""), Some(CUSTOM)} || (parent == was.parent && was.base != [])
    ensures ReadCustom(Capture(w, fw, parent, t).value.customs[fw]) == ReadCustom(w.customs[fw])
    ensures Some(AnswerLines(SplitLines(Capture(w, fw, parent, t).value.customs[fw]))) == TakenAnswers(w, fw, t)
  {
    hide ReadCustom, CaptureFile, AnswerLines, SplitLines, StartsWith, Plain, CleanTaking;
    CaptureReads(w, fw, parent, t);
  }

  // A first capture takes both from the record.
  lemma FirstCapture(w: World, fw: string, t: Taking)
    requires Clean(w) && OneLine(fw) && CleanTaking(t) && fw !in w.customs && fw in w.records
    requires w.records[fw].profile != CUSTOM && Capture(w, fw, None, t).Some?
    ensures ReadCustom(Capture(w, fw, None, t).value.customs[fw]) ==
            Fork(Some(w.records[fw].profile), w.records[fw].answers)
  {
    hide ReadCustom, CaptureFile, AnswerLines, SplitLines, StartsWith, Plain, CleanTaking;
    CaptureReads(w, fw, None, t);
  }

  // ----- what a forced seed keeps -----

  // A forced vendor seed that goes through keeps the answers it replaces, as the type's own
  // profile, exactly when the config had a record; one with no record is replaced with
  // nothing kept there.
  lemma ForcedKeptIff(w: World, fw: string, name: string, t: Taking, out: Emit)
    requires Clean(w) && OneLine(fw) && CleanTaking(t) && Theirs(w, fw) && Strip(name) != CUSTOM
    requires !Seed(w, fw, name, true, t, out).raised
    ensures var v := Seed(w, fw, name, true, t, out).world;
            if fw in w.records
            then fw in v.customs && Some(AnswerLines(SplitLines(v.customs[fw]))) == t.read
                 && ReadCustom(v.customs[fw]) == ForkedFrom(w, fw, Some(w.records[fw].profile))
            else v.customs == w.customs
  {
    hide ReadCustom, CaptureFile, AnswerLines, SplitLines, StartsWith, Plain, Strip, ForkedFrom, CleanTaking;
    if fw in w.records {
      assert Plain(w.records[fw].profile);
      var u := t.(answers := None);
      assert CleanTaking(u) by { CleanWithout(t); }
      CaptureReads(w, fw, Some(w.records[fw].profile), u);
    }
  }

  lemma CleanWithout(t: Taking)
    requires CleanTaking(t)
    ensures CleanTaking(t.(answers := None))
  {
  }

  // With no config to lose, a seed goes through, forced or not, exactly when the profile is
  // there, its text can be written - and, for a vendor's profile, no record of a config is left:
  // with one, the missing config reads as edited, and there is nothing to keep. One that raises
  // changes nothing.
  lemma DeletedConfigSticks(w: World, fw: string, name: string, force: bool, t: Taking, out: Emit)
    requires fw !in w.configs
    ensures Seed(w, fw, name, force, t, out).raised <==>
            || Find(w, fw, name).None? || out.Fails?
            || (Strip(name) != CUSTOM && fw in w.records && w.records[fw].config.Some?)
    ensures Seed(w, fw, name, force, t, out).raised ==> Seed(w, fw, name, force, t, out).world == w
    ensures !Seed(w, fw, name, force, t, out).raised ==>
              Lookup(Seed(w, fw, name, force, t, out).world.configs, fw) == Some(out.config)
  {
    hide Strip, StartsWith, ForkedFrom;
  }

  // ----- status -----

  // A seed that goes through and is recorded matches, until the vendor ships another text
  // under that name: then, and only then, the seed has moved.
  lemma SeedThenVendor(w: World, fw: string, name: string, force: bool, t: Taking, out: Emit,
                       files: map<string, string>)
    requires !Seed(w, fw, name, force, t, out).raised && out.recorded
    requires Strip(name) != CUSTOM && !StartsWith(Strip(name), DERIVED)
    ensures var v := Seed(w, fw, name, force, t, out).world;
            && Status(v, fw) == Matches
            && (Status(Do(v, Vendor(fw, files)), fw) == SeedMoved <==>
                Strip(name) in files && Some(files[Strip(name)]) != Find(w, fw, name))
  {
    hide Strip, StartsWith, CaptureFile, ForkedFrom;
    StripIsTrimmed(name);
    StripIsTrimmed(Strip(name));
  }

  // Taking a vendor's update goes through without force, and settles it.
  lemma ReseedSettles(w: World, fw: string, agree: bool, t: Taking, out: Emit)
    requires Status(w, fw) == SeedMoved && !StartsWith(w.records[fw].profile, DERIVED)
    requires Strip(w.records[fw].profile) == w.records[fw].profile && out.Emits? && out.recorded
    ensures var r := Reseed(w, fw, agree, t, out);
            !r.raised && Status(r.world, fw) == Matches && Lookup(r.world.configs, fw) == Some(out.config)
            && r.world.customs == w.customs
  {
    hide Strip, StartsWith, CaptureFile, ForkedFrom;
  }

  // A moved derived config is derived again without force: that raises exactly when the
  // application's config is missing, the addresses disagree or the text cannot be written, and
  // then changes nothing. Otherwise it is settled - but for a config derived from itself, whose
  // source moves with it.
  lemma RederiveSettles(w: World, fw: string, agree: bool, t: Taking, out: Emit)
    requires Status(w, fw) == SeedMoved && StartsWith(w.records[fw].profile, DERIVED)
    ensures var r, app := Reseed(w, fw, agree, t, out), w.records[fw].profile[|DERIVED|..];
            && (r.raised <==> app !in w.configs || !agree || out.Fails?)
            && (r.raised ==> r.world == w)
            && (!r.raised ==> r.world.customs == w.customs && Lookup(r.world.configs, fw) == Some(out.config))
            && (!r.raised && out.recorded ==>
                  Status(r.world, fw) == if app == fw && w.configs[app] != out.config then SeedMoved else Matches)
  {
    hide Strip, CaptureFile, ForkedFrom, Seed, Capture;
    var profile := w.records[fw].profile;
    var app := profile[|DERIVED|..];
    assert DERIVED + app == profile;
  }

  // While it says moved, the application's config is there.
  lemma MovedHasSource(w: World, fw: string)
    requires Status(w, fw) == SeedMoved && StartsWith(w.records[fw].profile, DERIVED)
    ensures w.records[fw].profile[|DERIVED|..] in w.configs
  {
    hide Strip;
  }

  // ----- what a capture needs -----

  // A capture goes through exactly when its file can be written and there are answers to
  // write: given ones, or what the tree makes of a config that is there.
  lemma CaptureIff(w: World, fw: string, parent: Option<string>, t: Taking)
    ensures Capture(w, fw, parent, t).Some? <==>
            t.writes && (t.answers.Some? || (fw in w.configs && t.read.Some?))
    ensures Capture(w, fw, parent, t).Some? ==> Capture(w, fw, parent, t).value.customs.Keys == w.customs.Keys + {fw}
  {
    hide ForkedFrom, CaptureFile;
  }

  // ----- what an unforced step refuses -----

  // Seeding over a config, unforced, raises exactly when there is no such profile, it cannot
  // be loaded, or the config is the user's; one that raises changes nothing.
  lemma UnforcedSeedIff(w: World, fw: string, name: string, t: Taking, out: Emit)
    requires fw in w.configs
    ensures var r := Seed(w, fw, name, false, t, out);
            && (r.raised <==> Find(w, fw, name).None? || out.Fails? || Theirs(w, fw))
            && (r.raised ==> r.world == w)
            && (!r.raised ==> r.world.configs[fw] == out.config && r.world.customs == w.customs)
  {
    hide Find, SourceNow, Strip;
  }

  // Deriving, unforced, raises exactly when the application has no config, the config there is
  // the user's, the tree fails, or the addresses differ.
  lemma UnforcedDeriveIff(w: World, app: string, boot: string, agree: bool, out: Emit)
    ensures var r := Derive(w, app, boot, false, agree, out);
            && (r.raised <==> app !in w.configs || Theirs(w, boot) || out.Fails? || !agree)
            && (r.raised ==> r.world == w)
            && (!r.raised ==> r.world.configs == w.configs[boot := out.config])
  {
    hide SourceNow;
  }
}
