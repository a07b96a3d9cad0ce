// Saving the settings and loading them again.

module SettingsTrip {
  import opened Text
  import opened CfgSyntax
  import opened CfgEdits
  import opened CfgRender
  import opened CfgOrder
  import opened CfgDocument
  import opened CfgLaws
  import opened CfgOps
  import opened CfgGiven
  import opened CfgReads
  import opened Words
  import opened Settings

  // ----- what a load makes of the keys it meets -----

  // The spellings of one field among some keys, in their order.
  function Spelled(keys: seq<string>, name: string): (r: seq<string>)
    ensures forall k :: k in r <==> k in keys && Undash(k) == name
  {
    if keys == [] then []
    else
      var before, last := Spelled(keys[..|keys| - 1], name), keys[|keys| - 1];
      assert keys == keys[..|keys| - 1] + [last];
      if Undash(last) == name then before + [last] else before
  }

  function RawAt(lines: seq<string>, key: string): string { TextAt(lines, SECTION, key) }

  predicate Parses(lines: seq<string>, key: string) {
    Undash(key) == LEGACY || !ReadOption(Undash(key), RawAt(lines, key)).Bad?
  }

  // All the keys parse, or the load raises; and then a field is what its last spelling reads
  // as, if it has one.
  ghost predicate Gathered(lines: seq<string>, keys: seq<string>, name: string) {
    var given, spelled := Gather(lines, keys), Spelled(keys, name);
    && (given.Some? <==> forall k | k in keys :: Parses(lines, k))
    && (given.Some? && name != LEGACY && KindOf(name) != NoField ==>
          && (name in given.value <==> spelled != [])
          && (spelled != [] ==> ReadOption(name, RawAt(lines, spelled[|spelled| - 1])) == Read(given.value[name])))
  }

  lemma {:induction false} GatherTells(lines: seq<string>, keys: seq<string>, name: string)
    requires forall k | k in keys :: Lookup(lines, SECTION, k).Some?
    ensures Gathered(lines, keys, name)
  {
    hide Gathered, Undash, Parses, ReadOption, KindOf, Lookup, Assign;
    if keys == [] {
      NoneGathered(lines, name);
    } else {
      var n := |keys| - 1;
      assert keys == keys[..n] + [keys[n]];
      GatherTells(lines, keys[..n], name);
      GatheredNext(lines, keys[..n], keys[n], name);
    }
  }

  lemma NoneGathered(lines: seq<string>, name: string)
    ensures Gathered(lines, [], name)
  {
  }

  lemma GatheredNext(lines: seq<string>, keys: seq<string>, key: string, name: string)
    requires Gathered(lines, keys, name) && Lookup(lines, SECTION, key).Some?
    ensures Gathered(lines, keys + [key], name)
  {
    hide Undash, Lookup, ReadOption, KindOf, Assign;
    var all, raw := keys + [key], RawAt(lines, key);
    assert all[..|all| - 1] == keys && all[|all| - 1] == key;
    assert forall k :: k in all <==> k in keys || k == key;
    assert Spelled(all, name) == Spelled(keys, name) + if Undash(key) == name then [key] else [];
    if Gather(lines, keys).Some? {
      var given := Gather(lines, keys).value;
      assert Gather(lines, all) == Assign(given, Undash(key), Some(raw));
      AssignTells(given, Undash(key), raw, name);
      if Undash(key) != name { assert Spelled(all, name) == Spelled(keys, name); }
    }
  }

  lemma AssignTells(given: map<string, Field>, key: string, raw: string, name: string)
    ensures var r := Assign(given, key, Some(raw));
            && (r.Some? <==> key == LEGACY || !ReadOption(key, raw).Bad?)
            && (r.Some? && key != name ==>
                  (name in r.value <==> name in given) && (name in given ==> r.value[name] == given[name]))
            && (r.Some? && key == name && name != LEGACY && KindOf(name) != NoField ==>
                  name in r.value && ReadOption(name, raw) == Read(r.value[name]))
  {
    hide ParseBool, ParseInt, Trim, Marked, WordsOf, KindOf;
  }

  // ----- the order of the spellings, through a save -----

  lemma SpelledNext(keys: seq<string>, key: string, name: string)
    ensures Spelled(keys + [key], name) == Spelled(keys, name) + if Undash(key) == name then [key] else []
  {
    assert (keys + [key])[..|keys|] == keys;
  }

  lemma {:induction false} SpelledMinus(keys: seq<string>, k: string, name: string)
    ensures Spelled(Minus(keys, k), name) == Minus(Spelled(keys, name), k)
  {
    hide Undash;
    if keys != [] {
      var n := |keys| - 1;
      SpelledMinus(keys[..n], k, name);
      assert keys == keys[..n] + [keys[n]];
      SpelledNext(keys[..n], keys[n], name);
      SpelledNext(Minus(keys[..n], k), keys[n], name);
      MinusNext(Spelled(keys[..n], name), keys[n], k);
    }
  }

  lemma {:induction false} MinusNothing(keys: seq<string>, k: string)
    requires k !in keys
    ensures Minus(keys, k) == keys
  {
    if keys != [] {
      assert keys == keys[..|keys| - 1] + [keys[|keys| - 1]];
      MinusNothing(keys[..|keys| - 1], k);
    }
  }

  predicate Underscored(op: Op) { Undash(op.key) == op.key }

  // How the spellings of a field stand after one edit.
  ghost predicate Respelled(op: Op, was: seq<string>, now: seq<string>) {
    && (op.Put? ==> now == if op.key in was then was else was + [op.key])
    && Minus(now, op.key) == Minus(was, op.key)
  }

  lemma OneRespelled(lines: seq<string>, now: seq<string>, op: Op, name: string)
    requires Minus(KeysOf(now, SECTION), op.key) == Minus(KeysOf(lines, SECTION), op.key) && Underscored(op)
    requires op.Put? ==> PutInOrder(lines, now, SECTION, op.key)
    ensures op.key != name ==> Spelled(KeysOf(now, SECTION), name) == Spelled(KeysOf(lines, SECTION), name)
    ensures op.key == name ==> Respelled(op, Spelled(KeysOf(lines, SECTION), name), Spelled(KeysOf(now, SECTION), name))
  {
    hide KeysOf, Undash;
    SpelledMinus(KeysOf(now, SECTION), op.key, name);
    SpelledMinus(KeysOf(lines, SECTION), op.key, name);
    if op.key != name {
      MinusNothing(Spelled(KeysOf(now, SECTION), name), op.key);
      MinusNothing(Spelled(KeysOf(lines, SECTION), name), op.key);
    } else if op.Put? {
      SpelledNext(KeysOf(lines, SECTION), op.key, name);
    }
  }

  // After several: as its own edit says, if it has one.
  ghost predicate AllDone(ops: seq<Op>, name: string, was: seq<string>, now: seq<string>) {
    && (!Touches(ops, name) ==> now == was)
    && forall i | 0 <= i < |ops| && ops[i].key == name :: Respelled(ops[i], was, now)
  }

  lemma DoneNext(ops: seq<Op>, name: string, was: seq<string>, mid: seq<string>, now: seq<string>)
    requires ops != [] && Distinct(ops)
    requires var n := |ops| - 1;
             && AllDone(ops[..n], name, was, mid)
             && (ops[n].key != name ==> now == mid) && (ops[n].key == name ==> Respelled(ops[n], mid, now))
    ensures AllDone(ops, name, was, now)
  {
    hide Respelled;
    var n := |ops| - 1;
    assert forall i | 0 <= i < n :: ops[..n][i] == ops[i];
    if Touches(ops[..n], name) {
      var i :| 0 <= i < n && ops[..n][i].key == name;
      assert ops[i].key != ops[n].key;
    }
    assert ops[n].key == name ==> Touches(ops, name);
  }

  lemma {:induction false} AllRespelled(lines: seq<string>, ops: seq<Op>, name: string)
    requires Fits(lines, SECTION) && CleanOps(ops) && Distinct(ops) && forall i | 0 <= i < |ops| :: Underscored(ops[i])
    ensures AllDone(ops, name, Spelled(KeysOf(lines, SECTION), name),
            Spelled(KeysOf(ApplyAll(lines, SECTION, ops), SECTION), name))
  {
    hide KeysOf, Apply, CleanOp, Fits, Spelled, Underscored, Respelled, Minus, Given, AllDone, Touches, OthersKept,
         CopiesOf, Lookup;
    if ops == [] {
      NoneDone(name, Spelled(KeysOf(lines, SECTION), name));
    } else {
      var n := |ops| - 1;
      AllRespelled(lines, ops[..n], name);
      ApplyAllReads(lines, SECTION, ops[..n]);
      var mid := ApplyAll(lines, SECTION, ops[..n]);
      ApplyGives(mid, SECTION, ops[n]);
      OneRespelled(mid, Apply(mid, SECTION, ops[n]), ops[n], name);
      DoneNext(ops, name, Spelled(KeysOf(lines, SECTION), name), Spelled(KeysOf(mid, SECTION), name),
               Spelled(KeysOf(ApplyAll(lines, SECTION, ops), SECTION), name));
    }
  }

  lemma NoneDone(name: string, keys: seq<string>)
    ensures AllDone([], name, keys, keys)
  {
  }

  // ----- the fields, by their place in KEYS -----

  const TABLE := [Whole, Truth, Truth, Line, Truth, Truth, Truth, Whole, Line, Line, Line, Kind.Words, Kind.Words,
    Kind.Words]

  const STOP := 13

  function FieldAt(s: Settings, i: nat): Option<Field>
    requires i < |TABLE|
  {
    match i
    case 0 => Some(Number(s.jobs))
    case 1 => Some(Flag(s.clean))
    case 2 => Some(Flag(s.reseed))
    case 3 => Some(Str(s.backend))
    case 4 => Some(Flag(s.dryRun))
    case 5 => Some(Flag(s.flashing))
    case 6 => Some(Flag(s.whilePrinting))
    case 7 => Some(Number(s.ring))
    case 8 => Some(Str(s.pio))
    case 9 => Some(Str(s.flashtool))
    case 10 => Some(Str(s.accent))
    case 11 => Some(Names(s.serials))
    case 12 => Some(Names(s.uuids))
    case _ => if s.stop.Some? then Some(Names(s.stop.value)) else None
  }

  lemma KindTable()
    ensures forall i | 0 <= i < |TABLE| :: KindOf(KEYS[i]) == TABLE[i]
    ensures KindOf(LEGACY) == NoField
  {
    hide Unlike, KindOf;
    KeysDiffer();
    FieldLists();
    forall i | 0 <= i < |TABLE| ensures KindOf(KEYS[i]) == TABLE[i] { KindAt(KEYS, i); }
    KindAt(KEYS, 14);
  }

  // Which of the keys are listed as what.
  ghost predicate Lists(k: seq<string>) {
    && |k| == 15 && Unlike(k)
    && BOOLS == [k[1], k[2], k[4], k[5], k[6]] && INTS == [k[0], k[7]]
    && TEXTS == [k[3], k[8], k[9], k[10]] && LISTS == [k[13], k[11], k[12]]
  }

  lemma FieldLists()
    ensures Unlike(KEYS) ==> Lists(KEYS)
    ensures KEYS[14] == LEGACY
  {
    hide Unlike;
  }

  lemma KindAt(k: seq<string>, i: nat)
    requires Lists(k) && i < |k|
    ensures KindOf(k[i]) == if i < |TABLE| then TABLE[i] else NoField
  {
    var name := k[i];
    assert name in BOOLS <==> i in {1, 2, 4, 5, 6};
    assert name in INTS <==> i in {0, 7};
    assert name in TEXTS <==> i in {3, 8, 9, 10};
    assert name in LISTS <==> i in {11, 12, 13};
  }

  lemma FieldIsKey(name: string) returns (i: nat)
    requires KindOf(name) != NoField
    ensures i < |TABLE| && KEYS[i] == name
  {
    var k := KEYS;
    assert BOOLS == [k[1], k[2], k[4], k[5], k[6]] && INTS == [k[0], k[7]];
    assert TEXTS == [k[3], k[8], k[9], k[10]] && LISTS == [k[13], k[11], k[12]];
    i :| 0 <= i < |TABLE| && k[i] == name;
  }

  lemma KeysUnderscored()
    ensures forall i | 0 <= i < |KEYS| :: Undash(KEYS[i]) == KEYS[i]
  {
    hide Undash, Lettered;
    KeysLettered();
    forall i | 0 <= i < |KEYS| ensures Undash(KEYS[i]) == KEYS[i] { NoDash(KEYS[i]); }
  }

  lemma NoDash(key: string)
    requires Lettered(key)
    ensures Undash(key) == key
  {
  }

  // ----- what a save wrote reads as -----

  // The text written for a field reads as the field holds; only the stop list may be removed.
  ghost predicate ReadsBack(s: Settings, i: nat)
    requires i < |TABLE|
  {
    var op := WriteOps(s)[i];
    && (op.Put? <==> FieldAt(Normal(s), i).Some?)
    && (op.Put? ==> ReadOption(KEYS[i], TextOf(op.value)) == Read(FieldAt(Normal(s), i).value))
    && (op.Drop? ==> i == STOP)
  }

  lemma WrittenReads(s: Settings, i: nat)
    requires CleanSettings(s) && i < |TABLE|
    ensures ReadsBack(s, i)
  {
    hide ReadsBack, CleanSettings;
    if TABLE[i] == Whole { WrittenWhole(s, i); }
    else if TABLE[i] == Truth { WrittenTruth(s, i); }
    else if TABLE[i] == Line { WrittenLine(s, i); }
    else { WrittenWords(s, i); }
  }

  lemma WrittenWhole(s: Settings, i: nat)
    requires i < |TABLE| && TABLE[i] == Whole
    ensures ReadsBack(s, i)
  {
    hide IntText, BoolText, CommaJoin, WithoutHash, ParseInt, TextOf, KindOf;
    KindTable();
    WholeReads(if i == 0 then s.jobs else s.ring);
  }

  lemma WrittenTruth(s: Settings, i: nat)
    requires i < |TABLE| && TABLE[i] == Truth
    ensures ReadsBack(s, i)
  {
    hide IntText, BoolText, CommaJoin, WithoutHash, ParseBool, TextOf, KindOf;
    KindTable();
    TruthReads(FieldAt(s, i).value.flag);
  }

  lemma WrittenLine(s: Settings, i: nat)
    requires CleanSettings(s) && i < |TABLE| && TABLE[i] == Line
    ensures ReadsBack(s, i)
  {
    hide WriteOps, CleanSettings, TextOf, KindOf, WithoutHash, Trim;
    KindTable();
    LineReads(s, i);
  }

  lemma WrittenWords(s: Settings, i: nat)
    requires CleanSettings(s) && i < |TABLE| && TABLE[i] == Kind.Words
    ensures ReadsBack(s, i)
  {
    hide IntText, BoolText, CommaJoin, WithoutHash, Backend, Clean, AllWords, TextOf, KindOf, WordsOf;
    KindTable();
    if FieldAt(s, i).Some? { WordsRead(s, i); }
  }

  lemma WholeReads(n: int)
    ensures ParseInt(TextOf(TextValue(IntText(n)))) == Some(n)
  {
    hide ParseInt;
    IntReads(n);
    PlainIsClean(IntText(n));
    CleanIsText(IntText(n));
  }

  lemma TruthReads(b: bool)
    ensures ParseBool(TextOf(TextValue(BoolText(b)))) == Some(b)
  {
    hide ParseBool;
    BoolReads(b);
    PlainIsClean(BoolText(b));
    CleanIsText(BoolText(b));
  }

  // The four one-line texts; the colour loses its marks and gets one back.
  lemma LineReads(s: Settings, i: nat)
    requires CleanSettings(s) && i < |TABLE| && TABLE[i] == Line
    ensures var text := TextOf(WriteOps(s)[i].value);
            WriteOps(s)[i].Put? && FieldAt(Normal(s), i) ==
              Some(Str(if KEYS[i] == ACCENT then Marked(Trim(text)) else Trim(text)))
  {
    hide IntText, BoolText, CommaJoin, WithoutHash, Trim, Clean, AllWords, TextOf, Backend;
    KeysDiffer();
    BackendClean(s.backend);
    TrimmedText(s.backend);
    TrimmedText(s.pio);
    TrimmedText(s.flashtool);
    TrimmedText(WithoutHash(s.accent));
  }

  lemma TrimmedText(text: string)
    ensures Clean(text) ==> Trim(TextOf(TextValue(text))) == text
  {
    hide Trim, Clean;
    if Clean(text) {
      CleanIsText(text);
      TrimClean(text);
    }
  }

  lemma WordsRead(s: Settings, i: nat)
    requires CleanSettings(s) && 11 <= i < |TABLE| && FieldAt(s, i).Some?
    ensures WordsOf(TextOf(WriteOps(s)[i].value)) == FieldAt(s, i).value.words
  {
    hide IntText, BoolText, CommaJoin, WithoutHash, Clean, AllWords, TextOf, Backend, WordsOf;
    if i == 11 { ItemsRead(s.serials); }
    else if i == 12 { ItemsRead(s.uuids); }
    else {
      JoinedWords(s.stop.value);
      CleanIsText(CommaJoin(s.stop.value));
    }
  }

  lemma ItemsRead(words: seq<string>)
    requires AllWords(words)
    ensures WordsOf(TextOf(Items(words))) == words
  {
    WordsAreItems(words);
    NonBlankClean(words);
    ItemsAreWords(words);
  }

  // ----- the round trip -----

  // The spelling of a field that a load ends with, after a save that puts the field's own key
  // where it stands, or last.
  function LastSpelling(lines: seq<string>, name: string): (key: string) {
    var spelled := Spelled(KeysOf(lines, SECTION), name);
    if name in spelled then spelled[|spelled| - 1] else name
  }

  // No other spelling follows, or it says the same.
  ghost predicate FieldStays(lines: seq<string>, s: Settings, i: nat)
    requires i < |TABLE|
  {
    var last := LastSpelling(lines, KEYS[i]);
    last == KEYS[i] || (FieldAt(Normal(s), i).Some? &&
                        ReadOption(KEYS[i], RawAt(lines, last)) == Read(FieldAt(Normal(s), i).value))
  }

  // Nothing gives a stop list once the lines of the two keys are removed: no dashed spelling,
  // no second line of the key, and no unit in a second line of the retired key.
  ghost predicate NoStopLeft(lines: seq<string>) {
    OnlyOnce(lines, KEYS[STOP]) && Trim(LeftText(lines, SECTION, LEGACY)) == ""
  }

  ghost predicate OnlyOnce(lines: seq<string>, name: string) {
    (forall k | k in Spelled(KeysOf(lines, SECTION), name) :: k == name) && |Given(lines, SECTION, name)| <= 1
  }

  ghost predicate ComesBack(lines: seq<string>, s: Settings) {
    && (forall k | k in KeysOf(lines, SECTION) && Undash(k) != k :: Parses(lines, k))
    && (forall i | 0 <= i < STOP :: FieldStays(lines, s, i))
    && (if s.stop.Some? then FieldStays(lines, s, STOP) else NoStopLeft(lines))
  }

  // What the saved file gives each key, and how the spellings of each field stand in it.
  ghost predicate SavedAs(lines: seq<string>, back: seq<string>, s: Settings) {
    && (forall i | 0 <= i < |KEYS| ::
          Given(back, SECTION, KEYS[i]) == Edited(WriteOps(s)[i], Given(lines, SECTION, KEYS[i])))
    && (forall k | k !in KEYS :: Given(back, SECTION, k) == Given(lines, SECTION, k))
    && (forall i | 0 <= i < |TABLE| ::
          Respelled(WriteOps(s)[i], Spelled(KeysOf(lines, SECTION), KEYS[i]), Spelled(KeysOf(back, SECTION), KEYS[i])))
  }

  lemma TouchesKeys(s: Settings, k: string)
    ensures Touches(WriteOps(s), k) <==> k in KEYS
  {
    hide WriteOps;
    KeysOfSettings(s);
    assert forall i | 0 <= i < |KEYS| :: WriteOps(s)[i].key == KEYS[i];
  }

  lemma SectionClean()
    ensures CleanName(SECTION)
  {
  }

  lemma SavedIs(lines: seq<string>, s: Settings)
    requires OneLiners(lines) && CleanSettings(s)
    ensures SavedAs(lines, SplitLines(RenderText(Written(lines, s))), s)
  {
    hide WriteOps, Given, KeysOf, Spelled, Respelled, RenderText, SplitLines, ApplyAll, Touches, CleanOps, Distinct,
         Edited, ParseLines;
    SectionClean();
    SettingsOpsClean(s);
    KeysOfSettings(s);
    KeysUnderscored();
    var now := Written(lines, s);
    ApplyAllGives(lines, SECTION, WriteOps(s));
    RenderGives(now);
    forall k | k !in KEYS ensures !Touches(WriteOps(s), k) { TouchesKeys(s, k); }
    forall i | 0 <= i < |TABLE|
      ensures Respelled(WriteOps(s)[i], Spelled(KeysOf(lines, SECTION), KEYS[i]),
              Spelled(KeysOf(now, SECTION), KEYS[i]))
    {
      AllRespelled(lines, WriteOps(s), KEYS[i]);
    }
  }

  // The keys of the saved file parse as far as the dashed ones did before.
  lemma SavedParses(lines: seq<string>, back: seq<string>, s: Settings)
    requires CleanSettings(s) && SavedAs(lines, back, s)
    ensures (forall k | k in KeysOf(back, SECTION) :: Parses(back, k)) <==>
            (forall k | k in KeysOf(lines, SECTION) && Undash(k) != k :: Parses(lines, k))
  {
    hide WriteOps, Given, KeysOf, Spelled, Respelled, CleanSettings, Undash, Lookup, SavedAs, Parses;
    forall k ensures k in KeysOf(back, SECTION) && Undash(k) == k ==> Parses(back, k) {
      if k in KeysOf(back, SECTION) && Undash(k) == k { OwnParses(lines, back, s, k); }
    }
    forall k | Undash(k) != k ensures k in KeysOf(back, SECTION) <==> k in KeysOf(lines, SECTION)
                              ensures Parses(back, k) <==> Parses(lines, k) {
      DashedStays(lines, back, s, k);
    }
  }

  lemma DashedStays(lines: seq<string>, back: seq<string>, s: Settings, k: string)
    requires SavedAs(lines, back, s) && Undash(k) != k
    ensures k in KeysOf(back, SECTION) <==> k in KeysOf(lines, SECTION)
    ensures RawAt(back, k) == RawAt(lines, k) && (Parses(back, k) <==> Parses(lines, k))
  {
    hide WriteOps, Given, KeysOf, Spelled, Respelled, Undash, Lookup, ReadOption;
    KeysUnderscored();
    assert k !in KEYS;
    GivenTells(back, SECTION, k);
    GivenTells(lines, SECTION, k);
  }

  // Only a field's text can fail to parse, and no list does.
  lemma FieldsParse(name: string, raw: string)
    ensures KindOf(name) == NoField || KindOf(name) == Kind.Words ==> !ReadOption(name, raw).Bad?
  {
    hide KindOf, ParseInt, ParseBool, WordsOf;
  }

  lemma OwnParses(lines: seq<string>, back: seq<string>, s: Settings, k: string)
    requires CleanSettings(s) && SavedAs(lines, back, s) && Undash(k) == k
    ensures Parses(back, k)
  {
    hide WriteOps, Given, KeysOf, SavedAs, CleanSettings, Undash, ReadOption, KindOf, TextOf, TextAt, Normal;
    KindTable();
    FieldsParse(k, RawAt(back, k));
    if KindOf(k) != NoField {
      var i := FieldIsKey(k);
      WrittenReads(s, i);
      OwnText(lines, back, s, i);
    }
  }

  // A field that was put is given its text under its own key.
  lemma OwnText(lines: seq<string>, back: seq<string>, s: Settings, i: nat)
    requires SavedAs(lines, back, s) && i < |TABLE|
    ensures WriteOps(s)[i].Put? ==>
              RawAt(back, KEYS[i]) == TextOf(WriteOps(s)[i].value) && KEYS[i] in KeysOf(back, SECTION)
    ensures WriteOps(s)[i].Drop? ==>
              (KEYS[i] in KeysOf(back, SECTION) <==> |Given(lines, SECTION, KEYS[i])| > 1)
  {
    hide WriteOps, Given, KeysOf, Spelled, Respelled, TextOf;
    GivenTells(back, SECTION, KEYS[i]);
  }

  // The last spelling of a field that was put.
  lemma SavedField(lines: seq<string>, back: seq<string>, s: Settings, i: nat)
    requires CleanSettings(s) && SavedAs(lines, back, s) && i < |TABLE| && FieldAt(Normal(s), i).Some?
    ensures var spelled := Spelled(KeysOf(back, SECTION), KEYS[i]);
            && spelled != []
            && (ReadOption(KEYS[i], RawAt(back, spelled[|spelled| - 1])) == Read(FieldAt(Normal(s), i).value) <==>
                FieldStays(lines, s, i))
  {
    hide WriteOps, Given, KeysOf, CleanSettings, Undash, ReadOption, TextOf, Lookup, TextAt, SavedAs, Normal, FieldAt,
         LastSpelling;
    KeysUnderscored();
    WrittenReads(s, i);
    OwnText(lines, back, s, i);
    LastSpelled(lines, back, s, i);
    var spelled := Spelled(KeysOf(back, SECTION), KEYS[i]);
    var last := spelled[|spelled| - 1];
    if last != KEYS[i] {
      assert last in spelled;
      OnlyOwnUndashed(last, i);
      DashedStays(lines, back, s, last);
    }
  }

  lemma LastSpelled(lines: seq<string>, back: seq<string>, s: Settings, i: nat)
    requires SavedAs(lines, back, s) && i < |TABLE| && WriteOps(s)[i].Put?
    ensures var spelled := Spelled(KeysOf(back, SECTION), KEYS[i]);
            spelled != [] && spelled[|spelled| - 1] == LastSpelling(lines, KEYS[i])
  {
    hide WriteOps, KeysOf, Spelled, SavedAs;
    KeysOfSettings(s);
    FieldRespelled(lines, back, s, i);
    PutLast(WriteOps(s)[i], Spelled(KeysOf(lines, SECTION), KEYS[i]), Spelled(KeysOf(back, SECTION), KEYS[i]));
  }

  lemma FieldRespelled(lines: seq<string>, back: seq<string>, s: Settings, i: nat)
    requires SavedAs(lines, back, s) && i < |TABLE|
    ensures Respelled(WriteOps(s)[i], Spelled(KeysOf(lines, SECTION), KEYS[i]), Spelled(KeysOf(back, SECTION), KEYS[i]))
  {
    hide WriteOps, KeysOf, Spelled, Respelled, Given;
  }

  lemma PutLast(op: Op, was: seq<string>, now: seq<string>)
    requires op.Put? && Respelled(op, was, now)
    ensures now != [] && now[|now| - 1] == if op.key in was then was[|was| - 1] else op.key
  {
    hide Minus;
  }

  lemma OnlyOwnUndashed(k: string, i: nat)
    requires i < |KEYS| && Undash(k) == KEYS[i] && k != KEYS[i]
    ensures Undash(k) != k
  {
  }

  lemma SavedStop(lines: seq<string>, back: seq<string>, s: Settings)
    requires CleanSettings(s) && SavedAs(lines, back, s) && s.stop.None?
    ensures Spelled(KeysOf(back, SECTION), KEYS[STOP]) == [] && Trim(RawAt(back, LEGACY)) == "" <==> NoStopLeft(lines)
  {
    hide WriteOps, Given, KeysOf, CleanSettings, Undash, Lookup, Trim, SavedAs, Spelled, TextAt, LeftText, OnlyOnce;
    LegacyLeft(lines, back, s);
    StopSpellings(lines, back, s);
  }

  lemma LegacyLeft(lines: seq<string>, back: seq<string>, s: Settings)
    requires SavedAs(lines, back, s)
    ensures RawAt(back, LEGACY) == LeftText(lines, SECTION, LEGACY)
  {
    hide Given, KeysOf, Lookup, IntText, BoolText, CommaJoin, WithoutHash, Respelled, Spelled;
    GivenTells(back, SECTION, LEGACY);
    assert Given(back, SECTION, KEYS[14]) == Edited(WriteOps(s)[14], Given(lines, SECTION, KEYS[14]));
    assert [] + Rest(Given(lines, SECTION, LEGACY)) == Rest(Given(lines, SECTION, LEGACY));
  }

  lemma StopSpellings(lines: seq<string>, back: seq<string>, s: Settings)
    requires SavedAs(lines, back, s) && s.stop.None?
    ensures Spelled(KeysOf(back, SECTION), KEYS[STOP]) == [] <==> OnlyOnce(lines, KEYS[STOP])
  {
    hide Given, KeysOf, Lookup, WriteOps, SavedAs, Spelled;
    OwnText(lines, back, s, STOP);
    StopDropped(lines, back, s);
    KeysUnderscored();
    var was, now := Spelled(KeysOf(lines, SECTION), KEYS[STOP]), Spelled(KeysOf(back, SECTION), KEYS[STOP]);
    MinusIn(now, KEYS[STOP]);
    MinusIn(was, KEYS[STOP]);
    SpelledOwn(KeysOf(back, SECTION), KEYS[STOP]);
    if now == [] {
      assert forall k | k in was :: k == KEYS[STOP];
    } else if forall k | k in was :: k == KEYS[STOP] {
      assert now[0] in now;
      NoneIn(Minus(was, KEYS[STOP]));
    }
  }

  lemma NoneIn(keys: seq<string>)
    ensures (forall k :: k !in keys) <==> keys == []
  {
    if keys != [] { assert keys[0] in keys; }
  }

  lemma SpelledOwn(keys: seq<string>, name: string)
    requires Undash(name) == name
    ensures name in Spelled(keys, name) <==> name in keys
  {
  }

  lemma StopDropped(lines: seq<string>, back: seq<string>, s: Settings)
    requires SavedAs(lines, back, s) && s.stop.None?
    ensures WriteOps(s)[STOP] == Drop(KEYS[STOP])
    ensures Minus(Spelled(KeysOf(back, SECTION), KEYS[STOP]), KEYS[STOP]) ==
            Minus(Spelled(KeysOf(lines, SECTION), KEYS[STOP]), KEYS[STOP])
  {
    hide Given, KeysOf, IntText, BoolText, CommaJoin, WithoutHash, Spelled, Minus;
    assert Respelled(WriteOps(s)[STOP], Spelled(KeysOf(lines, SECTION), KEYS[STOP]),
           Spelled(KeysOf(back, SECTION), KEYS[STOP]));
  }

  lemma {:induction false} MinusIn(keys: seq<string>, k: string)
    ensures forall q :: q in Minus(keys, k) <==> q in keys && q != k
  {
    if keys != [] {
      MinusIn(keys[..|keys| - 1], k);
      assert keys == keys[..|keys| - 1] + [keys[|keys| - 1]];
    }
  }

  // ----- put together -----

  // Every field but the stop list is given, each as what it holds.
  ghost predicate Full(given: map<string, Field>) {
    forall i | 0 <= i < STOP :: KEYS[i] in given && OfKind(TABLE[i], given[KEYS[i]])
  }

  predicate OfKind(kind: Kind, field: Field) {
    match kind
    case Truth => field.Flag?
    case Whole => field.Number?
    case Line => field.Str?
    case Words => field.Names?
    case NoField => false
  }

  lemma AssembledIs(given: map<string, Field>, stop: Option<seq<string>>, s: Settings)
    requires Full(given)
    ensures Assembled(given, stop) == s <==>
            stop == s.stop && forall i | 0 <= i < STOP :: FieldAt(s, i) == Some(given[KEYS[i]])
  {
    var k := KEYS;
    assert k[0] in given && k[1] in given && k[2] in given && k[3] in given && k[4] in given && k[5] in given;
    assert k[6] in given && k[7] in given && k[8] in given && k[9] in given && k[10] in given && k[11] in given;
    assert k[12] in given;
  }

  lemma ReadOfKind(name: string, raw: string)
    ensures ReadOption(name, raw).Read? ==> OfKind(KindOf(name), ReadOption(name, raw).field)
  {
    hide ParseBool, ParseInt, Trim, Marked, WordsOf, KindOf;
  }

  lemma KeysRead(lines: seq<string>)
    ensures forall k | k in KeysOf(lines, SECTION) :: Lookup(lines, SECTION, k).Some?
  {
    hide KeysOf, Lookup;
    forall k | k in KeysOf(lines, SECTION) ensures Lookup(lines, SECTION, k).Some? { GivenTells(lines, SECTION, k); }
  }

  // A field that was put is loaded as it was exactly when it stays.
  lemma FieldLoaded(lines: seq<string>, back: seq<string>, s: Settings, i: nat)
    requires CleanSettings(s) && SavedAs(lines, back, s) && i < |TABLE| && FieldAt(Normal(s), i).Some?
    requires Gather(back, KeysOf(back, SECTION)).Some?
    ensures var given := Gather(back, KeysOf(back, SECTION)).value;
            && KEYS[i] in given && OfKind(TABLE[i], given[KEYS[i]])
            && (FieldAt(Normal(s), i) == Some(given[KEYS[i]]) <==> FieldStays(lines, s, i))
  {
    hide KeysOf, Lookup, ReadOption, KindOf, Gather, Given, SavedAs, WriteOps, CleanSettings, FieldStays, Undash,
         OfKind, Parses, Normal, TextAt;
    KindTable();
    KeysRead(back);
    NotLegacy(i);
    GatherTells(back, KeysOf(back, SECTION), KEYS[i]);
    SavedField(lines, back, s, i);
    var spelled := Spelled(KeysOf(back, SECTION), KEYS[i]);
    ReadOfKind(KEYS[i], RawAt(back, spelled[|spelled| - 1]));
  }

  lemma NotLegacy(i: nat)
    requires i < |TABLE|
    ensures KEYS[i] != LEGACY
  {
    KeysDiffer();
    assert LEGACY == KEYS[14];
  }

  lemma StopLoaded(lines: seq<string>, back: seq<string>, s: Settings)
    requires CleanSettings(s) && SavedAs(lines, back, s) && Gather(back, KeysOf(back, SECTION)).Some?
    ensures StopIn(Gather(back, KeysOf(back, SECTION)).value, back) == s.stop <==>
            if s.stop.Some? then FieldStays(lines, s, STOP) else NoStopLeft(lines)
  {
    hide KeysOf, Lookup, ReadOption, KindOf, Gather, Given, SavedAs, WriteOps, CleanSettings, FieldStays, Undash,
         Parses, TextAt, NoStopLeft, WithoutHash;
    if s.stop.Some? {
      FieldLoaded(lines, back, s, STOP);
    } else {
      KindTable();
      KeysRead(back);
      NotLegacy(STOP);
      GatherTells(back, KeysOf(back, SECTION), KEYS[STOP]);
      SavedStop(lines, back, s);
    }
  }

  // Saving the settings and loading the file gives them back exactly when every dashed
  // spelling in the section parses, none of a field follows the field's own key with
  // something else, and, for no stop list, nothing left gives one.
  lemma RoundTripIff(lines: seq<string>, s: Settings)
    requires OneLiners(lines) && CleanSettings(s) && SECTION !in ParseLines(lines).duplicates
    ensures Load(SplitLines(RenderText(Written(lines, s)))) == Some(Normal(s)) <==> ComesBack(lines, s)
  {
    hide WriteOps, ParseLines, RenderText, SplitLines, ApplyAll, KeysOf, Gather, Assembled, StopIn, CleanSettings,
         FieldStays, NoStopLeft, Parses, Undash, SavedAs, WithoutHash, Written;
    var back := SplitLines(RenderText(Written(lines, s)));
    SavedIs(lines, s);
    StillOne(lines, s);
    LoadedIs(lines, back, s);
  }

  lemma StillOne(lines: seq<string>, s: Settings)
    requires OneLiners(lines) && CleanSettings(s)
    ensures ParseLines(SplitLines(RenderText(Written(lines, s)))).duplicates == ParseLines(lines).duplicates
  {
    hide WriteOps, ParseLines, RenderText, SplitLines, ApplyAll, CleanOps, Distinct, Touches;
    SectionClean();
    SettingsOpsClean(s);
    ApplyAllReads(lines, SECTION, WriteOps(s));
    RenderReads(Written(lines, s));
  }

  lemma LoadedIs(lines: seq<string>, back: seq<string>, s: Settings)
    requires CleanSettings(s) && SavedAs(lines, back, s) && SECTION !in ParseLines(back).duplicates
    ensures Load(back) == Some(Normal(s)) <==> ComesBack(lines, s)
  {
    hide ParseLines, KeysOf, Gather, Assembled, StopIn, FieldStays, NoStopLeft, Parses, Undash, SavedAs, WithoutHash,
         FieldAt, AllWords, Clean;
    var keys := KeysOf(back, SECTION);
    KeysRead(back);
    GatherTells(back, keys, LEGACY);
    SavedParses(lines, back, s);
    if Gather(back, keys).Some? {
      var given := Gather(back, keys).value;
      forall i | 0 <= i < STOP
        ensures KEYS[i] in given && OfKind(TABLE[i], given[KEYS[i]])
        ensures FieldAt(Normal(s), i) == Some(given[KEYS[i]]) <==> FieldStays(lines, s, i)
      {
        OtherFields(s, i);
        FieldLoaded(lines, back, s, i);
      }
      StopLoaded(lines, back, s);
      AssembledIs(given, StopIn(given, back), Normal(s));
    }
  }

  lemma OtherFields(s: Settings, i: nat)
    requires i < STOP
    ensures FieldAt(Normal(s), i).Some?
  {
  }

  // And no value of any other section, or of any other key of this one, differs.
  lemma OthersStay(lines: seq<string>, s: Settings, t: string, k: string)
    requires OneLiners(lines) && CleanSettings(s) && (t != SECTION || k !in KEYS)
    ensures var back := SplitLines(RenderText(Written(lines, s)));
            Given(back, t, k) == Given(lines, t, k) && Lookup(back, t, k) == Lookup(lines, t, k)
  {
    hide WriteOps, Given, RenderText, SplitLines, ApplyAll, Touches, CleanOps, Distinct, Lookup, Edited;
    SectionClean();
    SettingsOpsClean(s);
    TouchesKeys(s, k);
    ApplyAllGives(lines, SECTION, WriteOps(s));
    RenderGives(Written(lines, s));
    GivenTells(lines, t, k);
    GivenTells(SplitLines(RenderText(Written(lines, s))), t, k);
  }
}
