// Renaming a section by its header line alone.

module CfgRename {
  import opened Text
  import opened CfgSyntax
  import opened CfgParse
  import opened CfgEdits
  import opened CfgRender
  import opened CfgDocument
  import opened CfgLaws

  function Headers(kinds: seq<Line>, n: nat, s: string): nat
    requires n <= |kinds|
    decreases n
  {
    if n == 0 then 0 else Headers(kinds, n - 1, s) + if kinds[n - 1] == Header(s) then 1 else 0
  }

  // A section is there when a header names it, and reported as repeated when two do.
  lemma {:induction false} HeadersTell(kinds: seq<Line>, n: nat, s: string)
    requires n <= |kinds|
    ensures s in After(kinds, n).sections <==> Headers(kinds, n, s) >= 1
    ensures s in After(kinds, n).duplicates <==> Headers(kinds, n, s) >= 2
    decreases n
  {
    hide Step;
    if n > 0 {
      HeadersTell(kinds, n - 1, s);
      StepPlaceAndKey(After(kinds, n - 1), n - 1, kinds[n - 1]);
    }
  }

  lemma {:induction false} HeadersBetween(kinds: seq<Line>, i: nat, j: nat, s: string)
    requires i <= j <= |kinds|
    ensures Headers(kinds, i, s) <= Headers(kinds, j, s)
    ensures forall m | i <= m < j && kinds[m] == Header(s) :: Headers(kinds, i, s) < Headers(kinds, j, s)
    decreases j
  {
    if i < j { HeadersBetween(kinds, i, j - 1, s); }
  }

  lemma {:induction false} HeadersRenamed(was: seq<Line>, h: nat, now: string, n: nat, s: string)
    requires h < |was| && n <= |was| && was[h].Header? && was[h].name != now
    ensures Headers(was[h := Header(now)], n, s) ==
            Headers(was, n, s) + (if n > h && s == now then 1 else 0) - (if n > h && was[h] == Header(s) then 1 else 0)
    decreases n
  {
    if n > 0 { HeadersRenamed(was, h, now, n - 1, s); }
  }

  // ----- the section moves, whole -----

  // The renamed section has moved. A later copy of the old name, ignored before, is what
  // answers to it now; until then nothing else differs.
  ghost predicate Moved(a: State, b: State, was: string, now: string) {
    && was in a.sections && now !in a.sections
    && b.sections.Keys - {was} == a.sections.Keys - {was} + {now}
    && (was !in a.duplicates ==> b.duplicates == a.duplicates && was !in b.sections)
    && (was in a.duplicates <==> was in b.sections)
    && SamePlace(a, b, was, now)
    && (forall q :: Get(b, now, q) == Get(a, was, q))
    && (forall t, q | t != was && t != now :: Get(b, t, q) == Get(a, t, q))
  }

  ghost predicate SamePlace(a: State, b: State, was: string, now: string) {
    if a.place == At(was, false) then b.place.At? && b.place.name == was
    else b.on == a.on && b.place == if a.place == At(was, true) then At(now, true) else a.place
  }

  lemma MovedStep(a: State, b: State, i: nat, kind: Line, was: string, now: string)
    requires Sound(a) && Sound(b) && Moved(a, b, was, now) && was != now && kind != Header(now)
    ensures Moved(Step(a, i, kind), Step(b, i, kind), was, now)
  {
    hide Step;
    StepPlaceAndKey(a, i, kind);
    StepPlaceAndKey(b, i, kind);
    var a', b' := Step(a, i, kind), Step(b, i, kind);
    forall q ensures Get(b', now, q) == Get(a', was, q) {
      StepOption(a, i, kind, was, q);
      StepOption(b, i, kind, now, q);
      assert Get(b, now, q) == Get(a, was, q);
    }
    forall t, q | t != was && t != now ensures Get(b', t, q) == Get(a', t, q) {
      StepOption(a, i, kind, t, q);
      StepOption(b, i, kind, t, q);
      assert Get(b, t, q) == Get(a, t, q);
    }
    if a.place.At? && kind.Entry? {
      var s := a.place.name;
      assert s == was ==> Get(b, now, kind.key) == Get(a, was, kind.key);
      assert s != was && s != now ==> Get(b, s, kind.key) == Get(a, s, kind.key);
    }
    if kind.Header? && kind.name != was {
      assert kind.name in b.sections.Keys - {was} <==> kind.name in a.sections.Keys - {was} + {now};
    }
  }

  lemma MovedHeader(st: State, h: nat, was: string, now: string)
    requires Sound(st) && was !in st.sections && now !in st.sections && was != now && was !in st.duplicates
    ensures Moved(Step(st, h, Header(was)), Step(st, h, Header(now)), was, now)
  {
    var a, b := Step(st, h, Header(was)), Step(st, h, Header(now));
    StepPlaceAndKey(st, h, Header(was));
    StepPlaceAndKey(st, h, Header(now));
    forall t, q ensures Get(a, t, q) == Get(st, t, q) && Get(b, t, q) == Get(st, t, q) {
      StepOption(st, h, Header(was), t, q);
      StepOption(st, h, Header(now), t, q);
    }
  }

  lemma {:induction false} MovedRun(kinds: seq<Line>, h: nat, was: string, now: string, n: nat)
    requires h < n <= |kinds| && kinds[h] == Header(was) && was != now
    requires was !in After(kinds, h).sections && Headers(kinds, n, now) == 0
    ensures Moved(After(kinds, n), After(kinds[h := Header(now)], n), was, now)
    decreases n
  {
    hide Step, Moved;
    var renamed := kinds[h := Header(now)];
    HeadersTell(kinds, h, was);
    HeadersBetween(kinds, h, n, now);
    if n == h + 1 {
      assert renamed[..h] == kinds[..h];
      AfterPrefix(kinds, renamed, h);
      HeadersTell(kinds, h, now);
      MovedHeader(After(kinds, h), h, was, now);
    } else {
      assert kinds[n - 1] != Header(now);
      MovedRun(kinds, h, was, now, n - 1);
      MovedStep(After(kinds, n - 1), After(renamed, n - 1), n - 1, kinds[n - 1], was, now);
    }
  }

  // What follows the name on a header line may follow any name.
  lemma HeaderRestFits(line: string)
    requires Classify(line).Header?
    ensures var t := LStrip(HeaderRest(line)); t == "" || IsMark(t[0])
  {
    var close := Find(line, {']'}, 1);
    assert line[0] == '[';
    assert Find(line, {']'}, 0) == close;
  }

  lemma HeaderHere(lines: seq<string>, s: string)
    requires HasSection(lines, s)
    ensures var h := SectionOf(lines, s).header;
            Classify(lines[h]) == Header(s) && s !in After(Kinds(lines), h).sections
  {
    SectionsPlaced(Kinds(lines), |lines|, s);
  }

  lemma RenamedKinds(lines: seq<string>, was: string, now: string)
    requires HasSection(lines, was) && !HasSection(lines, now) && CleanName(now)
    ensures var h := SectionOf(lines, was).header;
            && Kinds(lines)[h] == Header(was)
            && was !in After(Kinds(lines), h).sections
            && Kinds(RenameLines(lines, was, now)) == Kinds(lines)[h := Header(now)]
  {
    hide After, Classify, HeaderRest, LStrip, CleanName, SectionOf;
    HeaderHere(lines, was);
    var kinds := Kinds(lines);
    var h := SectionOf(lines, was).header;
    var line := lines[h];
    var row := "[" + now + "]" + HeaderRest(line);
    assert Classify(line) == Header(was);
    HeaderRestFits(line);
    HeaderLine(now, HeaderRest(line));
    KindsSplice(lines, h, h + 1, [row]);
    assert Kinds([row]) == [Header(now)];
    assert Splice(kinds, h, h + 1, [Header(now)]) == kinds[h := Header(now)];
  }

  // The renamed section reads under its new name what it read under its old one, and
  // every other section reads as before, repeated or not.
  lemma RenameReads(lines: seq<string>, was: string, now: string)
    requires HasSection(lines, was) && !HasSection(lines, now) && CleanName(now)
    ensures var renamed := RenameLines(lines, was, now);
            && ParseLines(renamed).sections.Keys - {was} == ParseLines(lines).sections.Keys - {was} + {now}
            && (was !in ParseLines(lines).duplicates ==>
                  ParseLines(renamed).duplicates == ParseLines(lines).duplicates && !HasSection(renamed, was))
            && (forall k :: Lookup(renamed, now, k) == Lookup(lines, was, k))
            && (forall s, k | s != was && s != now :: Lookup(renamed, s, k) == Lookup(lines, s, k))
  {
    var kinds := Kinds(lines);
    var h := SectionOf(lines, was).header;
    RenamedKinds(lines, was, now);
    HeadersTell(kinds, |kinds|, now);
    MovedRun(kinds, h, was, now, |kinds|);
    var renamed := RenameLines(lines, was, now);
    forall k ensures Lookup(renamed, now, k) == Lookup(lines, was, k) {
      assert Get(Final(Kinds(renamed)), now, k) == Get(Final(kinds), was, k);
    }
  }

  // The old name is gone exactly when it was not repeated: the ignored copy of a repeated
  // section answers to it from then on.
  lemma RenameIff(lines: seq<string>, was: string, now: string)
    requires HasSection(lines, was) && !HasSection(lines, now) && CleanName(now)
    ensures !HasSection(RenameLines(lines, was, now), was) <==> was !in ParseLines(lines).duplicates
  {
    var kinds := Kinds(lines);
    var h := SectionOf(lines, was).header;
    RenamedKinds(lines, was, now);
    HeadersTell(kinds, |kinds|, was);
    HeadersRenamed(kinds, h, now, |kinds|, was);
    HeadersTell(kinds[h := Header(now)], |kinds|, was);
  }
}
