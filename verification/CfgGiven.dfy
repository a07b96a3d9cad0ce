// What an edit leaves of every value a document gives, the ignored ones too, and of the
// order of a section's keys.

module CfgGiven {
  import opened Text
  import opened CfgSyntax
  import opened CfgParse
  import opened CfgEdits
  import opened CfgValues
  import opened CfgOrder
  import opened CfgRender
  import opened CfgDocument
  import opened CfgLaws
  import opened CfgOps

  // Every value given for key k in the section that answers to s; the first one counts.
  function Given(lines: seq<string>, s: string, k: string): seq<string> { Values(Kinds(lines), |lines|, s, k) }

  // The keys of a section, in file order.
  function KeysOf(lines: seq<string>, s: string): seq<string> { KeysIn(Kinds(lines), |lines|, s) }

  function First(values: seq<string>): Option<string> { if values == [] then None else Some(values[0]) }

  function Rest(values: seq<string>): seq<string> { if values == [] then [] else values[1..] }

  // What key k reads as once its first line is removed; "" when nothing gives it then.
  function LeftText(lines: seq<string>, s: string, k: string): string {
    var left := Rest(Given(lines, s, k));
    if left == [] then "" else left[0]
  }

  lemma GivenTells(lines: seq<string>, s: string, k: string)
    ensures Lookup(lines, s, k) == First(Given(lines, s, k))
    ensures CopiesOf(lines, s, k) == |Given(lines, s, k)|
    ensures k in KeysOf(lines, s) <==> Lookup(lines, s, k).Some?
  {
    ValuesIndexed(Kinds(lines), |lines|, s, k);
    KeysAre(Kinds(lines), |lines|, s, k);
  }

  // Key k of section s is given these values now; any other key those it was given, and it
  // stands where it stood.
  ghost predicate Regiven(was: seq<string>, now: seq<string>, s: string, k: string, values: seq<string>) {
    && Given(now, s, k) == values
    && (forall t, q | t != s || q != k :: Given(now, t, q) == Given(was, t, q))
    && Minus(KeysOf(now, s), k) == Minus(KeysOf(was, s), k)
  }

  // A key that is put stays where it is, or comes last.
  ghost predicate PutInOrder(was: seq<string>, now: seq<string>, s: string, k: string) {
    KeysOf(now, s) == if k in KeysOf(was, s) then KeysOf(was, s) else KeysOf(was, s) + [k]
  }

  ghost predicate SameGiven(was: seq<string>, now: seq<string>) {
    && (forall t, q :: Given(now, t, q) == Given(was, t, q))
    && (forall t :: KeysOf(now, t) == KeysOf(was, t))
  }

  lemma SpliceGives(lines: seq<string>, start: nat, end: nat, block: seq<string>, s: string, k: string)
    requires CanEdit(Kinds(lines), start, end, Kinds(block), s, k)
    ensures Regiven(lines, SpliceLines(lines, start, end, block), s, k,
                    ValueOfBlock(Kinds(block)) + if start < end then Rest(Given(lines, s, k)) else Given(lines, s, k))
    ensures start < end && block != [] ==> KeysOf(SpliceLines(lines, start, end, block), s) == KeysOf(lines, s)
  {
    hide After, Values, KeysIn, BlockValue, Kinds, Classify, Minus, SpliceLines, Splice;
    var kinds := Kinds(lines);
    KindsSplice(lines, start, end, block);
    EditedValues(kinds, start, end, Kinds(block), s, k);
    EditedKeys(kinds, start, end, Kinds(block), s, k);
    var now := Splice(kinds, start, end, Kinds(block));
    LaterGiven(ValueOfBlock(kinds[start..end]), ValueOfBlock(Kinds(block)),
               Values(kinds, |kinds|, s, k), Values(now, |now|, s, k));
  }

  lemma LaterGiven(p: seq<string>, q: seq<string>, x: seq<string>, y: seq<string>)
    requires SameLater(p, q, x, y) && |p| <= 1
    ensures y == q + if p == [] then x else Rest(x)
  {
    assert y == y[..|q|] + y[|q|..];
  }

  lemma OptionCanEdit(kinds: seq<Line>, s: string, k: string, block: seq<Line>)
    requires HasOption(kinds, s, k) && NoneOrBlock(block, k)
    ensures CanEdit(kinds, OptionOf(kinds, s, k).start, OptionOf(kinds, s, k).end, block, s, k)
  {
    hide After, Get;
    OptionsPlaced(kinds, |kinds|, s, k);
  }

  lemma InsertCanEdit(kinds: seq<Line>, s: string, k: string, at: nat, block: seq<Line>)
    requires s in Final(kinds).sections && InsertPoint(kinds, s, at) && !HasOption(kinds, s, k) && NoneOrBlock(block, k)
    ensures at <= |kinds| && CanEdit(kinds, at, at, block, s, k)
  {
    hide After, Get;
    InsertHere(kinds, s, k, at);
  }

  lemma PutGives(lines: seq<string>, s: string, k: string, value: Value)
    requires HasSection(lines, s)
    requires var (start, end) := PutSpan(lines, s, k); IsBlock(Kinds(Render(k, value, lines[start..end])), k)
    ensures var (start, end) := PutSpan(lines, s, k);
            var now := PutLines(lines, s, k, value);
            && Regiven(lines, now, s, k,
                       [BlockValue(Kinds(Render(k, value, lines[start..end])))] + Rest(Given(lines, s, k)))
            && PutInOrder(lines, now, s, k)
  {
    hide Regiven, IsBlock, Render, Kinds, BlockValue, Given, KeysOf, After, InsertPoint, CanEdit, Splice, CopiesOf;
    var (start, end) := PutSpan(lines, s, k);
    var block := Render(k, value, lines[start..end]);
    GivenTells(lines, s, k);
    BlockFilled(block, k);
    if HasOption(Kinds(lines), s, k) {
      OptionCanEdit(Kinds(lines), s, k, Kinds(block));
      SpliceGives(lines, start, end, block, s, k);
    } else {
      assert Given(lines, s, k) == [];
      BlankRun(lines, s);
      InsertCanEdit(Kinds(lines), s, k, start, Kinds(block));
      SpliceGives(lines, start, end, block, s, k);
      InsertedLast(lines, start, block, s, k);
    }
  }

  lemma BlockFilled(block: seq<string>, k: string)
    requires IsBlock(Kinds(block), k)
    ensures block != [] && Kinds(block) != [] && NoneOrBlock(Kinds(block), k)
    ensures ValueOfBlock(Kinds(block)) == [BlockValue(Kinds(block))]
  {
  }

  lemma InsertedLast(lines: seq<string>, at: nat, block: seq<string>, s: string, k: string)
    requires HasSection(lines, s) && at <= |lines| && InsertPoint(Kinds(lines), s, at)
    requires CanEdit(Kinds(lines), at, at, Kinds(block), s, k) && block != []
    ensures KeysOf(SpliceLines(lines, at, at, block), s) == KeysOf(lines, s) + [k]
  {
    hide After, KeysIn, IsBlock, Kinds, InsertPoint, CanEdit, Splice;
    KindsSplice(lines, at, at, block);
    AppendedKey(Kinds(lines), at, Kinds(block), s, k);
  }

  lemma LastRow(lines: seq<string>, row: string)
    requires Classify(row).Blank? || Classify(row).Header?
    ensures SameGiven(lines, lines + [row])
  {
    hide After, KeysIn, Values, Classify;
    var now := Kinds(lines + [row]);
    KindsConcat(lines, [row]);
    assert now == Kinds(lines) + [Classify(row)];
    assert now[..|now| - 1] == Kinds(lines);
    forall t, q ensures Given(lines + [row], t, q) == Given(lines, t, q) { LastLine(Kinds(lines), now, t, q); }
    forall t ensures KeysOf(lines + [row], t) == KeysOf(lines, t) {
      LastLine(Kinds(lines), now, t, "");
    }
  }

  lemma AddGives(lines: seq<string>, s: string)
    requires HasSection(lines, s) || CleanName(s)
    ensures SameGiven(lines, AddLines(lines, s))
  {
    hide SameGiven, Classify, IsBlank, CleanName;
    if HasSection(lines, s) {
      GivenItself(lines);
    } else {
      var row := "[" + s + "]";
      HeaderLine(s, "");
      assert row + "" == row;
      var gap := if lines != [] && !IsBlank(lines[|lines| - 1]) then [""] else [];
      LastRow(lines + gap, row);
      if gap == [] {
        assert lines + gap == lines;
      } else {
        EmptyLine();
        LastRow(lines, "");
        GivenThrough(lines, lines + gap, lines + gap + [row]);
      }
    }
  }

  lemma EmptyLine()
    ensures Classify("") == Blank
  {
    BlankLine("");
  }

  lemma GivenItself(lines: seq<string>)
    ensures SameGiven(lines, lines)
  {
  }

  lemma GivenThrough(a: seq<string>, b: seq<string>, c: seq<string>)
    requires SameGiven(a, b) && SameGiven(b, c)
    ensures SameGiven(a, c)
  {
    hide Given, KeysOf;
  }

  // Every value and the keys' order come back from the rendered text.
  lemma RenderGives(lines: seq<string>)
    requires OneLiners(lines)
    ensures SameGiven(lines, SplitLines(RenderText(lines)))
  {
    hide SameGiven, Classify, SplitLines, RenderText, OneLiners;
    RenderedLines(lines);
    GivenItself(lines);
    if lines != [] && lines[|lines| - 1] == "" {
      var less := lines[..|lines| - 1];
      assert lines == less + [""];
      EmptyLine();
      LastRow(less, "");
      GivenBack(less, lines);
    }
  }

  lemma GivenBack(a: seq<string>, b: seq<string>)
    requires SameGiven(a, b)
    ensures SameGiven(b, a)
  {
    hide Given, KeysOf;
  }

  // ----- several edits -----

  // The values of a key once its edit is made: the one put first, or the first one gone.
  function Edited(op: Op, values: seq<string>): seq<string> {
    (if op.Put? then [TextOf(op.value)] else []) + Rest(values)
  }

  lemma SetGives(lines: seq<string>, s: string, k: string, value: Value)
    requires OneLiners(lines) && CleanKey(k) && CleanValue(value)
    requires HasSection(lines, s) || CleanName(s)
    ensures var now := SetLines(lines, s, k, value);
            Regiven(lines, now, s, k, [TextOf(value)] + Rest(Given(lines, s, k))) && PutInOrder(lines, now, s, k)
  {
    hide Regiven, IsBlock, Kinds, BlockValue, Render, CleanValue, TextOf, Given, KeysOf, CleanKey, CleanName,
         HasSection, PutSpan;
    AddReads(lines, s);
    AddGives(lines, s);
    var added := AddLines(lines, s);
    var (start, end) := PutSpan(added, s, k);
    RenderedReads(k, value, added[start..end]);
    PutGives(added, s, k, value);
    AfterSame(lines, added, PutLines(added, s, k, value), s, k, [TextOf(value)] + Rest(Given(lines, s, k)));
  }

  lemma AfterSame(lines: seq<string>, added: seq<string>, now: seq<string>, s: string, k: string, values: seq<string>)
    requires SameGiven(lines, added) && Regiven(added, now, s, k, values)
    ensures Regiven(lines, now, s, k, values) && (PutInOrder(added, now, s, k) ==> PutInOrder(lines, now, s, k))
  {
    hide Given, KeysOf;
  }

  // Removing an option leaves the values that were ignored, the next one counting now.
  lemma RemoveGives(lines: seq<string>, s: string, k: string)
    ensures Regiven(lines, RemoveLines(lines, s, k), s, k, Rest(Given(lines, s, k)))
  {
    hide Regiven, Kinds, Given, KeysOf, CanEdit, After;
    GivenTells(lines, s, k);
    if HasOption(Kinds(lines), s, k) {
      var opt := OptionOf(Kinds(lines), s, k);
      NoKinds();
      OptionCanEdit(Kinds(lines), s, k, []);
      SpliceGives(lines, opt.start, opt.end, [], s, k);
      assert [] + Rest(Given(lines, s, k)) == Rest(Given(lines, s, k));
    } else {
      RegivenItself(lines, s, k);
    }
  }

  lemma NoKinds()
    ensures Kinds([]) == []
  {
  }

  lemma RegivenItself(lines: seq<string>, s: string, k: string)
    ensures Regiven(lines, lines, s, k, Given(lines, s, k))
  {
  }

  lemma ApplyGives(lines: seq<string>, s: string, op: Op)
    requires Fits(lines, s) && CleanOp(op)
    ensures Regiven(lines, Apply(lines, s, op), s, op.key, Edited(op, Given(lines, s, op.key)))
    ensures op.Put? ==> PutInOrder(lines, Apply(lines, s, op), s, op.key)
  {
    hide Regiven, Given, KeysOf, TextOf, CleanValue, SetLines, RemoveLines, PutInOrder, Rest, HasSection, CleanKey,
         CleanName, OneLiners;
    if op.Put? {
      SetGives(lines, s, op.key, op.value);
    } else {
      RemoveGives(lines, s, op.key);
      assert [] + Rest(Given(lines, s, op.key)) == Rest(Given(lines, s, op.key));
    }
  }

  lemma {:induction false} ApplyAllGives(lines: seq<string>, s: string, ops: seq<Op>)
    requires Fits(lines, s) && CleanOps(ops) && Distinct(ops)
    ensures var now := ApplyAll(lines, s, ops); Fits(now, s) && AllGiven(lines, now, s, ops)
  {
    hide Given, Apply, CleanOp, Fits, AllGiven, Regiven, Took, OthersKept;
    if ops == [] {
      NoneGiven(lines, s);
    } else {
      var n := |ops| - 1;
      ApplyAllGives(lines, s, ops[..n]);
      var mid := ApplyAll(lines, s, ops[..n]);
      ApplyReads(mid, s, ops[n]);
      ApplyGives(mid, s, ops[n]);
      AlsoGiven(lines, mid, Apply(mid, s, ops[n]), s, ops);
    }
  }

  // Each key's values are edited as its own edit says, and no other's.
  ghost predicate AllGiven(was: seq<string>, now: seq<string>, s: string, ops: seq<Op>) {
    && (forall i | 0 <= i < |ops| :: Given(now, s, ops[i].key) == Edited(ops[i], Given(was, s, ops[i].key)))
    && (forall t, q | t != s || !Touches(ops, q) :: Given(now, t, q) == Given(was, t, q))
  }

  lemma NoneGiven(lines: seq<string>, s: string)
    ensures AllGiven(lines, lines, s, [])
  {
  }

  lemma AlsoGiven(lines: seq<string>, mid: seq<string>, now: seq<string>, s: string, ops: seq<Op>)
    requires ops != [] && Distinct(ops) && AllGiven(lines, mid, s, ops[..|ops| - 1])
    requires var op := ops[|ops| - 1]; Regiven(mid, now, s, op.key, Edited(op, Given(mid, s, op.key)))
    ensures AllGiven(lines, now, s, ops)
  {
    hide Given, KeysOf, Edited, Minus;
    var n := |ops| - 1;
    assert !Touches(ops[..n], ops[n].key);
    forall i | 0 <= i < n ensures Given(now, s, ops[i].key) == Edited(ops[i], Given(lines, s, ops[i].key)) {
      assert ops[..n][i] == ops[i];
    }
    forall t, q | t != s || !Touches(ops, q) ensures Given(now, t, q) == Given(lines, t, q) {
      assert Touches(ops[..n], q) ==> Touches(ops, q);
      assert ops[n].key == q ==> Touches(ops, q);
    }
  }

  ghost predicate MadeGiven(was: seq<string>, now: seq<string>, e: Edit) {
    forall i | 0 <= i < |e.ops| ::
      Given(now, e.section, e.ops[i].key) == Edited(e.ops[i], Given(was, e.section, e.ops[i].key))
  }

  lemma {:induction false} ApplyEditsGives(lines: seq<string>, edits: seq<Edit>)
    requires DistinctSections(edits) && OneLiners(lines) && forall i | 0 <= i < |edits| :: Ready(lines, edits[i])
    ensures EditsGiven(lines, ApplyEdits(lines, edits), edits)
  {
    hide Given, ApplyAll, Made, Ready, EditsGiven, AllGiven;
    if edits == [] {
      NoEditsGiven(lines);
    } else {
      var n := |edits| - 1;
      var e := edits[n];
      ApplyEditsGives(lines, edits[..n]);
      ApplyEditsReads(lines, edits[..n]);
      var mid := ApplyEdits(lines, edits[..n]);
      StillReady(lines, mid, e);
      ReadyParts(mid, e);
      ApplyAllGives(mid, e.section, e.ops);
      EditAlsoGiven(lines, mid, ApplyAll(mid, e.section, e.ops), edits);
    }
  }

  ghost predicate EditsGiven(was: seq<string>, now: seq<string>, edits: seq<Edit>) {
    && (forall i | 0 <= i < |edits| :: MadeGiven(was, now, edits[i]))
    && (forall t, q | !Edits(edits, t, q) :: Given(now, t, q) == Given(was, t, q))
  }

  lemma NoEditsGiven(lines: seq<string>)
    ensures EditsGiven(lines, lines, [])
  {
  }

  lemma EditAlsoGiven(lines: seq<string>, mid: seq<string>, now: seq<string>, edits: seq<Edit>)
    requires edits != [] && DistinctSections(edits) && EditsGiven(lines, mid, edits[..|edits| - 1])
    requires var e := edits[|edits| - 1]; AllGiven(mid, now, e.section, e.ops)
    ensures EditsGiven(lines, now, edits)
  {
    hide Given, Edited, Touches, Edits, MadeGiven;
    var n := |edits| - 1;
    var e := edits[n];
    OneMade(mid, now, e);
    forall i | 0 <= i <= n ensures MadeGiven(lines, now, edits[i]) {
      if i < n {
        assert edits[..n][i] == edits[i];
        StillGiven(lines, mid, now, e, edits[i]);
      } else {
        MadeNow(lines, mid, now, edits, n);
      }
    }
    forall t, q | !Edits(edits, t, q) ensures Given(now, t, q) == Given(lines, t, q) { EditsSplit(edits, n, t, q); }
  }

  lemma OneMade(was: seq<string>, now: seq<string>, e: Edit)
    requires AllGiven(was, now, e.section, e.ops)
    ensures MadeGiven(was, now, e)
  {
    hide Given, Edited;
  }

  lemma StillGiven(lines: seq<string>, mid: seq<string>, now: seq<string>, e: Edit, other: Edit)
    requires MadeGiven(lines, mid, other) && other.section != e.section
    requires forall t, q | t != e.section || !Touches(e.ops, q) :: Given(now, t, q) == Given(mid, t, q)
    ensures MadeGiven(lines, now, other)
  {
    hide Given, Edited, Touches;
  }

  lemma MadeNow(lines: seq<string>, mid: seq<string>, now: seq<string>, edits: seq<Edit>, n: nat)
    requires DistinctSections(edits) && n < |edits|
    requires forall t, q | !Edits(edits[..n], t, q) :: Given(mid, t, q) == Given(lines, t, q)
    requires MadeGiven(mid, now, edits[n])
    ensures MadeGiven(lines, now, edits[n])
  {
    hide Given, Edited, Touches;
    forall q ensures Given(mid, edits[n].section, q) == Given(lines, edits[n].section, q) {
      assert !Edits(edits[..n], edits[n].section, q);
    }
  }

  // ----- the sections in file order -----

  function NamesOf(lines: seq<string>): seq<string> { NamesIn(Kinds(lines), |lines|) }

  lemma NamesTell(lines: seq<string>)
    ensures forall s :: s in NamesOf(lines) <==> HasSection(lines, s)
    ensures forall i, j | 0 <= i < j < |NamesOf(lines)| ::
              NamesOf(lines)[i] != NamesOf(lines)[j] &&
              HeaderOf(ParseLines(lines), NamesOf(lines)[i]) < HeaderOf(ParseLines(lines), NamesOf(lines)[j])
  {
    hide After;
    NamesAre(Kinds(lines), |lines|);
  }

  lemma SpliceNames(lines: seq<string>, start: nat, end: nat, block: seq<string>, s: string, k: string)
    requires CanEdit(Kinds(lines), start, end, Kinds(block), s, k)
    ensures NamesOf(SpliceLines(lines, start, end, block)) == NamesOf(lines)
  {
    hide After, NamesIn, IsBlock, Kinds, Classify, SpliceLines, Splice;
    KindsSplice(lines, start, end, block);
    EditedNames(Kinds(lines), start, end, Kinds(block), s, k);
  }

  lemma PutNames(lines: seq<string>, s: string, k: string, value: Value)
    requires HasSection(lines, s)
    requires var (start, end) := PutSpan(lines, s, k); IsBlock(Kinds(Render(k, value, lines[start..end])), k)
    ensures NamesOf(PutLines(lines, s, k, value)) == NamesOf(lines)
  {
    hide IsBlock, Render, Kinds, NamesOf, After, InsertPoint, CanEdit, Splice, SpliceLines;
    var (start, end) := PutSpan(lines, s, k);
    var block := Render(k, value, lines[start..end]);
    BlockFilled(block, k);
    if HasOption(Kinds(lines), s, k) {
      OptionCanEdit(Kinds(lines), s, k, Kinds(block));
    } else {
      BlankRun(lines, s);
      InsertCanEdit(Kinds(lines), s, k, start, Kinds(block));
    }
    SpliceNames(lines, start, end, block, s, k);
  }

  lemma RowNames(lines: seq<string>, row: string)
    ensures NamesOf(lines + [row]) == NamesStep(NamesOf(lines), ParseLines(lines), Classify(row))
  {
    hide After, NamesIn, Classify;
    KindsConcat(lines, [row]);
    assert Kinds(lines + [row]) == Kinds(lines) + [Classify(row)];
    LastName(Kinds(lines), Kinds(lines + [row]));
  }

  // A new section comes last.
  lemma AddNames(lines: seq<string>, s: string)
    requires HasSection(lines, s) || CleanName(s)
    ensures NamesOf(AddLines(lines, s)) == NamesOf(lines) + if HasSection(lines, s) then [] else [s]
  {
    hide Classify, IsBlank, CleanName, NamesOf;
    if HasSection(lines, s) {
      assert NamesOf(lines) + [] == NamesOf(lines);
    } else {
      var row := "[" + s + "]";
      HeaderLine(s, "");
      assert row + "" == row;
      var gap := if lines != [] && !IsBlank(lines[|lines| - 1]) then [""] else [];
      RowNames(lines + gap, row);
      if gap == [] {
        assert lines + gap == lines;
      } else {
        EmptyLine();
        RowNames(lines, "");
        NamesTell(lines);
        NamesTell(lines + gap);
      }
    }
  }

  lemma ApplyNames(lines: seq<string>, s: string, op: Op)
    requires Fits(lines, s) && CleanOp(op)
    ensures NamesOf(Apply(lines, s, op)) == NamesOf(lines) + if op.Drop? || HasSection(lines, s) then [] else [s]
  {
    hide IsBlock, Render, Kinds, NamesOf, TextOf, CleanValue, HasSection, PutSpan, CleanKey, CleanName, OptionOf,
         HasOption;
    if op.Put? {
      AddReads(lines, s);
      AddNames(lines, s);
      var added := AddLines(lines, s);
      var (start, end) := PutSpan(added, s, op.key);
      RenderedReads(op.key, op.value, added[start..end]);
      PutNames(added, s, op.key, op.value);
    } else {
      RemoveNames(lines, s, op.key);
      assert NamesOf(lines) + [] == NamesOf(lines);
    }
  }

  lemma RemoveNames(lines: seq<string>, s: string, k: string)
    ensures NamesOf(RemoveLines(lines, s, k)) == NamesOf(lines)
  {
    hide Kinds, NamesOf, CanEdit, After;
    if HasOption(Kinds(lines), s, k) {
      var opt := OptionOf(Kinds(lines), s, k);
      NoKinds();
      OptionCanEdit(Kinds(lines), s, k, []);
      SpliceNames(lines, opt.start, opt.end, [], s, k);
    }
  }

  lemma {:induction false} ApplyAllNames(lines: seq<string>, s: string, ops: seq<Op>)
    requires Fits(lines, s) && CleanOps(ops) && Distinct(ops) && ops != [] && ops[0].Put?
    ensures NamesOf(ApplyAll(lines, s, ops)) == NamesOf(lines) + if HasSection(lines, s) then [] else [s]
    decreases |ops|
  {
    hide NamesOf, Apply, CleanOp, HasSection, ParseLines, CopiesOf, Lookup, CleanName;
    var n := |ops| - 1;
    if n == 0 {
      NothingApplied(lines, s);
      assert ops[..0] == [];
      ApplyNames(lines, s, ops[0]);
    } else {
      ApplyAllNames(lines, s, ops[..n]);
      ApplyAllReads(lines, s, ops[..n]);
      assert ops[..n][0].Put?;
      var mid := ApplyAll(lines, s, ops[..n]);
      ApplyNames(mid, s, ops[n]);
      assert NamesOf(mid) + [] == NamesOf(mid);
    }
  }

  lemma NothingApplied(lines: seq<string>, s: string)
    ensures ApplyAll(lines, s, []) == lines
  {
  }

  lemma RenderNames(lines: seq<string>)
    requires OneLiners(lines)
    ensures NamesOf(SplitLines(RenderText(lines))) == NamesOf(lines)
  {
    hide Classify, NamesOf, SplitLines, RenderText, OneLiners;
    RenderedLines(lines);
    if lines != [] && lines[|lines| - 1] == "" {
      var less := lines[..|lines| - 1];
      assert lines == less + [""];
      EmptyLine();
      RowNames(less, "");
    }
  }
}
