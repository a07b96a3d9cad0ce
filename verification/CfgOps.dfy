// Several edits of a document at once: each key set or removed, in one section after
// another.

module CfgOps {
  import opened Text
  import opened CfgSyntax
  import opened CfgParse
  import opened CfgEdits
  import opened CfgRender
  import opened CfgDocument
  import opened CfgLaws

  datatype Op = Put(key: string, value: Value) | Drop(key: string)

  // What a key reads as once its edit is made: the value put there; nothing where it was
  // dropped, exactly when no more than one line gave it.
  ghost predicate Took(was: seq<string>, now: seq<string>, s: string, op: Op) {
    if op.Put? then Lookup(now, s, op.key) == Some(TextOf(op.value))
    else Lookup(now, s, op.key).None? <==> CopiesOf(was, s, op.key) <= 1
  }

  function Apply(lines: seq<string>, s: string, op: Op): seq<string> {
    if op.Put? then SetLines(lines, s, op.key, op.value) else RemoveLines(lines, s, op.key)
  }

  function ApplyAll(lines: seq<string>, s: string, ops: seq<Op>): seq<string> {
    if ops == [] then lines else Apply(ApplyAll(lines, s, ops[..|ops| - 1]), s, ops[|ops| - 1])
  }

  predicate Touches(ops: seq<Op>, key: string) { exists i | 0 <= i < |ops| :: ops[i].key == key }

  // No key is edited twice.
  predicate Distinct(ops: seq<Op>) { forall i, j | 0 <= i < j < |ops| :: ops[i].key != ops[j].key }

  predicate CleanOp(op: Op) { op.Put? ==> CleanKey(op.key) && CleanValue(op.value) }

  predicate CleanOps(ops: seq<Op>) { forall i | 0 <= i < |ops| :: CleanOp(ops[i]) }

  // Outside some keys of a section, everything reads as before.
  ghost predicate KeptBut(was: seq<string>, now: seq<string>, s: string, ops: seq<Op>) {
    forall t, q | t != s || !Touches(ops, q) ::
      Lookup(now, t, q) == Lookup(was, t, q) && CopiesOf(now, t, q) == CopiesOf(was, t, q)
  }

  ghost predicate Fits(lines: seq<string>, s: string) { OneLiners(lines) && (HasSection(lines, s) || CleanName(s)) }

  lemma NoSectionNoCopies(lines: seq<string>, s: string, k: string)
    requires !HasSection(lines, s)
    ensures Lookup(lines, s, k).None? && RemoveLines(lines, s, k) == lines && CopiesOf(lines, s, k) == 0
  {
    ValueIffCopies(Kinds(lines), |lines|, s, k);
  }

  lemma ApplyReads(lines: seq<string>, s: string, op: Op)
    requires Fits(lines, s) && CleanOp(op)
    ensures var now := Apply(lines, s, op);
            && Fits(now, s) && Took(lines, now, s, op)
            && OthersKept(lines, now, s, op.key)
            && ParseLines(now).duplicates == ParseLines(lines).duplicates
            && ParseLines(now).sections.Keys == ParseLines(lines).sections.Keys + if op.Put? then {s} else {}
  {
    hide SetLines, RemoveLines, ParseLines, CopiesOf, Lookup, TextOf, CleanValue;
    if op.Put? {
      SetReads(lines, s, op.key, op.value);
      Unfold(lines, Apply(lines, s, op), s);
    } else if HasSection(lines, s) {
      RemoveReads(lines, s, op.key);
      RemoveIff(lines, s, op.key);
      Unfold(lines, Apply(lines, s, op), s);
    } else {
      NoSectionNoCopies(lines, s, op.key);
    }
  }

  lemma Unfold(was: seq<string>, now: seq<string>, s: string)
    requires ParseLines(now).sections.Keys == ParseLines(was).sections.Keys + {s}
    ensures HasSection(now, s) && (HasSection(was, s) ==>
            ParseLines(now).sections.Keys == ParseLines(was).sections.Keys)
  {
  }

  // All the edits of one section: each key reads as its own edit says, and every other
  // value of the document as before.
  lemma {:induction false} ApplyAllReads(lines: seq<string>, s: string, ops: seq<Op>)
    requires Fits(lines, s) && CleanOps(ops) && Distinct(ops)
    ensures var now := ApplyAll(lines, s, ops);
            && Fits(now, s)
            && AllTook(lines, now, s, ops)
            && ParseLines(now).duplicates == ParseLines(lines).duplicates
            && ParseLines(lines).sections.Keys <= ParseLines(now).sections.Keys <= ParseLines(lines).sections.Keys + {s}
            && ((exists i | 0 <= i < |ops| :: ops[i].Put?) ==> HasSection(now, s))
  {
    hide ParseLines, CopiesOf, Lookup, Apply, CleanOp, Fits, AllTook, Took, OthersKept;
    if ops == [] {
      NoneTook(lines, s);
    } else {
      var n := |ops| - 1;
      ApplyAllReads(lines, s, ops[..n]);
      var mid := ApplyAll(lines, s, ops[..n]);
      ApplyReads(mid, s, ops[n]);
      var now := Apply(mid, s, ops[n]);
      assert now == ApplyAll(lines, s, ops);
      AlsoTook(lines, mid, now, s, ops);
    }
  }

  // Each key reads as its own edit says, and every other value as before.
  ghost predicate AllTook(was: seq<string>, now: seq<string>, s: string, ops: seq<Op>) {
    (forall i | 0 <= i < |ops| :: Took(was, now, s, ops[i])) && KeptBut(was, now, s, ops)
  }

  lemma NoneTook(lines: seq<string>, s: string)
    ensures AllTook(lines, lines, s, [])
  {
  }

  lemma AlsoTook(lines: seq<string>, mid: seq<string>, now: seq<string>, s: string, ops: seq<Op>)
    requires ops != [] && Distinct(ops) && AllTook(lines, mid, s, ops[..|ops| - 1])
    requires var op := ops[|ops| - 1]; Took(mid, now, s, op) && OthersKept(mid, now, s, op.key)
    ensures AllTook(lines, now, s, ops)
  {
    hide CopiesOf, Lookup, TextOf;
    var n := |ops| - 1;
    assert !Touches(ops[..n], ops[n].key);
    assert CopiesOf(mid, s, ops[n].key) == CopiesOf(lines, s, ops[n].key);
    forall i | 0 <= i < n ensures Took(lines, now, s, ops[i]) { assert ops[..n][i] == ops[i]; }
    forall t, q | t != s || !Touches(ops, q)
      ensures Lookup(now, t, q) == Lookup(lines, t, q) && CopiesOf(now, t, q) == CopiesOf(lines, t, q)
    {
      assert Touches(ops[..n], q) ==> Touches(ops, q);
      assert ops[n].key == q ==> Touches(ops, q);
    }
  }

  // ----- several sections -----

  datatype Edit = Edit(section: string, ops: seq<Op>)

  function ApplyEdits(lines: seq<string>, edits: seq<Edit>): seq<string> {
    if edits == [] then lines
    else
      var n := |edits| - 1;
      ApplyAll(ApplyEdits(lines, edits[..n]), edits[n].section, edits[n].ops)
  }

  predicate DistinctSections(edits: seq<Edit>) {
    forall i, j | 0 <= i < j < |edits| :: edits[i].section != edits[j].section
  }

  ghost predicate Ready(lines: seq<string>, e: Edit) {
    Fits(lines, e.section) && CleanOps(e.ops) && Distinct(e.ops)
  }

  ghost predicate Made(was: seq<string>, now: seq<string>, e: Edit) {
    && (forall i | 0 <= i < |e.ops| :: Took(was, now, e.section, e.ops[i]))
    && ((exists i | 0 <= i < |e.ops| :: e.ops[i].Put?) ==> HasSection(now, e.section))
  }

  predicate Edits(edits: seq<Edit>, s: string, key: string) {
    exists i | 0 <= i < |edits| :: edits[i].section == s && Touches(edits[i].ops, key)
  }

  function SectionsOf(edits: seq<Edit>): set<string> { set e | e in edits :: e.section }

  lemma {:induction false} ApplyEditsReads(lines: seq<string>, edits: seq<Edit>)
    requires DistinctSections(edits) && OneLiners(lines) && forall i | 0 <= i < |edits| :: Ready(lines, edits[i])
    ensures var now := ApplyEdits(lines, edits);
            && OneLiners(now)
            && (forall i | 0 <= i < |edits| :: Made(lines, now, edits[i]))
            && (forall t, q | !Edits(edits, t, q) ::
                  Lookup(now, t, q) == Lookup(lines, t, q) && CopiesOf(now, t, q) == CopiesOf(lines, t, q))
            && ParseLines(now).duplicates == ParseLines(lines).duplicates
            && ParseLines(lines).sections.Keys <= ParseLines(now).sections.Keys
               <= ParseLines(lines).sections.Keys + SectionsOf(edits)
  {
    hide ParseLines, CopiesOf, Lookup, ApplyAll, Made, Ready, Edits, Touches, Fits, CleanOps, Distinct, Took;
    if edits != [] {
      var n := |edits| - 1;
      var e := edits[n];
      ApplyEditsReads(lines, edits[..n]);
      var mid := ApplyEdits(lines, edits[..n]);
      assert Ready(lines, e);
      StillReady(lines, mid, e);
      ReadyParts(mid, e);
      ApplyAllReads(mid, e.section, e.ops);
      var now := ApplyAll(mid, e.section, e.ops);
      FitsOneLiners(now, e.section);
      forall i | 0 <= i <= n ensures Made(lines, now, edits[i]) {
        if i < n { StillMade(lines, mid, now, e, edits[i]); } else { MadeLast(lines, mid, now, edits, n); }
      }
      forall t, q | !Edits(edits, t, q)
        ensures Lookup(now, t, q) == Lookup(lines, t, q) && CopiesOf(now, t, q) == CopiesOf(lines, t, q)
      {
        EditsSplit(edits, n, t, q);
      }
      assert edits == edits[..n] + [e];
    }
  }

  lemma FitsOneLiners(lines: seq<string>, s: string)
    requires Fits(lines, s)
    ensures OneLiners(lines)
  {
  }

  lemma ReadyParts(lines: seq<string>, e: Edit)
    requires Ready(lines, e)
    ensures Fits(lines, e.section) && CleanOps(e.ops) && Distinct(e.ops)
  {
  }

  lemma EditsSplit(edits: seq<Edit>, n: nat, t: string, q: string)
    requires n < |edits| && !Edits(edits, t, q)
    ensures !Edits(edits[..n], t, q) && (t != edits[n].section || !Touches(edits[n].ops, q))
  {
    hide Touches;
    assert forall i | 0 <= i < n :: edits[..n][i] == edits[i];
  }

  lemma MadeLast(lines: seq<string>, mid: seq<string>, now: seq<string>, edits: seq<Edit>, n: nat)
    requires DistinctSections(edits) && n < |edits|
    requires forall t, q | !Edits(edits[..n], t, q) ::
               Lookup(mid, t, q) == Lookup(lines, t, q) && CopiesOf(mid, t, q) == CopiesOf(lines, t, q)
    requires forall i | 0 <= i < |edits[n].ops| :: Took(mid, now, edits[n].section, edits[n].ops[i])
    requires (exists i | 0 <= i < |edits[n].ops| :: edits[n].ops[i].Put?) ==> HasSection(now, edits[n].section)
    ensures Made(lines, now, edits[n])
  {
    hide ParseLines, CopiesOf, Lookup, TextOf, Touches;
    forall q ensures CopiesOf(mid, edits[n].section, q) == CopiesOf(lines, edits[n].section, q) {
      assert !Edits(edits[..n], edits[n].section, q);
    }
  }

  lemma StillReady(lines: seq<string>, mid: seq<string>, e: Edit)
    requires Ready(lines, e) && OneLiners(mid) && ParseLines(lines).sections.Keys <= ParseLines(mid).sections.Keys
    ensures Ready(mid, e)
  {
    hide ParseLines, CopiesOf, CleanOps, Distinct;
    HasStays(lines, mid, e.section);
  }

  lemma HasStays(lines: seq<string>, mid: seq<string>, s: string)
    requires ParseLines(lines).sections.Keys <= ParseLines(mid).sections.Keys
    ensures HasSection(lines, s) ==> HasSection(mid, s)
  {
  }

  lemma StillMade(lines: seq<string>, mid: seq<string>, now: seq<string>, e: Edit, other: Edit)
    requires Made(lines, mid, other) && other.section != e.section && KeptBut(mid, now, e.section, e.ops)
    requires ParseLines(mid).sections.Keys <= ParseLines(now).sections.Keys
    ensures Made(lines, now, other)
  {
    hide ParseLines, CopiesOf, Lookup, TextOf;
    HasStays(mid, now, other.section);
  }

  lemma {:induction false} ApplyJoined(lines: seq<string>, s: string, a: seq<Op>, b: seq<Op>)
    ensures ApplyAll(lines, s, a + b) == ApplyAll(ApplyAll(lines, s, a), s, b)
  {
    hide Apply;
    if b == [] {
      assert a + b == a;
    } else {
      var n := |b| - 1;
      ApplyJoined(lines, s, a, b[..n]);
      assert (a + b)[..|a + b| - 1] == a + b[..n];
    }
  }

  lemma NothingToRemove(lines: seq<string>, s: string, k: string)
    ensures Lookup(lines, s, k).None? ==> RemoveLines(lines, s, k) == lines
  {
  }

  // ----- the edits made in a document -----

  method Make(doc: CfgDocument, s: string, op: Op)
    requires doc.Valid() && !doc.frozen
    modifies doc
    ensures doc.Valid() && !doc.frozen && doc.lines == Apply(old(doc.lines), s, op)
  {
    hide SetLines, ParseLines;
    if op.Put? {
      var _ := doc.Set(s, op.key, op.value);
    } else {
      NothingToRemove(doc.lines, s, op.key);
      var _ := doc.RemoveOption(s, op.key);
    }
  }

  method MakeAll(doc: CfgDocument, s: string, ops: seq<Op>)
    requires doc.Valid() && !doc.frozen
    modifies doc
    ensures doc.Valid() && !doc.frozen && doc.lines == ApplyAll(old(doc.lines), s, ops)
  {
    hide Apply, ParseLines;
    for i := 0 to |ops|
      invariant doc.Valid() && !doc.frozen && doc.lines == ApplyAll(old(doc.lines), s, ops[..i])
    {
      assert ops[..i + 1][..i] == ops[..i];
      Make(doc, s, ops[i]);
    }
    assert ops[..|ops|] == ops;
  }
}
