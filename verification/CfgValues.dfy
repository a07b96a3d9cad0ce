// Every value a document gives one key, and what an edit does to them.

module CfgValues {
  import opened Text
  import opened CfgSyntax
  import opened CfgParse
  import opened CfgEdits

  // Inside some line's option for k, reachable or not.
  predicate OnCopy(st: State, s: string, k: string) { LiveAt(st, s) && st.on.Key? && st.on.key == k }

  function ValuesStep(before: seq<string>, st: State, kind: Line, s: string, k: string): seq<string> {
    if Adds(st, kind, s, k) then before + [kind.value]
    else if OnCopy(st, s, k) && kind.More? && kind.item != "" && before != [] then
      before[|before| - 1 := before[|before| - 1] + "\n" + kind.item]
    else before
  }

  // The values the first n lines give key k in the section that answers to s, in their
  // order. The first one counts; the others are read into options nobody can reach.
  function Values(kinds: seq<Line>, n: nat, s: string, k: string): seq<string>
    requires n <= |kinds|
    decreases n
  {
    if n == 0 then [] else ValuesStep(Values(kinds, n - 1, s, k), After(kinds, n - 1), kinds[n - 1], s, k)
  }

  lemma {:induction false} ValuesPrefix(a: seq<Line>, b: seq<Line>, n: nat, s: string, k: string)
    requires n <= |a| && n <= |b| && a[..n] == b[..n]
    ensures Values(a, n, s, k) == Values(b, n, s, k)
    decreases n
  {
    if n > 0 {
      assert a[..n - 1] == a[..n][..n - 1] == b[..n][..n - 1] == b[..n - 1];
      assert a[n - 1] == a[..n][n - 1] == b[n - 1];
      AfterPrefix(a, b, n - 1);
      ValuesPrefix(a, b, n - 1, s, k);
    }
  }

  // What the index holds is the first of them.
  ghost predicate Indexed(st: State, values: seq<string>, s: string, k: string) {
    && Get(st, s, k) == (if values == [] then None else Some(values[0]))
    && (OnCopy(st, s, k) ==> values != [])
    && (LiveOn(st, s, k) <==> OnCopy(st, s, k) && |values| == 1)
  }

  lemma IndexedStep(st: State, i: nat, kind: Line, values: seq<string>, s: string, k: string)
    requires Sound(st) && Indexed(st, values, s, k)
    ensures Indexed(Step(st, i, kind), ValuesStep(values, st, kind, s, k), s, k)
  {
    hide Step;
    StepOption(st, i, kind, s, k);
    StepPlaceAndKey(st, i, kind);
  }

  lemma {:induction false} ValuesIndexed(kinds: seq<Line>, n: nat, s: string, k: string)
    requires n <= |kinds|
    ensures Indexed(After(kinds, n), Values(kinds, n, s, k), s, k)
    ensures |Values(kinds, n, s, k)| == Copies(kinds, n, s, k)
    decreases n
  {
    hide Step, Indexed, Adds;
    if n == 0 {
      NothingIndexed(s, k);
    } else {
      ValuesIndexed(kinds, n - 1, s, k);
      IndexedStep(After(kinds, n - 1), n - 1, kinds[n - 1], Values(kinds, n - 1, s, k), s, k);
    }
  }

  lemma NothingIndexed(s: string, k: string)
    ensures Indexed(START, [], s, k)
  {
  }

  // ----- the lines after an edit -----

  lemma AlikeValues(a: State, b: State, kind: Line, values: seq<string>, s: string, k: string, t: string, q: string)
    requires Alike(a, b, s, k) && (t != s || q != k)
    requires OnAlike(a, b, s, k) || !kind.Folds()
    ensures ValuesStep(values, a, kind, t, q) == ValuesStep(values, b, kind, t, q)
  {
  }

  // The same lines give every other key the same values.
  lemma {:induction false} OtherValues(x: seq<Line>, y: seq<Line>, i: nat, j: nat, m: nat, s: string, k: string,
                                       t: string, q: string)
    requires i + m <= |x| && j + m <= |y| && x[i..i + m] == y[j..j + m]
    requires Alike(After(x, i), After(y, j), s, k)
    requires OnAlike(After(x, i), After(y, j), s, k) || m == 0 || !x[i].Folds()
    requires (t != s || q != k) && Values(x, i, t, q) == Values(y, j, t, q)
    ensures Values(x, i + m, t, q) == Values(y, j + m, t, q)
    decreases m
  {
    hide Step, ValuesStep, Alike, OnAlike;
    if m > 0 {
      SameInit(x, y, i, j, m);
      OtherValues(x, y, i, j, m - 1, s, k, t, q);
      AlikeRun(x, y, i, j, m - 1, s, k);
      AlikeValues(After(x, i + m - 1), After(y, j + m - 1), x[i + m - 1], Values(x, i + m - 1, t, q), s, k, t, q);
    }
  }

  // Some values of a key, and then the same others on both sides.
  ghost predicate SameLater(p: seq<string>, q: seq<string>, x: seq<string>, y: seq<string>) {
    && |x| >= |p| && |y| >= |q| && x[..|p|] == p && y[..|q|] == q && x[|p|..] == y[|q|..]
  }

  // In the lines since, the key was met again if the parser is inside a copy of it.
  ghost predicate MetSince(p: seq<string>, x: seq<string>, st: State, s: string, k: string) {
    OnCopy(st, s, k) ==> |x| > |p|
  }

  lemma LaterStep(p: seq<string>, q: seq<string>, x: seq<string>, y: seq<string>, a: State, b: State, kind: Line,
                  s: string, k: string)
    requires SameLater(p, q, x, y) && Alike(a, b, s, k)
    requires (OnAlike(a, b, s, k) && MetSince(p, x, a, s, k)) || !kind.Folds()
    ensures SameLater(p, q, ValuesStep(x, a, kind, s, k), ValuesStep(y, b, kind, s, k))
  {
    var x', y' := ValuesStep(x, a, kind, s, k), ValuesStep(y, b, kind, s, k);
    assert |x| - |p| == |x[|p|..]| == |y[|q|..]| == |y| - |q|;
    if OnCopy(a, s, k) && kind.More? && kind.item != "" && x != [] {
      assert x[|x| - 1] == x[|p|..][|x| - |p| - 1] == y[|q|..][|x| - |p| - 1] == y[|y| - 1];
      assert x'[|p|..] == y'[|q|..];
    }
  }

  lemma MetStep(p: seq<string>, x: seq<string>, st: State, i: nat, kind: Line, s: string, k: string)
    requires Sound(st) && |x| >= |p| && (MetSince(p, x, st, s, k) || !kind.Folds())
    ensures MetSince(p, ValuesStep(x, st, kind, s, k), Step(st, i, kind), s, k)
  {
    hide Step;
    StepPlaceAndKey(st, i, kind);
  }

  // After an edit of (s, k), read on over the same lines: the later values are the same.
  lemma {:induction false} LaterValues(x: seq<Line>, y: seq<Line>, i: nat, j: nat, m: nat, s: string, k: string)
    requires i + m <= |x| && j + m <= |y| && x[i..i + m] == y[j..j + m]
    requires Alike(After(x, i), After(y, j), s, k) && (m == 0 || !x[i].Folds())
    ensures SameLater(Values(x, i, s, k), Values(y, j, s, k), Values(x, i + m, s, k), Values(y, j + m, s, k))
    ensures m > 0 ==> MetSince(Values(x, i, s, k), Values(x, i + m, s, k), After(x, i + m), s, k)
    decreases m
  {
    hide Step, ValuesStep, Alike, OnAlike, SameLater, MetSince;
    if m == 0 {
      NothingLater(Values(x, i, s, k), Values(y, j, s, k));
    } else {
      SameInit(x, y, i, j, m);
      LaterValues(x, y, i, j, m - 1, s, k);
      AlikeRun(x, y, i, j, m - 1, s, k);
      var a, b, kind := After(x, i + m - 1), After(y, j + m - 1), x[i + m - 1];
      var p, q := Values(x, i, s, k), Values(y, j, s, k);
      LaterStep(p, q, Values(x, i + m - 1, s, k), Values(y, j + m - 1, s, k), a, b, kind, s, k);
      LaterIsMore(p, q, Values(x, i + m - 1, s, k), Values(y, j + m - 1, s, k));
      MetStep(p, Values(x, i + m - 1, s, k), a, i + m - 1, kind, s, k);
    }
  }

  lemma NothingLater(p: seq<string>, q: seq<string>)
    ensures SameLater(p, q, p, q)
  {
  }

  lemma LaterIsMore(p: seq<string>, q: seq<string>, x: seq<string>, y: seq<string>)
    requires SameLater(p, q, x, y)
    ensures |x| >= |p|
  {
  }

  // ----- an edit of one key -----

  predicate NoneOrBlock(block: seq<Line>, k: string) { block == [] || IsBlock(block, k) }

  function ValueOfBlock(block: seq<Line>): seq<string>
    requires block != [] ==> block[0].Entry?
  {
    if block == [] then [] else [BlockValue(block)]
  }

  // A block gives its key one value, and leaves the rest alike.
  lemma BlockGives(kinds: seq<Line>, n: nat, block: seq<Line>, s: string, k: string)
    requires n + |block| <= |kinds| && kinds[n..n + |block|] == block && NoneOrBlock(block, k)
    requires LiveAt(After(kinds, n), s) && Get(After(kinds, n), s, k).None?
    ensures Alike(After(kinds, n), After(kinds, n + |block|), s, k)
    ensures Values(kinds, n, s, k) == [] && Values(kinds, n + |block|, s, k) == ValueOfBlock(block)
  {
    hide After, BlockValue, Copies, Values;
    ValuesIndexed(kinds, n, s, k);
    if block != [] {
      BlockRead(kinds, n, block, s, k);
      BlockCopies(kinds, n, block, s, k, s, k);
      ValuesIndexed(kinds, n + |block|, s, k);
      One(Values(kinds, n + |block|, s, k), BlockValue(block));
    }
  }

  lemma One(values: seq<string>, v: string)
    requires |values| == 1 && values[0] == v
    ensures values == [v]
  {
  }

  lemma {:induction false} BlockGivesOthers(kinds: seq<Line>, n: nat, block: seq<Line>, s: string, k: string,
                                            t: string, q: string)
    requires n + |block| <= |kinds| && kinds[n..n + |block|] == block && NoneOrBlock(block, k)
    requires LiveAt(After(kinds, n), s) && (t != s || q != k)
    ensures Values(kinds, n + |block|, t, q) == Values(kinds, n, t, q)
    ensures LiveAt(After(kinds, n + |block|), s) && (block != [] ==> OnCopy(After(kinds, n + |block|), s, k))
    decreases |block|
  {
    hide Step, LiveAt, OnCopy, ValuesStep;
    if block != [] {
      var m := |block| - 1;
      assert kinds[n + m] == block[m];
      assert kinds[n..n + m] == block[..m];
      BlockGivesOthers(kinds, n, block[..m], s, k, t, q);
      BlockStep(After(kinds, n + m), n + m, block[m], Values(kinds, n + m, t, q), s, k, t, q);
    }
  }

  // A line of a block for k, read in section s.
  lemma BlockStep(st: State, i: nat, kind: Line, values: seq<string>, s: string, k: string, t: string, q: string)
    requires Sound(st) && LiveAt(st, s) && (t != s || q != k)
    requires (kind.Entry? && kind.key == k) || (OnCopy(st, s, k) && kind.Folds())
    ensures ValuesStep(values, st, kind, t, q) == values
    ensures LiveAt(Step(st, i, kind), s) && OnCopy(Step(st, i, kind), s, k)
  {
    hide Step;
    StepPlaceAndKey(st, i, kind);
  }

  // Some lines that are one option, or none, replaced by others for the same key.
  ghost predicate CanEdit(was: seq<Line>, start: nat, end: nat, block: seq<Line>, s: string, k: string) {
    && start <= end <= |was| && NoneOrBlock(was[start..end], k) && NoneOrBlock(block, k)
    && LiveAt(After(was, start), s) && Get(After(was, start), s, k).None?
    && (end < |was| ==> !was[end].Folds())
  }

  // The edited key: its new first value, or none, and then the values that were ignored.
  // Every other key: its values as they were.
  lemma EditedValues(was: seq<Line>, start: nat, end: nat, block: seq<Line>, s: string, k: string)
    requires CanEdit(was, start, end, block, s, k)
    ensures var now := Splice(was, start, end, block);
            && SameLater(ValueOfBlock(was[start..end]), ValueOfBlock(block), Values(was, |was|, s, k),
               Values(now, |now|, s, k))
            && forall t, q | t != s || q != k :: Values(now, |now|, t, q) == Values(was, |was|, t, q)
  {
    hide After, Values, BlockValue, IsBlock, Alike, SameLater;
    var now, mid := Splice(was, start, end, block), start + |block|;
    EditedTail(was, start, end, block, s, k);
    LaterValues(was, now, end, mid, |was| - end, s, k);
    forall t, q | t != s || q != k ensures Values(now, |now|, t, q) == Values(was, |was|, t, q) {
      EditedOthers(was, start, end, block, s, k, t, q);
    }
  }

  lemma EditedTail(was: seq<Line>, start: nat, end: nat, block: seq<Line>, s: string, k: string)
    requires CanEdit(was, start, end, block, s, k)
    ensures var now, mid := Splice(was, start, end, block), start + |block|;
            && |now| - mid == |was| - end && was[end..|was|] == now[mid..|now|]
            && Alike(After(was, end), After(now, mid), s, k)
            && Values(was, end, s, k) == ValueOfBlock(was[start..end]) && Values(now, mid, s, k) == ValueOfBlock(block)
  {
    hide After, Values, BlockValue, IsBlock, Alike;
    var now, mid := Splice(was, start, end, block), start + |block|;
    SpliceParts(was, start, end, block);
    BlockGives(was, start, was[start..end], s, k);
    BlockGives(now, start, block, s, k);
    BothAlike(After(was, start), After(was, end), After(now, mid), s, k);
    assert was[end..|was|] == was[end..] == now[mid..] == now[mid..|now|];
  }

  lemma BothAlike(st: State, a: State, b: State, s: string, k: string)
    requires Alike(st, a, s, k) && Alike(st, b, s, k)
    ensures Alike(a, b, s, k)
  {
    forall t, q | t != s || q != k ensures Get(a, t, q) == Get(b, t, q) { assert Get(st, t, q) == Get(a, t, q); }
  }

  lemma EditedOthers(was: seq<Line>, start: nat, end: nat, block: seq<Line>, s: string, k: string, t: string, q: string)
    requires CanEdit(was, start, end, block, s, k) && (t != s || q != k)
    ensures var now := Splice(was, start, end, block); Values(now, |now|, t, q) == Values(was, |was|, t, q)
  {
    hide After, Values, BlockValue, IsBlock, Alike, OnAlike;
    var now, mid := Splice(was, start, end, block), start + |block|;
    EditedTail(was, start, end, block, s, k);
    SpliceParts(was, start, end, block);
    BlockGivesOthers(was, start, was[start..end], s, k, t, q);
    BlockGivesOthers(now, start, block, s, k, t, q);
    ValuesPrefix(was, now, start, t, q);
    OtherValues(was, now, end, mid, |was| - end, s, k, t, q);
  }
}
