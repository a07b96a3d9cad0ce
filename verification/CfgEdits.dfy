// What an edit of a few lines does to every value the document gives.

module CfgEdits {
  import opened Text
  import opened CfgSyntax
  import opened CfgParse

  // ----- two parses that may differ in one value -----

  ghost predicate Alike(a: State, b: State, s: string, k: string) {
    && a.place == b.place && a.duplicates == b.duplicates && a.sections.Keys == b.sections.Keys
    && forall t, q | t != s || q != k :: Get(a, t, q) == Get(b, t, q)
  }

  // Both are inside the same option, or both inside copies of the excepted one.
  ghost predicate OnAlike(a: State, b: State, s: string, k: string) {
    a.on == b.on || (LiveAt(a, s) && a.on.Key? && b.on.Key? && a.on.key == k == b.on.key)
  }

  lemma AlikeStep(a: State, b: State, i: nat, j: nat, kind: Line, s: string, k: string)
    requires Sound(a) && Sound(b) && Alike(a, b, s, k)
    requires OnAlike(a, b, s, k) || !kind.Folds()
    ensures var a', b' := Step(a, i, kind), Step(b, j, kind); Alike(a', b', s, k) && OnAlike(a', b', s, k)
  {
    hide Step;
    StepPlaceAndKey(a, i, kind);
    StepPlaceAndKey(b, j, kind);
    forall t, q | t != s || q != k ensures Get(Step(a, i, kind), t, q) == Get(Step(b, j, kind), t, q) {
      StepOption(a, i, kind, t, q);
      StepOption(b, j, kind, t, q);
      assert Get(a, t, q) == Get(b, t, q);
    }
    if kind.Entry? && a.place.At? && (a.place.name != s || kind.key != k) {
      assert Get(a, a.place.name, kind.key) == Get(b, a.place.name, kind.key);
    }
  }

  // How many lines among the first n give key k in the section that answers to s.
  function Copies(kinds: seq<Line>, n: nat, s: string, k: string): nat
    requires n <= |kinds|
    decreases n
  {
    if n == 0 then 0
    else Copies(kinds, n - 1, s, k) + if Adds(After(kinds, n - 1), kinds[n - 1], s, k) then 1 else 0
  }

  function Count(kinds: seq<Line>, s: string, k: string): nat { Copies(kinds, |kinds|, s, k) }

  lemma {:induction false} CopiesPrefix(a: seq<Line>, b: seq<Line>, n: nat, s: string, k: string)
    requires n <= |a| && n <= |b| && a[..n] == b[..n]
    ensures Copies(a, n, s, k) == Copies(b, n, s, k)
    decreases n
  {
    if n > 0 {
      assert a[..n - 1] == a[..n][..n - 1] == b[..n][..n - 1] == b[..n - 1];
      assert a[n - 1] == a[..n][n - 1] == b[n - 1];
      AfterPrefix(a, b, n - 1);
      CopiesPrefix(a, b, n - 1, s, k);
    }
  }

  // A key has a value exactly when some line gives it one.
  lemma {:induction false} ValueIffCopies(kinds: seq<Line>, n: nat, s: string, k: string)
    requires n <= |kinds|
    ensures Get(After(kinds, n), s, k).Some? <==> Copies(kinds, n, s, k) > 0
    decreases n
  {
    hide Step;
    if n > 0 {
      ValueIffCopies(kinds, n - 1, s, k);
      StepOption(After(kinds, n - 1), n - 1, kinds[n - 1], s, k);
    }
  }

  // The same lines read from alike states leave alike states and count the same keys.
  lemma {:induction false} AlikeRun(x: seq<Line>, y: seq<Line>, i: nat, j: nat, m: nat, s: string, k: string)
    requires i + m <= |x| && j + m <= |y| && x[i..i + m] == y[j..j + m]
    requires Alike(After(x, i), After(y, j), s, k)
    requires OnAlike(After(x, i), After(y, j), s, k) || m == 0 || !x[i].Folds()
    ensures Alike(After(x, i + m), After(y, j + m), s, k)
    ensures OnAlike(After(x, i), After(y, j), s, k) || m > 0 ==> OnAlike(After(x, i + m), After(y, j + m), s, k)
    decreases m
  {
    hide Step;
    if m > 0 {
      var n := m - 1;
      SameInit(x, y, i, j, m);
      AlikeRun(x, y, i, j, n, s, k);
      var a, b := After(x, i + n), After(y, j + n);
      AlikeStep(a, b, i + n, j + n, x[i + n], s, k);
      assert After(x, i + m) == Step(a, i + n, x[i + n]);
      assert After(y, j + m) == Step(b, j + n, x[i + n]);
    }
  }

  lemma SameInit(x: seq<Line>, y: seq<Line>, i: nat, j: nat, m: nat)
    requires m > 0 && i + m <= |x| && j + m <= |y| && x[i..i + m] == y[j..j + m]
    ensures x[i..i + m - 1] == y[j..j + m - 1] && x[i + m - 1] == y[j + m - 1]
    ensures x[i] == y[j]
  {
    var a, b := x[i..i + m], y[j..j + m];
    assert a[m - 1] == x[i + m - 1] && b[m - 1] == y[j + m - 1] && a[0] == x[i] && b[0] == y[j];
    var a', b' := x[i..i + m - 1], y[j..j + m - 1];
    forall q | 0 <= q < m - 1 ensures a'[q] == b'[q] {
      assert a[q] == x[i + q] && b[q] == y[j + q];
    }
  }

  lemma {:induction false} AlikeCopies(x: seq<Line>, y: seq<Line>, i: nat, j: nat, m: nat, s: string, k: string,
                                       t: string, q: string)
    requires i + m <= |x| && j + m <= |y| && x[i..i + m] == y[j..j + m]
    requires Alike(After(x, i), After(y, j), s, k)
    requires OnAlike(After(x, i), After(y, j), s, k) || m == 0 || !x[i].Folds()
    ensures Copies(x, i + m, t, q) - Copies(x, i, t, q) == Copies(y, j + m, t, q) - Copies(y, j, t, q)
    decreases m
  {
    hide Step;
    if m > 0 {
      SameInit(x, y, i, j, m);
      AlikeCopies(x, y, i, j, m - 1, s, k, t, q);
      AlikeRun(x, y, i, j, m - 1, s, k);
    }
  }

  // Once the parser has left an option, or met a line that does not fold into it, its
  // value never changes again.
  lemma {:induction false} ValueStays(kinds: seq<Line>, n: nat, m: nat, s: string, k: string)
    requires n <= m <= |kinds|
    requires Get(After(kinds, n), s, k).Some?
    requires !LiveOn(After(kinds, n), s, k) || n == m || !kinds[n].Folds()
    ensures Get(After(kinds, m), s, k) == Get(After(kinds, n), s, k)
    ensures !LiveOn(After(kinds, n), s, k) || n < m ==> !LiveOn(After(kinds, m), s, k)
    decreases m
  {
    hide Step;
    if n < m {
      ValueStays(kinds, n, m - 1, s, k);
      StepOption(After(kinds, m - 1), m - 1, kinds[m - 1], s, k);
    }
  }

  lemma {:induction false} CopiesGrow(kinds: seq<Line>, n: nat, m: nat, s: string, k: string)
    requires n <= m <= |kinds|
    ensures Copies(kinds, n, s, k) <= Copies(kinds, m, s, k)
    decreases m
  {
    if n < m { CopiesGrow(kinds, n, m - 1, s, k); }
  }

  // A block counts as one copy of its key and none of any other.
  lemma {:induction false} BlockCopies(kinds: seq<Line>, n: nat, block: seq<Line>, s: string, k: string,
                                       t: string, q: string)
    requires n + |block| <= |kinds| && kinds[n..n + |block|] == block
    requires IsBlock(block, k) && LiveAt(After(kinds, n), s)
    ensures Copies(kinds, n + |block|, t, q) == Copies(kinds, n, t, q) + if t == s && q == k then 1 else 0
    ensures LiveAt(After(kinds, n + |block|), s)
    decreases |block|
  {
    hide Step, LiveAt, Adds;
    var m := |block| - 1;
    assert kinds[n + m] == block[m];
    if m > 0 {
      assert kinds[n..n + m] == block[..m];
      BlockCopies(kinds, n, block[..m], s, k, t, q);
    }
    BlockAdds(After(kinds, n + m), n + m, block[m], s, t, q);
  }

  // A line of a block, read in section s: an entry adds its own key there, and no other line
  // adds any.
  lemma BlockAdds(st: State, i: nat, kind: Line, s: string, t: string, q: string)
    requires Sound(st) && LiveAt(st, s) && (kind.Entry? || kind.Folds())
    ensures Adds(st, kind, t, q) <==> kind.Entry? && t == s && q == kind.key
    ensures LiveAt(Step(st, i, kind), s)
  {
    hide Step;
    StepPlaceAndKey(st, i, kind);
  }

  // ----- the three edits -----

  ghost predicate SameCopies(x: seq<Line>, i: nat, y: seq<Line>, j: nat, s: string, k: string)
    requires i <= |x| && j <= |y|
  {
    forall t, q | t != s || q != k :: Copies(x, i, t, q) == Copies(y, j, t, q)
  }

  // Nothing but (s, k) reads or counts differently.
  ghost predicate OnlyEdits(was: seq<Line>, now: seq<Line>, s: string, k: string) {
    Alike(Final(was), Final(now), s, k) && SameCopies(was, |was|, now, |now|, s, k)
  }

  function Splice(kinds: seq<Line>, start: nat, end: nat, block: seq<Line>): seq<Line>
    requires start <= end <= |kinds|
  {
    kinds[..start] + block + kinds[end..]
  }

  lemma SpliceParts(kinds: seq<Line>, start: nat, end: nat, block: seq<Line>)
    requires start <= end <= |kinds|
    ensures var now := Splice(kinds, start, end, block);
            && now[..start] == kinds[..start] && now[start..start + |block|] == block
            && |now| == start + |block| + (|kinds| - end)
            && now[start + |block|..] == kinds[end..]
            && After(now, start) == After(kinds, start)
            && forall t, q :: Copies(now, start, t, q) == Copies(kinds, start, t, q)
  {
    var now := Splice(kinds, start, end, block);
    assert now[..start] == kinds[..start];
    AfterPrefix(now, kinds, start);
    forall t, q ensures Copies(now, start, t, q) == Copies(kinds, start, t, q) {
      CopiesPrefix(now, kinds, start, t, q);
    }
  }

  predicate HasOption(kinds: seq<Line>, s: string, k: string) { Get(Final(kinds), s, k).Some? }

  function OptionOf(kinds: seq<Line>, s: string, k: string): (opt: Opt)
    requires HasOption(kinds, s, k)
    ensures opt.start < opt.end <= |kinds|
  {
    OptionsPlaced(kinds, |kinds|, s, k);
    Final(kinds).sections[s].options[k]
  }

  lemma KeptCopies(x: seq<Line>, y: seq<Line>, i: nat, j: nat, m: nat, s: string, k: string)
    requires i + m <= |x| && j + m <= |y| && x[i..i + m] == y[j..j + m]
    requires Alike(After(x, i), After(y, j), s, k)
    requires OnAlike(After(x, i), After(y, j), s, k) || m == 0 || !x[i].Folds()
    requires SameCopies(x, i, y, j, s, k)
    ensures SameCopies(x, i + m, y, j + m, s, k)
  {
    var p, r := i + m, j + m;
    forall t, q | t != s || q != k ensures Copies(x, p, t, q) == Copies(y, r, t, q) {
      AlikeCopies(x, y, i, j, m, s, k, t, q);
    }
  }

  // Alike states before the kept tail leave documents that differ at (s, k) alone.
  lemma KeptTail(was: seq<Line>, now: seq<Line>, i: nat, j: nat, s: string, k: string)
    requires i <= |was| && j <= |now| && was[i..] == now[j..]
    requires Alike(After(was, i), After(now, j), s, k)
    requires OnAlike(After(was, i), After(now, j), s, k) || i == |was| || !was[i].Folds()
    requires SameCopies(was, i, now, j, s, k)
    ensures OnlyEdits(was, now, s, k)
    ensures Count(was, s, k) - Copies(was, i, s, k) == Count(now, s, k) - Copies(now, j, s, k)
  {
    hide After, Copies;
    var m := |was| - i;
    assert |was[i..]| == |now[j..]|;
    assert was[i..i + m] == was[i..] == now[j..] == now[j..j + m];
    AlikeRun(was, now, i, j, m, s, k);
    AlikeCopies(was, now, i, j, m, s, k, s, k);
    KeptCopies(was, now, i, j, m, s, k);
  }

  // Two blocks for one key, read from the same place, differ in that key alone.
  lemma AfterBlocks(was: seq<Line>, now: seq<Line>, n: nat, x: seq<Line>, y: seq<Line>, s: string, k: string)
    requires n + |x| <= |was| && was[n..n + |x|] == x && IsBlock(x, k)
    requires n + |y| <= |now| && now[n..n + |y|] == y && IsBlock(y, k)
    requires was[..n] == now[..n]
    requires LiveAt(After(was, n), s) && Get(After(was, n), s, k).None?
    ensures Alike(After(was, n + |x|), After(now, n + |y|), s, k)
    ensures LiveOn(After(was, n + |x|), s, k) && LiveOn(After(now, n + |y|), s, k)
    ensures Get(After(now, n + |y|), s, k) == Some(BlockValue(y))
    ensures SameCopies(was, n + |x|, now, n + |y|, s, k)
    ensures Copies(was, n + |x|, s, k) == Copies(now, n + |y|, s, k)
  {
    AfterPrefix(was, now, n);
    BlockRead(was, n, x, s, k);
    BlockRead(now, n, y, s, k);
    CountBlocks(was, now, n, x, y, s, k);
  }

  lemma CountBlocks(was: seq<Line>, now: seq<Line>, n: nat, x: seq<Line>, y: seq<Line>, s: string, k: string)
    requires n + |x| <= |was| && was[n..n + |x|] == x && IsBlock(x, k)
    requires n + |y| <= |now| && now[n..n + |y|] == y && IsBlock(y, k)
    requires was[..n] == now[..n] && LiveAt(After(was, n), s)
    ensures SameCopies(was, n + |x|, now, n + |y|, s, k)
    ensures Copies(was, n + |x|, s, k) == Copies(now, n + |y|, s, k)
  {
    AfterPrefix(was, now, n);
    CountSpan(was, n, x, was, s, k);
    CountSpan(now, n, y, was, s, k);
  }

  // Replacing the lines of an option by another block for the same key.
  lemma ReplaceOption(was: seq<Line>, s: string, k: string, block: seq<Line>)
    requires HasOption(was, s, k) && IsBlock(block, k)
    ensures var opt := OptionOf(was, s, k);
            var now := Splice(was, opt.start, opt.end, block);
            && OnlyEdits(was, now, s, k)
            && Get(Final(now), s, k) == Some(BlockValue(block))
            && Count(now, s, k) == Count(was, s, k)
  {
    hide After, Copies, BlockValue, IsBlock, Alike, OnAlike;
    OptionsPlaced(was, |was|, s, k);
    var opt := OptionOf(was, s, k);
    var now := Splice(was, opt.start, opt.end, block);
    var mid := opt.start + |block|;
    SpliceParts(was, opt.start, opt.end, block);
    AfterBlocks(was, now, opt.start, was[opt.start..opt.end], block, s, k);
    assert opt.start + |was[opt.start..opt.end]| == opt.end;
    TailHead(was, opt.end, now, mid);
    KeptTail(was, now, opt.end, mid, s, k);
    ValueStays(now, mid, |now|, s, k);
  }

  // With and without a block: only its own key counts one more.
  lemma CountSpan(has: seq<Line>, n: nat, block: seq<Line>, lacks: seq<Line>, s: string, k: string)
    requires n + |block| <= |has| && has[n..n + |block|] == block && n <= |lacks| && has[..n] == lacks[..n]
    requires IsBlock(block, k) && LiveAt(After(has, n), s)
    ensures SameCopies(has, n + |block|, lacks, n, s, k) && SameCopies(lacks, n, has, n + |block|, s, k)
    ensures Copies(has, n + |block|, s, k) == Copies(lacks, n, s, k) + 1
  {
    var i := n + |block|;
    forall t, q ensures Copies(has, i, t, q) == Copies(lacks, n, t, q) + if t == s && q == k then 1 else 0 {
      CopiesPrefix(has, lacks, n, t, q);
      BlockCopies(has, n, block, s, k, t, q);
    }
  }

  lemma TailHead(x: seq<Line>, i: nat, y: seq<Line>, j: nat)
    requires i <= |x| && j <= |y| && x[i..] == y[j..]
    ensures |x| - i == |y| - j
    ensures i < |x| ==> x[i] == y[j]
  {
    assert |x[i..]| == |y[j..]|;
    if i < |x| { assert x[i] == x[i..][0] == y[j..][0] == y[j]; }
  }

  // Deleting the lines of an option: the key is gone exactly when no other line gave it.
  lemma DeleteOption(was: seq<Line>, s: string, k: string)
    requires HasOption(was, s, k)
    ensures var opt := OptionOf(was, s, k);
            var now := Splice(was, opt.start, opt.end, []);
            && OnlyEdits(was, now, s, k)
            && Count(now, s, k) == Count(was, s, k) - 1
            && (Get(Final(now), s, k).None? <==> Count(was, s, k) == 1)
  {
    hide After, Copies, BlockValue;
    OptionsPlaced(was, |was|, s, k);
    var opt := OptionOf(was, s, k);
    var now := Splice(was, opt.start, opt.end, []);
    SpliceParts(was, opt.start, opt.end, []);
    BlockRead(was, opt.start, was[opt.start..opt.end], s, k);
    CountSpan(was, opt.start, was[opt.start..opt.end], now, s, k);
    KeptTail(was, now, opt.end, opt.start, s, k);
    ValueIffCopies(now, |now|, s, k);
  }

  // A place inside a section with nothing but blank lines up to its end.
  ghost predicate InsertPoint(kinds: seq<Line>, s: string, at: nat)
    requires s in Final(kinds).sections
  {
    var sec := Final(kinds).sections[s];
    sec.header < at <= sec.end <= |kinds| && forall j | at <= j < sec.end :: kinds[j].Blank?
  }

  lemma InsertHere(kinds: seq<Line>, s: string, k: string, at: nat)
    requires s in Final(kinds).sections && InsertPoint(kinds, s, at)
    ensures at <= |kinds| && LiveAt(After(kinds, at), s)
    ensures at < |kinds| ==> !kinds[at].Folds()
    ensures !HasOption(kinds, s, k) ==>
              Get(After(kinds, at), s, k).None? && Copies(kinds, at, s, k) == 0 == Count(kinds, s, k)
  {
    SectionsPlaced(kinds, |kinds|, s);
    ValueIffCopies(kinds, |kinds|, s, k);
    CopiesGrow(kinds, at, |kinds|, s, k);
    ValueIffCopies(kinds, at, s, k);
  }

  // Inserting a block for a key the section does not have.
  lemma InsertOption(was: seq<Line>, s: string, k: string, at: nat, block: seq<Line>)
    requires s in Final(was).sections && !HasOption(was, s, k)
    requires InsertPoint(was, s, at) && IsBlock(block, k)
    ensures at <= |was|
    ensures var now := Splice(was, at, at, block);
            && OnlyEdits(was, now, s, k)
            && Get(Final(now), s, k) == Some(BlockValue(block))
            && Count(now, s, k) == 1
  {
    hide After, Copies, BlockValue, IsBlock, InsertPoint;
    InsertHere(was, s, k, at);
    var now := Splice(was, at, at, block);
    var mid := at + |block|;
    SpliceParts(was, at, at, block);
    BlockRead(now, at, block, s, k);
    CountSpan(now, at, block, was, s, k);
    TailHead(was, at, now, mid);
    KeptTail(was, now, at, mid, s, k);
    ValueStays(now, mid, |now|, s, k);
  }

  // A blank last line says nothing.
  lemma DropBlank(was: seq<Line>)
    requires was != [] && was[|was| - 1].Blank?
    ensures var less := was[..|was| - 1];
            && Final(less).sections.Keys == Final(was).sections.Keys
            && Final(less).duplicates == Final(was).duplicates
            && forall t, q :: Get(Final(less), t, q) == Get(Final(was), t, q) && Count(less, t, q) == Count(was, t, q)
  {
    var n := |was| - 1;
    var less := was[..n];
    assert less[..n] == was[..n];
    AfterPrefix(less, was, n);
    StepPlaceAndKey(After(was, n), n, was[n]);
    forall t, q ensures Get(Final(less), t, q) == Get(Final(was), t, q) && Count(less, t, q) == Count(was, t, q) {
      CopiesPrefix(less, was, n, t, q);
      StepOption(After(was, n), n, was[n], t, q);
    }
  }

  // A new section at the end gives nothing and takes nothing.
  lemma AppendHeader(was: seq<Line>, s: string)
    requires s !in Final(was).sections
    ensures var now := was + [Header(s)];
            && Final(now).sections.Keys == Final(was).sections.Keys + {s}
            && Final(now).duplicates == Final(was).duplicates
            && Final(now).sections[s] == Sec(|was|, |now|, map[])
            && forall t, q :: Get(Final(now), t, q) == Get(Final(was), t, q) && Count(now, t, q) == Count(was, t, q)
  {
    var n := |was|;
    var now := was + [Header(s)];
    assert now[..n] == was[..n];
    AfterPrefix(now, was, n);
    StepPlaceAndKey(After(now, n), n, now[n]);
    forall t, q ensures Get(Final(now), t, q) == Get(Final(was), t, q) && Count(now, t, q) == Count(was, t, q) {
      CopiesPrefix(now, was, n, t, q);
      StepOption(After(now, n), n, now[n], t, q);
    }
  }
}
