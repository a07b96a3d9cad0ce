// The keys of a section in the order of their lines, and what an edit does to that order.

module CfgOrder {
  import opened Text
  import opened CfgSyntax
  import opened CfgParse
  import opened CfgEdits
  import opened CfgValues

  function KeysStep(before: seq<string>, st: State, kind: Line, s: string): seq<string> {
    if LiveAt(st, s) && kind.Entry? && Get(st, s, kind.key).None? then before + [kind.key] else before
  }

  // The keys the first n lines put into section s, as they were put there.
  function KeysIn(kinds: seq<Line>, n: nat, s: string): seq<string>
    requires n <= |kinds|
    decreases n
  {
    if n == 0 then [] else KeysStep(KeysIn(kinds, n - 1, s), After(kinds, n - 1), kinds[n - 1], s)
  }

  lemma {:induction false} KeysPrefix(a: seq<Line>, b: seq<Line>, n: nat, s: string)
    requires n <= |a| && n <= |b| && a[..n] == b[..n]
    ensures KeysIn(a, n, s) == KeysIn(b, n, s)
    decreases n
  {
    if n > 0 {
      assert a[..n - 1] == a[..n][..n - 1] == b[..n][..n - 1] == b[..n - 1];
      assert a[n - 1] == a[..n][n - 1] == b[n - 1];
      AfterPrefix(a, b, n - 1);
      KeysPrefix(a, b, n - 1, s);
    }
  }

  function LineOf(st: State, s: string, k: string): nat {
    if s in st.sections && k in st.sections[s].options then st.sections[s].options[k].start else 0
  }

  // They are the section's keys, each once, and their lines come in that order.
  ghost predicate Ordered(st: State, keys: seq<string>, n: nat, s: string) {
    && (forall k :: k in keys <==> Get(st, s, k).Some?)
    && (forall i | 0 <= i < |keys| :: LineOf(st, s, keys[i]) < n)
    && (forall i, j | 0 <= i < j < |keys| :: LineOf(st, s, keys[i]) < LineOf(st, s, keys[j]))
  }

  lemma OrderedStep(st: State, i: nat, kind: Line, keys: seq<string>, s: string)
    requires Sound(st) && Ordered(st, keys, i, s)
    ensures Ordered(Step(st, i, kind), KeysStep(keys, st, kind, s), i + 1, s)
  {
    hide Step;
    var next, keys' := Step(st, i, kind), KeysStep(keys, st, kind, s);
    forall k ensures k in keys' <==> Get(next, s, k).Some? { StepOption(st, i, kind, s, k); }
    forall j | 0 <= j < |keys'|
      ensures LineOf(next, s, keys'[j]) == if j < |keys| then LineOf(st, s, keys[j]) else i
    {
      assert j < |keys| ==> keys'[j] == keys[j] && keys[j] in keys;
      StepOption(st, i, kind, s, keys'[j]);
    }
  }

  lemma {:induction false} KeysOrdered(kinds: seq<Line>, n: nat, s: string)
    requires n <= |kinds|
    ensures Ordered(After(kinds, n), KeysIn(kinds, n, s), n, s)
    decreases n
  {
    hide Step, Ordered, KeysStep;
    if n == 0 {
      NothingOrdered(s);
    } else {
      KeysOrdered(kinds, n - 1, s);
      OrderedStep(After(kinds, n - 1), n - 1, kinds[n - 1], KeysIn(kinds, n - 1, s), s);
    }
  }

  lemma NothingOrdered(s: string)
    ensures Ordered(START, [], 0, s)
  {
  }

  lemma KeysAre(kinds: seq<Line>, n: nat, s: string, k: string)
    requires n <= |kinds|
    ensures k in KeysIn(kinds, n, s) <==> Get(After(kinds, n), s, k).Some?
  {
    KeysOrdered(kinds, n, s);
  }

  // ----- an edit of one key -----

  function Minus(keys: seq<string>, k: string): (r: seq<string>) {
    if keys == [] then []
    else
      var before, last := Minus(keys[..|keys| - 1], k), keys[|keys| - 1];
      if last == k then before else before + [last]
  }

  lemma MinusNext(keys: seq<string>, key: string, k: string)
    ensures Minus(keys + [key], k) == if key == k then Minus(keys, k) else Minus(keys, k) + [key]
  {
    assert (keys + [key])[..|keys|] == keys;
  }

  lemma SameKeysStep(a: State, b: State, kind: Line, x: seq<string>, y: seq<string>, s: string, k: string)
    requires Alike(a, b, s, k) && Minus(x, k) == Minus(y, k)
    ensures Minus(KeysStep(x, a, kind, s), k) == Minus(KeysStep(y, b, kind, s), k)
    ensures x == y && Get(a, s, k).Some? && Get(b, s, k).Some? ==> KeysStep(x, a, kind, s) == KeysStep(y, b, kind, s)
  {
    hide Minus, Get;
    if kind.Entry? {
      MinusNext(x, kind.key, k);
      MinusNext(y, kind.key, k);
      assert kind.key != k ==> Get(a, s, kind.key) == Get(b, s, kind.key);
    }
  }

  // The same lines add the same other keys.
  lemma {:induction false} OtherKeys(x: seq<Line>, y: seq<Line>, i: nat, j: nat, m: nat, s: string, k: string)
    requires i + m <= |x| && j + m <= |y| && x[i..i + m] == y[j..j + m]
    requires Alike(After(x, i), After(y, j), s, k) && (m == 0 || !x[i].Folds())
    requires Minus(KeysIn(x, i, s), k) == Minus(KeysIn(y, j, s), k)
    ensures Minus(KeysIn(x, i + m, s), k) == Minus(KeysIn(y, j + m, s), k)
    decreases m
  {
    hide Step, KeysStep, Alike, OnAlike, Get, Minus;
    if m > 0 {
      SameInit(x, y, i, j, m);
      OtherKeys(x, y, i, j, m - 1, s, k);
      AlikeRun(x, y, i, j, m - 1, s, k);
      SameKeysStep(After(x, i + m - 1), After(y, j + m - 1), x[i + m - 1],
                   KeysIn(x, i + m - 1, s), KeysIn(y, j + m - 1, s), s, k);
    }
  }

  // And all the same keys, when the edited one is there on both sides.
  lemma {:induction false} AllKeys(x: seq<Line>, y: seq<Line>, i: nat, j: nat, m: nat, s: string, k: string)
    requires i + m <= |x| && j + m <= |y| && x[i..i + m] == y[j..j + m]
    requires Alike(After(x, i), After(y, j), s, k) && (m == 0 || !x[i].Folds())
    requires KeysIn(x, i, s) == KeysIn(y, j, s)
    requires Get(After(x, i), s, k).Some? && Get(After(y, j), s, k).Some?
    ensures KeysIn(x, i + m, s) == KeysIn(y, j + m, s)
    ensures Get(After(x, i + m), s, k).Some? && Get(After(y, j + m), s, k).Some?
    decreases m
  {
    hide Step, KeysStep, Alike, OnAlike, Get, Minus;
    if m > 0 {
      SameInit(x, y, i, j, m);
      AllKeys(x, y, i, j, m - 1, s, k);
      AlikeRun(x, y, i, j, m - 1, s, k);
      SameKeysStep(After(x, i + m - 1), After(y, j + m - 1), x[i + m - 1],
                   KeysIn(x, i + m - 1, s), KeysIn(y, j + m - 1, s), s, k);
      ValueStaysSet(After(x, i + m - 1), i + m - 1, x[i + m - 1], s, k);
      ValueStaysSet(After(y, j + m - 1), j + m - 1, y[j + m - 1], s, k);
    }
  }

  lemma ValueStaysSet(st: State, i: nat, kind: Line, s: string, k: string)
    requires Sound(st)
    ensures Get(st, s, k).Some? ==> Get(Step(st, i, kind), s, k).Some?
  {
    hide Step;
    StepOption(st, i, kind, s, k);
  }

  // A block adds its own key.
  lemma {:induction false} BlockKeys(kinds: seq<Line>, n: nat, block: seq<Line>, s: string, k: string)
    requires n + |block| <= |kinds| && kinds[n..n + |block|] == block && NoneOrBlock(block, k)
    requires LiveAt(After(kinds, n), s) && Get(After(kinds, n), s, k).None?
    ensures KeysIn(kinds, n + |block|, s) == KeysIn(kinds, n, s) + if block == [] then [] else [k]
    decreases |block|
  {
    hide Step;
    if block != [] {
      var m := |block| - 1;
      assert kinds[n + m] == block[m];
      assert kinds[n..n + m] == block[..m];
      BlockKeys(kinds, n, block[..m], s, k);
    }
  }

  // Every other key keeps its place; and the edited one too, if it had one and is written
  // again.
  lemma EditedKeys(was: seq<Line>, start: nat, end: nat, block: seq<Line>, s: string, k: string)
    requires CanEdit(was, start, end, block, s, k)
    ensures var now := Splice(was, start, end, block);
            && Minus(KeysIn(now, |now|, s), k) == Minus(KeysIn(was, |was|, s), k)
            && (start < end && block != [] ==> KeysIn(now, |now|, s) == KeysIn(was, |was|, s))
  {
    hide After, KeysIn, IsBlock, Alike, Values, Minus;
    var now, mid := Splice(was, start, end, block), start + |block|;
    EditedTail(was, start, end, block, s, k);
    SpliceParts(was, start, end, block);
    KeysPrefix(was, now, start, s);
    BlockKeys(was, start, was[start..end], s, k);
    BlockKeys(now, start, block, s, k);
    var before := KeysIn(was, start, s);
    assert before + [] == before;
    MinusNext(before, k, k);
    KeysAre(was, end, s, k);
    KeysAre(now, mid, s, k);
    OtherKeys(was, now, end, mid, |was| - end, s, k);
    if start < end && block != [] { AllKeys(was, now, end, mid, |was| - end, s, k); }
  }

  // ----- a key put at the end of its section -----

  lemma {:induction false} StaysLeft(kinds: seq<Line>, n: nat, m: nat, s: string)
    requires n <= m <= |kinds| && s in After(kinds, n).sections && !LiveAt(After(kinds, n), s)
    ensures s in After(kinds, m).sections && !LiveAt(After(kinds, m), s)
    decreases m
  {
    hide Step;
    if n < m {
      StaysLeft(kinds, n, m - 1, s);
      StepSection(After(kinds, m - 1), m - 1, kinds[m - 1], s);
    }
  }

  // From here on nothing is read into the section.
  ghost predicate NoMore(kinds: seq<Line>, n: nat, s: string) {
    forall j | n <= j < |kinds| :: kinds[j].Blank? || kinds[j].Header? || !LiveAt(After(kinds, j), s)
  }

  lemma EndOfSection(kinds: seq<Line>, s: string, at: nat)
    requires s in Final(kinds).sections && InsertPoint(kinds, s, at)
    ensures NoMore(kinds, at, s)
  {
    hide Step;
    SectionsPlaced(kinds, |kinds|, s);
    var sec := Final(kinds).sections[s];
    forall j | sec.end < j < |kinds| ensures !LiveAt(After(kinds, j), s) {
      assert LiveAt(After(kinds, sec.end), s);
      StepSection(After(kinds, sec.end), sec.end, kinds[sec.end], s);
      StaysLeft(kinds, sec.end + 1, j, s);
    }
  }

  lemma {:induction false} NoMoreKeys(kinds: seq<Line>, n: nat, m: nat, s: string)
    requires n <= m <= |kinds| && NoMore(kinds, n, s)
    ensures KeysIn(kinds, m, s) == KeysIn(kinds, n, s)
    decreases m
  {
    if n < m { NoMoreKeys(kinds, n, m - 1, s); }
  }

  // The same lines after an edit read nothing into the section either.
  lemma NoMoreAfter(was: seq<Line>, now: seq<Line>, i: nat, j: nat, s: string, k: string)
    requires i <= |was| && j <= |now| && |was| - i == |now| - j && was[i..|was|] == now[j..|now|]
    requires Alike(After(was, i), After(now, j), s, k) && (i < |was| ==> !was[i].Folds())
    requires NoMore(was, i, s)
    ensures NoMore(now, j, s)
  {
    hide After, Alike, OnAlike;
    forall m | j <= m < |now| ensures now[m].Blank? || now[m].Header? || !LiveAt(After(now, m), s) {
      var d := m - j;
      assert was[i..i + d] == was[i..|was|][..d] == now[j..|now|][..d] == now[j..j + d];
      assert was[i + d] == was[i..|was|][d] == now[j..|now|][d] == now[m];
      AlikeRun(was, now, i, j, d, s, k);
      SamePlaces(After(was, i + d), After(now, m), s, k);
    }
  }

  lemma SamePlaces(a: State, b: State, s: string, k: string)
    requires Alike(a, b, s, k)
    ensures LiveAt(a, s) <==> LiveAt(b, s)
  {
  }

  lemma AppendedKey(was: seq<Line>, at: nat, block: seq<Line>, s: string, k: string)
    requires s in Final(was).sections && InsertPoint(was, s, at)
    requires CanEdit(was, at, at, block, s, k) && block != []
    ensures var now := Splice(was, at, at, block); KeysIn(now, |now|, s) == KeysIn(was, |was|, s) + [k]
  {
    hide After, KeysIn, IsBlock, Alike, Values, NoMore, Final, InsertPoint;
    var now, mid := Splice(was, at, at, block), at + |block|;
    EndOfSection(was, s, at);
    EditedTail(was, at, at, block, s, k);
    SpliceParts(was, at, at, block);
    KeysPrefix(was, now, at, s);
    BlockKeys(now, at, block, s, k);
    NoMoreAfter(was, now, at, mid, s, k);
    NoMoreKeys(was, at, |was|, s);
    NoMoreKeys(now, mid, |now|, s);
  }

  // A last line that is blank or a header adds no key, and no value.
  lemma LastLine(was: seq<Line>, now: seq<Line>, t: string, q: string)
    requires now != [] && now[..|now| - 1] == was && (now[|now| - 1].Blank? || now[|now| - 1].Header?)
    ensures KeysIn(now, |now|, t) == KeysIn(was, |was|, t)
    ensures Values(now, |now|, t, q) == Values(was, |was|, t, q)
  {
    var n := |now| - 1;
    assert now[..n] == was[..n];
    KeysPrefix(now, was, n, t);
    ValuesPrefix(now, was, n, t, q);
  }

  // ----- the sections, in the order of their headers -----

  function NamesStep(before: seq<string>, st: State, kind: Line): seq<string> {
    if kind.Header? && kind.name !in st.sections then before + [kind.name] else before
  }

  function NamesIn(kinds: seq<Line>, n: nat): seq<string>
    requires n <= |kinds|
    decreases n
  {
    if n == 0 then [] else NamesStep(NamesIn(kinds, n - 1), After(kinds, n - 1), kinds[n - 1])
  }

  function HeaderOf(st: State, s: string): nat { if s in st.sections then st.sections[s].header else 0 }

  // Each section once, by the line of its header.
  ghost predicate NamesOrdered(st: State, names: seq<string>, n: nat) {
    && (forall s :: s in names <==> s in st.sections)
    && (forall i | 0 <= i < |names| :: HeaderOf(st, names[i]) < n)
    && (forall i, j | 0 <= i < j < |names| :: HeaderOf(st, names[i]) < HeaderOf(st, names[j]))
  }

  lemma NamesOrderedStep(st: State, i: nat, kind: Line, names: seq<string>)
    requires Sound(st) && NamesOrdered(st, names, i)
    ensures NamesOrdered(Step(st, i, kind), NamesStep(names, st, kind), i + 1)
  {
    hide Step;
    var next, names' := Step(st, i, kind), NamesStep(names, st, kind);
    forall s ensures s in names' <==> s in next.sections { StepSection(st, i, kind, s); }
    forall j | 0 <= j < |names'|
      ensures HeaderOf(next, names'[j]) == if j < |names| then HeaderOf(st, names[j]) else i
    {
      assert j < |names| ==> names'[j] == names[j] && names[j] in names;
      StepSection(st, i, kind, names'[j]);
    }
  }

  lemma {:induction false} NamesAre(kinds: seq<Line>, n: nat)
    requires n <= |kinds|
    ensures NamesOrdered(After(kinds, n), NamesIn(kinds, n), n)
    decreases n
  {
    hide Step, NamesOrdered, NamesStep;
    if n == 0 {
      NothingNamed();
    } else {
      NamesAre(kinds, n - 1);
      NamesOrderedStep(After(kinds, n - 1), n - 1, kinds[n - 1], NamesIn(kinds, n - 1));
    }
  }

  lemma NothingNamed()
    ensures NamesOrdered(START, [], 0)
  {
  }

  lemma {:induction false} NamesPrefix(a: seq<Line>, b: seq<Line>, n: nat)
    requires n <= |a| && n <= |b| && a[..n] == b[..n]
    ensures NamesIn(a, n) == NamesIn(b, n)
    decreases n
  {
    if n > 0 {
      assert a[..n - 1] == a[..n][..n - 1] == b[..n][..n - 1] == b[..n - 1];
      assert a[n - 1] == a[..n][n - 1] == b[n - 1];
      AfterPrefix(a, b, n - 1);
      NamesPrefix(a, b, n - 1);
    }
  }

  lemma {:induction false} NoHeaders(kinds: seq<Line>, n: nat, m: nat)
    requires n <= m <= |kinds| && forall j | n <= j < m :: !kinds[j].Header?
    ensures NamesIn(kinds, m) == NamesIn(kinds, n)
    decreases m
  {
    if n < m { NoHeaders(kinds, n, m - 1); }
  }

  lemma {:induction false} SameNames(x: seq<Line>, y: seq<Line>, i: nat, j: nat, m: nat, s: string, k: string)
    requires i + m <= |x| && j + m <= |y| && x[i..i + m] == y[j..j + m]
    requires Alike(After(x, i), After(y, j), s, k) && (m == 0 || !x[i].Folds())
    requires NamesIn(x, i) == NamesIn(y, j)
    ensures NamesIn(x, i + m) == NamesIn(y, j + m)
    decreases m
  {
    hide Step, NamesStep, Alike, OnAlike;
    if m > 0 {
      SameInit(x, y, i, j, m);
      SameNames(x, y, i, j, m - 1, s, k);
      AlikeRun(x, y, i, j, m - 1, s, k);
      AlikeNames(After(x, i + m - 1), After(y, j + m - 1), x[i + m - 1], NamesIn(x, i + m - 1), s, k);
    }
  }

  lemma AlikeNames(a: State, b: State, kind: Line, names: seq<string>, s: string, k: string)
    requires Alike(a, b, s, k)
    ensures NamesStep(names, a, kind) == NamesStep(names, b, kind)
  {
    assert kind.Header? ==> (kind.name in a.sections.Keys <==> kind.name in b.sections.Keys);
  }

  // Editing an option changes no section's place.
  lemma EditedNames(was: seq<Line>, start: nat, end: nat, block: seq<Line>, s: string, k: string)
    requires CanEdit(was, start, end, block, s, k)
    ensures var now := Splice(was, start, end, block); NamesIn(now, |now|) == NamesIn(was, |was|)
  {
    hide After, NamesIn, Alike, Values;
    var now, mid := Splice(was, start, end, block), start + |block|;
    EditedTail(was, start, end, block, s, k);
    SpliceParts(was, start, end, block);
    NamesPrefix(was, now, start);
    NoBlockHeaders(was, start, was[start..end], k);
    NoBlockHeaders(now, start, block, k);
    SameNames(was, now, end, mid, |was| - end, s, k);
  }

  lemma NoBlockHeaders(kinds: seq<Line>, n: nat, block: seq<Line>, k: string)
    requires n + |block| <= |kinds| && kinds[n..n + |block|] == block && NoneOrBlock(block, k)
    ensures NamesIn(kinds, n + |block|) == NamesIn(kinds, n)
  {
    forall j | n <= j < n + |block| ensures !kinds[j].Header? { assert kinds[j] == block[j - n]; }
    NoHeaders(kinds, n, n + |block|);
  }

  lemma LastName(was: seq<Line>, now: seq<Line>)
    requires now != [] && now[..|now| - 1] == was
    ensures NamesIn(now, |now|) == NamesStep(NamesIn(was, |was|), Final(was), now[|now| - 1])
  {
    var n := |now| - 1;
    assert now[..n] == was[..n];
    NamesPrefix(now, was, n);
    AfterPrefix(now, was, n);
  }
}
