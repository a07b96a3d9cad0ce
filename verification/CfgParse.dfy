// The document parser as a state machine over classified lines.

module CfgParse {
  import opened Text
  import opened CfgSyntax

  // One key and the half-open span of lines it occupies.
  datatype Opt = Opt(start: nat, end: nat, value: string)

  // One section: its header line, the exclusive end of its lines, its options.
  datatype Sec = Sec(header: nat, end: nat, options: map<string, Opt>)

  // The section being read. A repeated name is read into a section nobody can reach.
  datatype Place = Nowhere | At(name: string, live: bool)

  // The option being read. A repeated key is read into an option nobody can reach.
  datatype OnKey = NoKey | Key(key: string, live: bool)

  datatype State = State(sections: map<string, Sec>, duplicates: seq<string>, place: Place, on: OnKey)

  const START := State(map[], [], Nowhere, NoKey)

  function Get(st: State, s: string, k: string): Option<string> {
    if s in st.sections && k in st.sections[s].options then Some(st.sections[s].options[k].value) else None
  }

  predicate LiveAt(st: State, s: string) { st.place == At(s, true) }

  predicate LiveOn(st: State, s: string, k: string) { LiveAt(st, s) && st.on == Key(k, true) }

  // The open section and option really are in the index.
  predicate Sound(st: State) {
    && (st.place.At? ==> st.place.name in st.sections)
    && (st.on.Key? ==> st.place.At?)
    && (st.on.Key? && st.on.live ==> st.place.live)
    && (st.on.Key? && st.place.live ==> st.on.key in st.sections[st.place.name].options)
  }

  function PutOption(st: State, s: string, end: nat, k: string, opt: Opt): State
    requires s in st.sections
  {
    var sec := st.sections[s];
    st.(sections := st.sections[s := Sec(sec.header, end, sec.options[k := opt])])
  }

  function Grow(st: State, i: nat): State
    requires Sound(st)
  {
    if st.place.At? && st.place.live
    then st.(sections := st.sections[st.place.name := st.sections[st.place.name].(end := i + 1)])
    else st
  }

  function Folded(opt: Opt, i: nat, kind: Line): Opt {
    Opt(opt.start, i + 1, if kind.More? && kind.item != "" then opt.value + "\n" + kind.item else opt.value)
  }

  function StepHeader(st: State, i: nat, name: string): State {
    if name in st.sections then
      State(st.sections, if name in st.duplicates then st.duplicates else st.duplicates + [name],
            At(name, false), NoKey)
    else
      State(st.sections[name := Sec(i, i + 1, map[])], st.duplicates, At(name, true), NoKey)
  }

  function StepEntry(st: State, i: nat, key: string, value: string): State
    requires Sound(st) && st.place.At?
  {
    if st.place.live && key !in st.sections[st.place.name].options
    then PutOption(st, st.place.name, i + 1, key, Opt(i, i + 1, value)).(on := Key(key, true))
    else Grow(st, i).(on := Key(key, false))
  }

  function StepFold(st: State, i: nat, kind: Line): State
    requires Sound(st) && st.place.At?
  {
    if st.on.Key? && st.on.live then
      var opt := st.sections[st.place.name].options[st.on.key];
      PutOption(st, st.place.name, i + 1, st.on.key, Folded(opt, i, kind))
    else Grow(st, i)
  }

  // One turn of the parser loop on line i.
  function Step(st: State, i: nat, kind: Line): (next: State)
    requires Sound(st)
    ensures Sound(next)
  {
    if kind.Header? then StepHeader(st, i, kind.name)
    else if st.place.Nowhere? then st
    else if kind.Entry? then StepEntry(st, i, kind.key, kind.value)
    else if kind.Folds() then StepFold(st, i, kind)
    else Grow(st, i).(on := NoKey)
  }

  // The state after the first n lines.
  function After(kinds: seq<Line>, n: nat): (st: State)
    requires n <= |kinds|
    ensures Sound(st)
    decreases n
  {
    if n == 0 then START else Step(After(kinds, n - 1), n - 1, kinds[n - 1])
  }

  function Final(kinds: seq<Line>): State { After(kinds, |kinds|) }

  lemma {:induction false} AfterPrefix(a: seq<Line>, b: seq<Line>, n: nat)
    requires n <= |a| && n <= |b| && a[..n] == b[..n]
    ensures After(a, n) == After(b, n)
    decreases n
  {
    if n > 0 {
      assert a[..n - 1] == a[..n][..n - 1] == b[..n][..n - 1] == b[..n - 1];
      assert a[n - 1] == a[..n][n - 1] == b[n - 1];
      AfterPrefix(a, b, n - 1);
    }
  }

  // ----- one step, seen from one section or one option -----

  lemma StepSection(st: State, i: nat, kind: Line, s: string)
    requires Sound(st)
    ensures var next := Step(st, i, kind);
            && (s in next.sections <==> s in st.sections || kind == Header(s))
            && (s in st.sections ==>
                  && next.sections[s].header == st.sections[s].header
                  && next.sections[s].end == (if LiveAt(st, s) && !kind.Header? then i + 1 else st.sections[s].end)
                  && (LiveAt(next, s) <==> LiveAt(st, s) && !kind.Header?))
            && (s !in st.sections && kind == Header(s) ==>
                  next.sections[s] == Sec(i, i + 1, map[]) && LiveAt(next, s))
  {
  }

  predicate Adds(st: State, kind: Line, s: string, k: string) {
    LiveAt(st, s) && kind.Entry? && kind.key == k
  }

  lemma StepOption(st: State, i: nat, kind: Line, s: string, k: string)
    requires Sound(st)
    ensures var next := Step(st, i, kind);
            && (Get(next, s, k).Some? <==> Get(st, s, k).Some? || Adds(st, kind, s, k))
            && (Get(st, s, k).Some? ==>
                  && next.sections[s].options[k] ==
                     (if LiveOn(st, s, k) && kind.Folds() then Folded(st.sections[s].options[k], i, kind)
                      else st.sections[s].options[k])
                  && (LiveOn(next, s, k) <==> LiveOn(st, s, k) && kind.Folds()))
            && (Get(st, s, k).None? && Adds(st, kind, s, k) ==>
                  next.sections[s].options[k] == Opt(i, i + 1, kind.value) && LiveOn(next, s, k))
            && (Get(st, s, k).None? && !Adds(st, kind, s, k) ==> !LiveOn(next, s, k))
  {
  }

  function NextPlace(st: State, kind: Line): Place {
    if kind.Header? then At(kind.name, kind.name !in st.sections) else st.place
  }

  function NextOn(st: State, kind: Line): OnKey {
    if kind.Header? || st.place.Nowhere? then NoKey
    else if kind.Entry? then Key(kind.key, st.place.live && Get(st, st.place.name, kind.key).None?)
    else if kind.Folds() then st.on
    else NoKey
  }

  lemma StepPlaceAndKey(st: State, i: nat, kind: Line)
    requires Sound(st)
    ensures Step(st, i, kind).place == NextPlace(st, kind)
    ensures Step(st, i, kind).on == NextOn(st, kind)
    ensures Step(st, i, kind).duplicates ==
            if kind.Header? && kind.name in st.sections && kind.name !in st.duplicates
            then st.duplicates + [kind.name] else st.duplicates
    ensures Step(st, i, kind).sections.Keys ==
            if kind.Header? then st.sections.Keys + {kind.name} else st.sections.Keys
  {
  }

  // ----- where things are -----

  // What the index says about a section holds of the lines.
  ghost predicate SectionPlaced(kinds: seq<Line>, n: nat, s: string)
    requires n <= |kinds| && s in After(kinds, n).sections
  {
    var sec := After(kinds, n).sections[s];
    && sec.header < sec.end <= n
    && kinds[sec.header] == Header(s)
    && s !in After(kinds, sec.header).sections
    && (forall j | sec.header < j <= sec.end :: LiveAt(After(kinds, j), s))
    && (LiveAt(After(kinds, n), s) <==> sec.end == n)
    && (sec.end < n ==> kinds[sec.end].Header?)
  }

  lemma {:induction false} SectionsPlaced(kinds: seq<Line>, n: nat, s: string)
    requires n <= |kinds| && s in After(kinds, n).sections
    ensures SectionPlaced(kinds, n, s)
    decreases n
  {
    hide Step;
    var was := After(kinds, n - 1);
    StepSection(was, n - 1, kinds[n - 1], s);
    if s in was.sections {
      SectionsPlaced(kinds, n - 1, s);
    }
  }

  // What the index says about an option holds of the lines.
  ghost predicate OptionPlaced(kinds: seq<Line>, n: nat, s: string, k: string)
    requires n <= |kinds| && Get(After(kinds, n), s, k).Some?
  {
    var opt := After(kinds, n).sections[s].options[k];
    && opt.start < opt.end <= n
    && kinds[opt.start].Entry? && kinds[opt.start].key == k
    && LiveAt(After(kinds, opt.start), s)
    && Get(After(kinds, opt.start), s, k).None?
    && (forall j | opt.start < j < opt.end :: kinds[j].Folds())
    && (LiveOn(After(kinds, n), s, k) <==> opt.end == n)
    && (opt.end < n ==> !kinds[opt.end].Folds())
  }

  lemma {:induction false} OptionsPlaced(kinds: seq<Line>, n: nat, s: string, k: string)
    requires n <= |kinds| && Get(After(kinds, n), s, k).Some?
    ensures OptionPlaced(kinds, n, s, k)
    decreases n
  {
    hide Step;
    var was := After(kinds, n - 1);
    StepOption(was, n - 1, kinds[n - 1], s, k);
    if Get(was, s, k).Some? {
      OptionsPlaced(kinds, n - 1, s, k);
    }
  }

  predicate IsBlock(block: seq<Line>, key: string) {
    && block != []
    && block[0].Entry? && block[0].key == key
    && forall j | 0 < j < |block| :: block[j].Folds()
  }

  // The value a block of lines gives its option: the entry's own text, then one line
  // per continuation item.
  function BlockValue(block: seq<Line>): string
    requires block != [] && block[0].Entry?
  {
    if |block| == 1 then block[0].value else
      var last := block[|block| - 1];
      var before := BlockValue(block[..|block| - 1]);
      if last.More? && last.item != "" then before + "\n" + last.item else before
  }

  // Reading a block in a live section that has no such key yet adds exactly that option.
  lemma {:induction false} BlockRead(kinds: seq<Line>, n: nat, block: seq<Line>, s: string, k: string)
    requires n + |block| <= |kinds| && kinds[n..n + |block|] == block
    requires IsBlock(block, k)
    requires LiveAt(After(kinds, n), s) && Get(After(kinds, n), s, k).None?
    ensures var a, b := After(kinds, n), After(kinds, n + |block|);
            && LiveOn(b, s, k)
            && b.duplicates == a.duplicates
            && b.sections.Keys == a.sections.Keys
            && Get(b, s, k) == Some(BlockValue(block))
            && (forall t, q | t != s || q != k :: Get(b, t, q) == Get(a, t, q))
    decreases |block|
  {
    hide Step;
    var m := |block| - 1;
    var last := After(kinds, n + m);
    assert kinds[n + m] == block[m];
    if m > 0 {
      assert kinds[n..n + m] == block[..m];
      BlockRead(kinds, n, block[..m], s, k);
    }
    StepPlaceAndKey(last, n + m, block[m]);
    forall t, q ensures m > 0 || t != s || q != k ==>
                          Get(Step(last, n + m, block[m]), t, q) ==
                          if t == s && q == k then Some(BlockValue(block)) else Get(last, t, q)
    {
      StepOption(last, n + m, block[m], t, q);
    }
    StepOption(last, n + m, block[m], s, k);
  }
}
