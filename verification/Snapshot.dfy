// The shared parse of a config file: readers, writers and clearers of one path, each step
// of each interleaved with the others' at will. A text stands for its parse.

module Snapshot {
  import opened Text
  import opened Interleaving

  const RACY_WINDOW := 2_000_000_000

  // A device and inode number. A number used again is a write of that file.
  type Id = nat

  datatype File = File(bytes: string, mtime: int, ctime: int)
  datatype Key = Key(id: Id, size: nat, mtime: int, ctime: int)

  function KeyOf(id: Id, f: File): Key { Key(id, |f.bytes|, f.mtime, f.ctime) }

  // A file's state at some time.
  datatype Moment = Moment(id: Id, file: File, at: int)

  predicate Settled(mtime: int, at: int) { at - mtime > RACY_WINDOW }

  datatype Entry = Entry(text: string, key: Key)

  // Where one call of read is. was and at are what its first fstat saw, and when.
  datatype Reader =
    | Idle
    | Opened(id: Id)
    | Statted(id: Id, was: File, at: int)
    | Missed(id: Id, was: File, at: int)
    | Reading(id: Id, was: File, at: int, started: int, got: string)
    | Whole(id: Id, was: File, at: int, started: int, got: string)
    | Judged(id: Id, was: File, at: int, key: Key, got: string, trusted: bool)
    | Hit(id: Id, was: File, at: int, text: string, asked: int)
    | Parsed(id: Id, was: File, at: int, text: string)

  // moments is every state any file has had, for the statements only.
  datatype World = World(now: int, files: map<Id, File>, link: Option<Id>, cache: Option<Entry>,
                         readers: map<nat, Reader>, moments: set<Moment>)

  function At(w: World, r: nat): Reader { if r in w.readers then w.readers[r] else Idle }

  datatype Action =
    | Tick(to: int)
    | Put(id: Id, file: File)
    | Link(target: Option<Id>)
    | Invalidate
    | Open(r: nat) | Stat(r: nat) | Lookup(r: nat) | Begin(r: nat) | Chunk(r: nat, n: nat) | Eof(r: nat)
    | Restat(r: nat) | Store(r: nat) | Leave(r: nat)
  {
    // A step of a read that has the file open.
    predicate InRead() { Stat? || Lookup? || Begin? || Chunk? || Eof? || Restat? || Store? }
  }

  // A write stamps an mtime at most the window behind the clock, or gives the file a ctime
  // it never had before.
  predicate Disciplined(w: World, id: Id, f: File) {
    || !Settled(f.mtime, w.now)
    || forall m | m in w.moments && m.id == id :: m.file.ctime != f.ctime
  }

  predicate Allowed(w: World, a: Action) {
    match a
    case Tick(to) => w.now <= to
    case Put(id, f) => Disciplined(w, id, f)
    case Link(target) => target.Some? ==> target.value in w.files
    case Invalidate => true
    case Open(r) => At(w, r).Idle?
    case Stat(r) => At(w, r).Opened?
    case Lookup(r) => At(w, r).Statted?
    case Begin(r) => At(w, r).Missed?
    case Chunk(r, n) => At(w, r).Reading?
    case Eof(r) => At(w, r).Reading? && At(w, r).id in w.files && |At(w, r).got| >= |w.files[At(w, r).id].bytes|
    case Restat(r) => At(w, r).Whole?
    case Store(r) => At(w, r).Judged?
    case Leave(r) => true
  }

  function Noted(w: World): World {
    w.(moments := w.moments + set id | id in w.files :: Moment(id, w.files[id], w.now))
  }

  function Move(w: World, r: nat, to: Reader): World { w.(readers := w.readers[r := to]) }

  // What is read next: up to n bytes on from what was got.
  function More(got: string, bytes: string, n: nat): string {
    if |got| >= |bytes| then got
    else if |got| + n <= |bytes| then got + bytes[|got|..|got| + n] else got + bytes[|got|..]
  }

  function Do(w: World, a: Action): World {
    match a
    case Tick(to) => Noted(w.(now := to))
    case Put(id, f) => Noted(w.(files := w.files[id := f]))
    case Link(target) => w.(link := target)
    case Invalidate => w.(cache := None)
    case Open(r) => if w.link.None? then w.(cache := None) else Move(w, r, Opened(w.link.value))
    case Leave(r) => Move(w, r, Idle)
    case _ => ReaderStep(w, a.r, At(w, a.r), a)
  }

  function ReaderStep(w: World, r: nat, c: Reader, a: Action): World {
    match c
    case Opened(id) => if a.Stat? && id in w.files then Move(w, r, Statted(id, w.files[id], w.now)) else w
    case Statted(id, was, at) =>
      if !a.Lookup? then w
      else if w.cache.Some? && w.cache.value.key == KeyOf(id, was)
      then Move(w, r, Hit(id, was, at, w.cache.value.text, w.now))
      else Move(w, r, Missed(id, was, at))
    case Missed(id, was, at) => if a.Begin? then Move(w, r, Reading(id, was, at, w.now, "")) else w
    case Reading(id, was, at, started, got) =>
      if a.Chunk? && id in w.files then Move(w, r, Reading(id, was, at, started, More(got, w.files[id].bytes, a.n)))
      else if a.Eof? then Move(w, r, Whole(id, was, at, started, got))
      else w
    case Whole(id, was, at, started, got) =>
      if a.Restat? && id in w.files then
        var key := KeyOf(id, w.files[id]);
        var trusted := key == KeyOf(id, was) && Settled(w.files[id].mtime, started);
        Move(w, r, Judged(id, was, at, key, got, trusted))
      else w
    case Judged(id, was, at, key, got, trusted) =>
      if a.Store? then Move(w.(cache := if trusted then Some(Entry(got, key)) else None), r, Parsed(id, was, at, got))
         else w
    case _ => w
  }

  // ----- the invariant -----

  // The file had this key and these bytes at a time outside the window.
  ghost predicate Backed(w: World, e: Entry) {
    && e.key.size == |e.text|
    && exists at: int ::
         Moment(e.key.id, File(e.text, e.key.mtime, e.key.ctime), at) in w.moments && Settled(e.key.mtime, at)
  }

  // The bytes the file held at some time between two.
  ghost predicate HeldBetween(w: World, id: Id, key: Key, text: string, from: int, to: int) {
    exists at: int :: from <= at <= to && key.size == |text|
                      && Moment(id, File(text, key.mtime, key.ctime), at) in w.moments
  }

  ghost predicate Seen(w: World, id: Id, was: File, at: int) {
    id in w.files && Moment(id, was, at) in w.moments
  }

  ghost predicate ReaderOk(w: World, c: Reader) {
    match c
    case Idle => true
    case Opened(id) => id in w.files
    case Statted(id, was, at) => Seen(w, id, was, at)
    case Missed(id, was, at) => Seen(w, id, was, at)
    case Reading(id, was, at, started, got) =>
      && Seen(w, id, was, at) && at <= started <= w.now
      && (Settled(was.mtime, started) && KeyOf(id, w.files[id]) == KeyOf(id, was) ==> got <= w.files[id].bytes)
    case Whole(id, was, at, started, got) =>
      && Seen(w, id, was, at) && at <= started <= w.now
      && (Settled(was.mtime, started) && KeyOf(id, w.files[id]) == KeyOf(id, was) ==> got == w.files[id].bytes)
    case Judged(id, was, at, key, got, trusted) => Seen(w, id, was, at) && (trusted ==> Backed(w, Entry(got, key)))
    case Hit(id, was, at, text, asked) =>
      && Seen(w, id, was, at)
      && (Settled(was.mtime, at) ==> text == was.bytes)
      && HeldBetween(w, id, KeyOf(id, was), text, at, asked)
    case Parsed(id, was, at, text) => Seen(w, id, was, at)
  }

  // Outside the window a key has one text.
  ghost predicate KeysTell(w: World) {
    forall m, k | m in w.moments && k in w.moments && KeyOf(m.id, m.file) == KeyOf(k.id, k.file)
                  && Settled(m.file.mtime, m.at) && Settled(k.file.mtime, k.at) :: m.file.bytes == k.file.bytes
  }

  ghost predicate NowTells(w: World) {
    forall m | m in w.moments && m.id in w.files && KeyOf(m.id, m.file) == KeyOf(m.id, w.files[m.id])
               && Settled(m.file.mtime, m.at) :: m.file.bytes == w.files[m.id].bytes
  }

  ghost predicate Kept(w: World) {
    && (forall id | id in w.files :: Moment(id, w.files[id], w.now) in w.moments)
    && (forall m | m in w.moments :: m.at <= w.now && m.id in w.files)
    && KeysTell(w) && NowTells(w)
  }

  ghost predicate Inv(w: World) {
    && Kept(w) && (w.link.Some? ==> w.link.value in w.files)
    && (w.cache.Some? ==> Backed(w, w.cache.value))
    && forall r | r in w.readers :: ReaderOk(w, w.readers[r])
  }

  // What a disciplined write cannot do: give a file back a key it had outside the window.
  ghost predicate Fresh(w: World, id: Id, f: File) {
    forall m | m in w.moments && m.id == id && Settled(m.file.mtime, w.now) :: KeyOf(id, f) != KeyOf(id, m.file)
  }

  lemma DisciplinedIsFresh(w: World, id: Id, f: File)
    requires Disciplined(w, id, f)
    ensures Fresh(w, id, f)
  {
  }

  // How the world may change under a reader.
  ghost predicate Later(w: World, v: World) {
    && w.now <= v.now && w.moments <= v.moments && w.files.Keys <= v.files.Keys
    && forall id | id in w.files :: v.files[id] == w.files[id] || Fresh(w, id, v.files[id])
  }

  lemma BackedStays(w: World, v: World, e: Entry)
    requires Later(w, v) && Backed(w, e)
    ensures Backed(v, e)
  {
    var at: int :| Moment(e.key.id, File(e.text, e.key.mtime, e.key.ctime), at) in w.moments &&
      Settled(e.key.mtime, at);
    assert Moment(e.key.id, File(e.text, e.key.mtime, e.key.ctime), at) in v.moments;
  }

  lemma HeldStays(w: World, v: World, id: Id, key: Key, text: string, from: int, to: int)
    requires Later(w, v) && HeldBetween(w, id, key, text, from, to)
    ensures HeldBetween(v, id, key, text, from, to)
  {
    var at: int :| from <= at <= to && key.size == |text|
                   && Moment(id, File(text, key.mtime, key.ctime), at) in w.moments;
    assert Moment(id, File(text, key.mtime, key.ctime), at) in v.moments;
  }

  lemma ReaderStays(w: World, v: World, c: Reader)
    requires Later(w, v) && ReaderOk(w, c)
    ensures ReaderOk(v, c)
  {
    hide Backed, HeldBetween;
    match c {
      case Judged(id, was, at, key, got, trusted) => if trusted { BackedStays(w, v, Entry(got, key)); }
      case Hit(id, was, at, text, asked) => HeldStays(w, v, id, KeyOf(id, was), text, at, asked);
      case _ =>
    }
  }

  // Everything that does not move between two such worlds.
  lemma AllStay(w: World, v: World)
    requires Inv(w) && Later(w, v) && v.readers == w.readers
    ensures w.cache.Some? ==> Backed(v, w.cache.value)
    ensures forall r | r in v.readers :: ReaderOk(v, v.readers[r])
  {
    hide Backed, ReaderOk, Later, Kept;
    if w.cache.Some? { BackedStays(w, v, w.cache.value); }
    forall r | r in v.readers ensures ReaderOk(v, v.readers[r]) { ReaderStays(w, v, w.readers[r]); }
  }

  lemma KeptTick(w: World, to: int)
    requires Kept(w) && w.now <= to
    ensures Kept(Do(w, Tick(to))) && Later(w, Do(w, Tick(to)))
  {
  }

  lemma KeptPut(w: World, id: Id, f: File)
    requires Kept(w) && Disciplined(w, id, f)
    ensures Kept(Do(w, Put(id, f))) && Later(w, Do(w, Put(id, f)))
  {
    hide Disciplined, KeysTell, NowTells;
    DisciplinedIsFresh(w, id, f);
    PutLater(w, id, f);
    PutKeysTell(w, id, f);
    PutNowTells(w, id, f);
  }

  // The moments a write adds are those of the files at the time of it.
  lemma PutMoments(w: World, id: Id, f: File, m: Moment)
    ensures var v := Do(w, Put(id, f));
            m in v.moments <==> m in w.moments || (m.id in v.files && m == Moment(m.id, v.files[m.id], w.now))
  {
  }

  lemma PutLater(w: World, id: Id, f: File)
    requires Kept(w) && Fresh(w, id, f)
    ensures Later(w, Do(w, Put(id, f)))
  {
    hide KeysTell, NowTells, Fresh;
  }

  lemma PutKeysTell(w: World, id: Id, f: File)
    requires Kept(w) && Fresh(w, id, f)
    ensures KeysTell(Do(w, Put(id, f)))
  {
    hide Do, KeyOf;
    var v := Do(w, Put(id, f));
    PutFiles(w, id, f);
    forall m, k | m in v.moments && k in v.moments && KeyOf(m.id, m.file) == KeyOf(k.id, k.file)
                  && Settled(m.file.mtime, m.at) && Settled(k.file.mtime, k.at)
      ensures m.file.bytes == k.file.bytes
    {
      SameKeyId(m, k);
      PutMoments(w, id, f, m);
      PutMoments(w, id, f, k);
    }
  }

  lemma PutNowTells(w: World, id: Id, f: File)
    requires Kept(w) && Fresh(w, id, f)
    ensures NowTells(Do(w, Put(id, f)))
  {
    hide Do, KeyOf;
    var v := Do(w, Put(id, f));
    PutFiles(w, id, f);
    forall m | m in v.moments && m.id in v.files && KeyOf(m.id, m.file) == KeyOf(m.id, v.files[m.id])
               && Settled(m.file.mtime, m.at)
      ensures m.file.bytes == v.files[m.id].bytes
    {
      PutMoments(w, id, f, m);
    }
  }

  lemma PutFiles(w: World, id: Id, f: File)
    ensures Do(w, Put(id, f)).files == w.files[id := f] && Do(w, Put(id, f)).now == w.now
  {
  }

  lemma SameKeyId(m: Moment, k: Moment)
    requires KeyOf(m.id, m.file) == KeyOf(k.id, k.file)
    ensures m.id == k.id && m.file.mtime == k.file.mtime
  {
  }

  // A reader moves on, and the cache may be emptied or given a backed entry.
  lemma Moved(w: World, r: nat, to: Reader, cache: Option<Entry>)
    requires Inv(w) && ReaderOk(w, to) && (cache.Some? ==> Backed(w, cache.value))
    ensures Inv(Move(w.(cache := cache), r, to))
  {
    hide ReaderOk, Backed, KeysTell, NowTells;
    var v := Move(w.(cache := cache), r, to);
    SameFiles(w, v);
    if cache.Some? { BackedStays(w, v, cache.value); }
    forall q | q in v.readers ensures ReaderOk(v, v.readers[q]) {
      ReaderStays(w, v, if q == r then to else w.readers[q]);
    }
  }

  lemma SameFiles(w: World, v: World)
    requires v.now == w.now && v.files == w.files && v.moments == w.moments
    ensures Later(w, v) && (Kept(w) ==> Kept(v))
  {
  }

  // A lookup that hits gives bytes the file really held: those of the fstat when its mtime
  // was by then outside the window, and otherwise those of a later moment.
  lemma HitIsBacked(w: World, id: Id, was: File, at: int, e: Entry)
    requires Kept(w) && Seen(w, id, was, at) && Backed(w, e) && e.key == KeyOf(id, was)
    ensures Settled(was.mtime, at) ==> e.text == was.bytes
    ensures HeldBetween(w, id, KeyOf(id, was), e.text, at, w.now)
  {
    var held := File(e.text, e.key.mtime, e.key.ctime);
    var since: int :| Moment(e.key.id, held, since) in w.moments && Settled(e.key.mtime, since);
    var m, k := Moment(id, held, since), Moment(id, was, at);
    assert m in w.moments && k in w.moments && KeyOf(m.id, m.file) == KeyOf(k.id, k.file);
    if Settled(was.mtime, at) {
      assert e.text == was.bytes;
      assert held == was;
    }
  }

  // The read that is trusted read one state of the file and not parts of several.
  lemma TrustedIsWhole(w: World, c: Reader)
    requires Kept(w) && ReaderOk(w, c) && c.Whole?
    requires KeyOf(c.id, w.files[c.id]) == KeyOf(c.id, c.was) && Settled(c.was.mtime, c.started)
    ensures Backed(w, Entry(c.got, KeyOf(c.id, w.files[c.id])))
  {
    assert Moment(c.id, w.files[c.id], w.now) in w.moments;
    assert c.got == w.files[c.id].bytes;
  }

  lemma ReaderStepKeeps(w: World, r: nat, a: Action)
    requires Inv(w) && Allowed(w, a) && a.InRead() && a.r == r
    ensures Inv(ReaderStep(w, r, At(w, r), a))
  {
    hide KeysTell, NowTells, Backed, HeldBetween, Disciplined;
    var c := At(w, r);
    assert ReaderOk(w, c);
    match c {
      case Statted(id, was, at) =>
        if w.cache.Some? && w.cache.value.key == KeyOf(id, was) {
          HitIsBacked(w, id, was, at, w.cache.value);
        }
      case Whole(id, was, at, started, got) =>
        if KeyOf(id, w.files[id]) == KeyOf(id, was) && Settled(was.mtime, started) { TrustedIsWhole(w, c); }
      case _ =>
    }
    var v := ReaderStep(w, r, c, a);
    if v != w {
      assert v == Move(w.(cache := v.cache), r, At(v, r));
      Moved(w, r, At(v, r), v.cache);
    }
  }

  // Every step of every reader, writer and clearer keeps the invariant.
  lemma StepKeeps(w: World, a: Action)
    requires Inv(w) && Allowed(w, a)
    ensures Inv(Do(w, a))
  {
    hide KeysTell, NowTells, Backed, ReaderOk, Disciplined, Later;
    match a {
      case Tick(to) => KeptTick(w, to); AllStay(w, Do(w, a));
      case Put(id, f) => KeptPut(w, id, f); AllStay(w, Do(w, a));
      case Link(_) => SameFiles(w, Do(w, a)); AllStay(w, Do(w, a));
      case Invalidate => SameFiles(w, Do(w, a)); AllStay(w, Do(w, a));
      case Open(r) =>
        if w.link.None? {
          SameFiles(w, Do(w, a)); AllStay(w, Do(w, a));
        } else {
          IdleOk(w, w.link.value);
          Moved(w, r, Opened(w.link.value), w.cache);
          assert w.(cache := w.cache) == w;
        }
      case Leave(r) => IdleOk(w, 0); Moved(w, r, Idle, w.cache); assert w.(cache := w.cache) == w;
      case _ => ReaderStepKeeps(w, a.r, a);
    }
  }

  lemma IdleOk(w: World, id: Id)
    ensures ReaderOk(w, Idle) && (id in w.files ==> ReaderOk(w, Opened(id)))
  {
  }

  // ----- runs -----

  // A world before anything was read: files with any times, an empty cache.
  ghost predicate Start(w: World) {
    && w.cache.None? && w.readers == map[] && (w.link.Some? ==> w.link.value in w.files)
    && w.moments == set id | id in w.files :: Moment(id, w.files[id], w.now)
  }

  function After(w: World, run: seq<Action>): World {
    if run == [] then w else Do(After(w, run[..|run| - 1]), run[|run| - 1])
  }

  ghost predicate CanRun(w: World, run: seq<Action>) {
    run == [] || (CanRun(w, run[..|run| - 1]) && Allowed(After(w, run[..|run| - 1]), run[|run| - 1]))
  }

  lemma {:induction false} RunKeeps(w: World, run: seq<Action>)
    requires Start(w) && CanRun(w, run)
    ensures Inv(After(w, run))
  {
    hide Backed, ReaderOk, Disciplined, Allowed, Do;
    if run != [] {
      RunKeeps(w, run[..|run| - 1]);
      StepKeeps(After(w, run[..|run| - 1]), run[|run| - 1]);
    }
  }

  // No stale hit and no torn one, in any interleaving: a hit is the text the file held at
  // its own fstat, if its mtime was outside the window by then; otherwise one it held, under
  // the same key, between that fstat and the lookup.
  lemma HitsAreTrue(w: World, run: seq<Action>, r: nat)
    requires Start(w) && CanRun(w, run) && At(After(w, run), r).Hit?
    ensures var hit := At(After(w, run), r);
            && (Settled(hit.was.mtime, hit.at) ==> hit.text == hit.was.bytes)
            && HeldBetween(After(w, run), hit.id, KeyOf(hit.id, hit.was), hit.text, hit.at, hit.asked)
  {
    hide After, CanRun, HeldBetween;
    RunKeeps(w, run);
  }

  // No torn read is ever cached: an entry is the whole text the file had at some moment,
  // and the text of every moment outside the window that has its key.
  lemma CacheIsTrue(w: World, run: seq<Action>)
    requires Start(w) && CanRun(w, run) && After(w, run).cache.Some?
    ensures var v := After(w, run); var e := v.cache.value;
            && Backed(v, e)
            && (forall m | m in v.moments && KeyOf(m.id, m.file) == e.key && Settled(m.file.mtime, m.at) ::
               m.file.bytes == e.text)
            && (e.key.id in v.files && KeyOf(e.key.id, v.files[e.key.id]) == e.key ==>
               v.files[e.key.id].bytes == e.text)
  {
    hide After, CanRun;
    RunKeeps(w, run);
    EntryTells(After(w, run), After(w, run).cache.value);
  }

  lemma EntryTells(v: World, e: Entry)
    requires Kept(v) && Backed(v, e)
    ensures forall m | m in v.moments && KeyOf(m.id, m.file) == e.key && Settled(m.file.mtime, m.at) ::
            m.file.bytes == e.text
    ensures e.key.id in v.files && KeyOf(e.key.id, v.files[e.key.id]) == e.key ==> v.files[e.key.id].bytes == e.text
  {
    var at: int :| Moment(e.key.id, File(e.text, e.key.mtime, e.key.ctime), at) in v.moments &&
      Settled(e.key.mtime, at);
    var mine := Moment(e.key.id, File(e.text, e.key.mtime, e.key.ctime), at);
    assert KeyOf(mine.id, mine.file) == e.key;
  }

  // ----- where the promise ends -----

  lemma RunNext(w: World, run: seq<Action>, a: Action, v: World)
    requires CanRun(w, run) && After(w, run) == v && Allowed(v, a)
    ensures CanRun(w, run + [a]) && After(w, run + [a]) == Do(v, a)
  {
    hide Allowed, Do;
    assert (run + [a])[..|run|] == run;
  }

  lemma {:induction false} RunMore(w: World, run: seq<Action>, more: seq<Action>)
    requires CanRun(w, run) && CanRun(After(w, run), more)
    ensures CanRun(w, run + more) && After(w, run + more) == After(After(w, run), more)
  {
    hide Allowed, Do, CanRun, After;
    if more == [] {
      assert run + more == run;
      NoRun(After(w, run));
    } else {
      var n := |more| - 1;
      RunLast(After(w, run), more);
      RunMore(w, run, more[..n]);
      RunNext(w, run + more[..n], more[n], After(After(w, run), more[..n]));
      assert (run + more[..n]) + [more[n]] == run + more;
    }
  }

  lemma RunLast(w: World, run: seq<Action>)
    requires CanRun(w, run) && run != []
    ensures var n := |run| - 1;
            && CanRun(w, run[..n]) && Allowed(After(w, run[..n]), run[n])
            && After(w, run) == Do(After(w, run[..n]), run[n])
  {
    hide Allowed, Do;
  }

  // One reader's whole miss, with nothing in between.
  function Miss(r: nat, n: nat): seq<Action> {
    [Open(r), Stat(r), Lookup(r), Begin(r), Chunk(r, n), Eof(r), Restat(r), Store(r)]
  }

  // A read with nothing in between, of a file the cache does not have: it caches what it
  // read exactly when the file's mtime is outside the window by now.
  lemma MissCaches(w: World, r: nat)
    requires w.link.Some? && w.link.value in w.files && At(w, r).Idle?
    requires w.cache.None? || w.cache.value.key != KeyOf(w.link.value, w.files[w.link.value])
    ensures var id := w.link.value; var f := w.files[id]; var run := Miss(r, |f.bytes|);
            && CanRun(w, run)
            && After(w, run) == Move(w.(cache := Left(id, f, w.now)), r, Parsed(id, f, w.now, f.bytes))
  {
    hide After, CanRun, Move, At, Miss, KeyOf, Left;
    var id, f := w.link.value, w.files[w.link.value];
    var run := MissReads(w, r);
    var judged := Judged(id, f, w.now, KeyOf(id, f), f.bytes, Settled(f.mtime, w.now));
    Moves(w, r, Whole(id, f, w.now, w.now, f.bytes), judged);
    run := MissStep(w, run, r, Whole(id, f, w.now, w.now, f.bytes), Restat(r), judged);
    Moves(w, r, judged, Idle);
    RunNext(w, run, Store(r), Move(w, r, judged));
    Moves(w.(cache := Left(id, f, w.now)), r, judged, Parsed(id, f, w.now, f.bytes));
    CacheMoves(w, r, judged, Left(id, f, w.now));
    LeftIs(id, f, w.now);
    MissIs(r, |f.bytes|);
  }

  // What an undisturbed read of a file leaves in the cache.
  function Left(id: Id, f: File, now: int): Option<Entry> {
    if Settled(f.mtime, now) then Some(Entry(f.bytes, KeyOf(id, f))) else None
  }

  lemma LeftIs(id: Id, f: File, now: int)
    ensures Left(id, f, now) == if Settled(f.mtime, now) then Some(Entry(f.bytes, KeyOf(id, f))) else None
  {
  }

  lemma MissReads(w: World, r: nat) returns (run: seq<Action>)
    requires w.link.Some? && w.link.value in w.files && At(w, r).Idle?
    requires w.cache.None? || w.cache.value.key != KeyOf(w.link.value, w.files[w.link.value])
    ensures var id := w.link.value; var f := w.files[id];
            && CanRun(w, run) && After(w, run) == Move(w, r, Whole(id, f, w.now, w.now, f.bytes))
            && run == [] + [Open(r)] + [Stat(r)] + [Lookup(r)] + [Begin(r)] + [Chunk(r, |f.bytes|)] + [Eof(r)]
  {
    hide After, CanRun, Move, At, More, KeyOf, Settled;
    var id := w.link.value;
    var f := w.files[id];
    var n := |f.bytes|;
    MoreAll(f.bytes);
    run := MissBegins(w, r);
    Moves(w, r, Reading(id, f, w.now, w.now, ""), Reading(id, f, w.now, w.now, f.bytes));
    run := MissStep(w, run, r, Reading(id, f, w.now, w.now, ""), Chunk(r, n), Reading(id, f, w.now, w.now, f.bytes));
    Moves(w, r, Reading(id, f, w.now, w.now, f.bytes), Whole(id, f, w.now, w.now, f.bytes));
    run := MissStep(w, run, r, Reading(id, f, w.now, w.now, f.bytes), Eof(r), Whole(id, f, w.now, w.now, f.bytes));
  }

  // Up to the clock being read.
  lemma MissBegins(w: World, r: nat) returns (run: seq<Action>)
    requires w.link.Some? && w.link.value in w.files && At(w, r).Idle?
    requires w.cache.None? || w.cache.value.key != KeyOf(w.link.value, w.files[w.link.value])
    ensures var id := w.link.value; var f := w.files[id];
            && CanRun(w, run) && After(w, run) == Move(w, r, Reading(id, f, w.now, w.now, ""))
            && run == [] + [Open(r)] + [Stat(r)] + [Lookup(r)] + [Begin(r)]
  {
    hide After, CanRun, Move, At, KeyOf, Settled;
    var id := w.link.value;
    var f := w.files[id];
    NoRun(w);
    RunNext(w, [], Open(r), w);
    run := [] + [Open(r)];
    Moves(w, r, Opened(id), Statted(id, f, w.now));
    run := MissStep(w, run, r, Opened(id), Stat(r), Statted(id, f, w.now));
    Moves(w, r, Statted(id, f, w.now), Missed(id, f, w.now));
    run := MissStep(w, run, r, Statted(id, f, w.now), Lookup(r), Missed(id, f, w.now));
    Moves(w, r, Missed(id, f, w.now), Reading(id, f, w.now, w.now, ""));
    run := MissStep(w, run, r, Missed(id, f, w.now), Begin(r), Reading(id, f, w.now, w.now, ""));
  }

  lemma MissIs(r: nat, n: nat)
    ensures [] + [Open(r)] + [Stat(r)] + [Lookup(r)] + [Begin(r)] + [Chunk(r, n)] + [Eof(r)] + [Restat(r)] + [Store(r)]
            == Miss(r, n)
  {
  }

  lemma MoreAll(bytes: string)
    ensures More("", bytes, |bytes|) == bytes
  {
  }

  lemma CacheMoves(w: World, r: nat, c: Reader, cache: Option<Entry>)
    ensures Move(w, r, c).(cache := cache) == Move(w.(cache := cache), r, c)
  {
  }

  lemma Moves(w: World, r: nat, c: Reader, d: Reader)
    ensures At(Move(w, r, c), r) == c && Move(Move(w, r, c), r, d) == Move(w, r, d)
    ensures Move(w, r, c).files == w.files && Move(w, r, c).now == w.now && Move(w, r, c).cache == w.cache
  {
  }

  lemma MissStep(w: World, run: seq<Action>, r: nat, c: Reader, a: Action, d: Reader) returns (more: seq<Action>)
    requires CanRun(w, run) && After(w, run) == Move(w, r, c) && a.InRead() && a.r == r
    requires Allowed(Move(w, r, c), a)
    requires ReaderStep(Move(w, r, c), r, c, a) == Move(Move(w, r, c), r, d)
    ensures more == run + [a] && CanRun(w, more) && After(w, more) == Move(w, r, d)
  {
    hide After, CanRun, Allowed, ReaderStep;
    Moves(w, r, c, d);
    RunNext(w, run, a, Move(w, r, c));
    more := run + [a];
  }

  lemma NoRun(w: World)
    ensures CanRun(w, []) && After(w, []) == w
  {
  }

  // With the mtime still inside the window at the fstat, that promise cannot be made: the
  // reader is held up, the file is rewritten at the same size within the same tick, another
  // reader caches that, and the first is handed bytes its file did not hold at its fstat.
  lemma SlowReader(w: World, r: nat, q: nat, bytes: string) returns (run: seq<Action>)
    requires Inv(w) && w.link.Some? && r != q && At(w, q).Idle?
    requires At(w, r) == Statted(w.link.value, w.files[w.link.value], w.now)
    requires !Settled(w.files[w.link.value].mtime, w.now) && |bytes| == |w.files[w.link.value].bytes|
    ensures CanRun(w, run) && At(After(w, run), r).Hit? && At(After(w, run), r).text == bytes
  {
    hide After, CanRun, ReaderOk, Miss, Kept, Backed, Left;
    var id, f := w.link.value, w.files[w.link.value];
    var g := f.(bytes := bytes);
    NoRun(w);
    RunNext(w, [], Put(id, g), w);
    StepKeeps(w, Put(id, g));
    var v := Do(w, Put(id, g));
    RunNext(w, [] + [Put(id, g)], Tick(f.mtime + RACY_WINDOW + 1), v);
    StepKeeps(v, Tick(f.mtime + RACY_WINDOW + 1));
    NotCached(w, id, f);
    var u := Do(v, Tick(f.mtime + RACY_WINDOW + 1));
    LeftIs(id, g, u.now);
    MissCaches(u, q);
    run := [] + [Put(id, g)] + [Tick(f.mtime + RACY_WINDOW + 1)];
    RunMore(w, run, Miss(q, |bytes|));
    run := run + Miss(q, |bytes|);
    RunNext(w, run, Lookup(r), After(w, run));
    run := run + [Lookup(r)];
  }

  lemma NotCached(w: World, id: Id, f: File)
    requires Inv(w) && !Settled(f.mtime, w.now)
    ensures w.cache.Some? ==> w.cache.value.key != KeyOf(id, f)
  {
    hide ReaderOk, Backed, KeysTell, NowTells;
    if w.cache.Some? { BackedSettled(w, w.cache.value); }
  }

  lemma BackedSettled(w: World, e: Entry)
    requires Kept(w) && Backed(w, e)
    ensures Settled(e.key.mtime, w.now)
  {
    hide KeysTell, NowTells;
    var at: int :| Moment(e.key.id, File(e.text, e.key.mtime, e.key.ctime), at) in w.moments &&
      Settled(e.key.mtime, at);
  }

  // ----- one call of read -----

  predicate MovesReader(a: Action, r: nat) { (a.InRead() || a.Open? || a.Leave?) && a.r == r }

  lemma OthersLeave(w: World, a: Action, r: nat)
    requires Inv(w) && Allowed(w, a) && !MovesReader(a, r)
    ensures At(Do(w, a), r) == At(w, r) && w.files.Keys <= Do(w, a).files.Keys
  {
    hide Inv, Allowed;
  }

  class Shared {
    var world: World

    constructor (world: World)
      requires Start(world)
      ensures this.world == world && Inv(world)
    {
      this.world := world;
    }

    method Act(a: Action)
      requires Inv(world) && Allowed(world, a)
      modifies this
      ensures world == Do(old(world), a) && Inv(world)
    {
      StepKeeps(world, a);
      world := Do(world, a);
    }

    // Whatever every other reader and writer does meanwhile.
    method Others(acts: seq<Action>, r: nat)
      requires Inv(world)
      modifies this
      ensures Inv(world) && At(world, r) == At(old(world), r) && old(world).files.Keys <= world.files.Keys
      ensures acts == [] ==> world == old(world)
    {
      hide Inv, At, Do, Allowed;
      for i := 0 to |acts|
        invariant Inv(world) && At(world, r) == At(old(world), r) && old(world).files.Keys <= world.files.Keys
        invariant acts == [] ==> world == old(world)
      {
        if Allowed(world, acts[i]) && !MovesReader(acts[i], r) {
          OthersLeave(world, acts[i], r);
          Act(acts[i]);
        }
      }
    }

    // read, with the others let in before each of its steps. Alone, it returns the file's
    // text as it is, whether it finds it in the cache or not.
    method Read(r: nat, script: seq<seq<Action>>) returns (doc: Option<string>)
      requires Inv(world) && At(world, r).Idle?
      modifies this
      ensures Inv(world)
      ensures doc.Some? ==> (At(world, r).Hit? || At(world, r).Parsed?) && doc.value == At(world, r).text
      ensures Quiet(script) ==>
                doc == if old(world).link.None? then None
                       else Some(old(world).files[old(world).link.value].bytes)
    {
      hide Inv, Disciplined, Noted, Quiet, Gap, More, KeyOf;
      QuietGap(script);
      ghost var was := world;
      Others(Gap(script, 0), r);
      if world.link.None? {
        Act(Open(r));
        return None;
      }
      var id := world.link.value;
      LinkThere(world);
      Act(Open(r));
      Others(Gap(script, 1), r);
      Act(Stat(r));
      Others(Gap(script, 2), r);
      HitNow(world, id);
      Act(Lookup(r));
      if At(world, r).Hit? {
        return Some(At(world, r).text);
      }
      var text := ReadText(r, script);
      return Some(text);
    }

    // The rest of a read that missed: the clock, the text a piece at a time, the second
    // fstat, and what it leaves in the cache.
    method ReadText(r: nat, script: seq<seq<Action>>) returns (text: string)
      requires Inv(world) && At(world, r).Missed? && At(world, r).id in world.files
      modifies this
      ensures Inv(world) && At(world, r).Parsed? && text == At(world, r).text
      ensures Quiet(script) ==> text == old(world).files[At(old(world), r).id].bytes
    {
      hide Inv, Do, Allowed, Quiet, Gap, More;
      QuietGap(script);
      ghost var was := world;
      var id := At(world, r).id;
      Others(Gap(script, 3), r);
      BeginDoes(world, r);
      Act(Begin(r));
      var k := 4;
      Others(Gap(script, k), r);
      while |At(world, r).got| < |world.files[id].bytes|
        invariant Inv(world) && At(world, r).Reading? && At(world, r).id == id && id in world.files && k >= 4
        invariant Quiet(script) ==> world.files == was.files && At(world, r).got <= world.files[id].bytes
        decreases if k < |script| then |script| - k else 0, |world.files[id].bytes| - |At(world, r).got|
      {
        MoreGrows(At(world, r).got, world.files[id].bytes, 1);
        k := k + 1;
        PastTheEnd(script, k);
        ReadPiece(r, Gap(script, k));
      }
      text := Finish(r, Gap(script, k + 1), Gap(script, k + 2));
    }

    // One more piece, and what happens after it.
    method ReadPiece(r: nat, meanwhile: seq<Action>)
      requires Inv(world) && At(world, r).Reading? && At(world, r).id in world.files
      modifies this
      ensures Inv(world) && At(world, r).Reading? && At(world, r).id == At(old(world), r).id
      ensures At(world, r).id in world.files
      ensures meanwhile == [] ==>
                && world.files == old(world).files
                && At(world, r).got == More(At(old(world), r).got, world.files[At(world, r).id].bytes, 1)
    {
      hide Inv, Do, Allowed, More;
      ChunkDoes(world, r, 1);
      Act(Chunk(r, 1));
      Others(meanwhile, r);
    }

    // The end of the file, the second fstat and the store.
    method Finish(r: nat, beforeStat: seq<Action>, beforeStore: seq<Action>) returns (text: string)
      requires Inv(world) && At(world, r).Reading? && At(world, r).id in world.files
      requires |At(world, r).got| >= |world.files[At(world, r).id].bytes|
      modifies this
      ensures Inv(world) && At(world, r).Parsed? && text == At(world, r).text == At(old(world), r).got
    {
      hide Inv, Do, Allowed;
      EofDoes(world, r);
      Act(Eof(r));
      Others(beforeStat, r);
      RestatDoes(world, r);
      Act(Restat(r));
      Others(beforeStore, r);
      StoreDoes(world, r);
      Act(Store(r));
      text := At(world, r).text;
    }
  }

  lemma BeginDoes(w: World, r: nat)
    requires At(w, r).Missed?
    ensures Allowed(w, Begin(r)) && Do(w, Begin(r)).files == w.files
    ensures var c := At(w, r); At(Do(w, Begin(r)), r) == Reading(c.id, c.was, c.at, w.now, "")
  {
  }

  lemma ChunkDoes(w: World, r: nat, n: nat)
    requires At(w, r).Reading? && At(w, r).id in w.files
    ensures Allowed(w, Chunk(r, n)) && Do(w, Chunk(r, n)).files == w.files
    ensures var c := At(w, r);
            At(Do(w, Chunk(r, n)), r) == Reading(c.id, c.was, c.at, c.started, More(c.got, w.files[c.id].bytes, n))
  {
    hide More;
  }

  lemma EofDoes(w: World, r: nat)
    requires At(w, r).Reading? && At(w, r).id in w.files && |At(w, r).got| >= |w.files[At(w, r).id].bytes|
    ensures Allowed(w, Eof(r)) && Do(w, Eof(r)).files == w.files
    ensures var c := At(w, r); At(Do(w, Eof(r)), r) == Whole(c.id, c.was, c.at, c.started, c.got)
  {
  }

  lemma RestatDoes(w: World, r: nat)
    requires At(w, r).Whole? && At(w, r).id in w.files
    ensures Allowed(w, Restat(r))
    ensures At(Do(w, Restat(r)), r).Judged? && At(Do(w, Restat(r)), r).got == At(w, r).got
  {
    hide KeyOf, Settled;
  }

  lemma StoreDoes(w: World, r: nat)
    requires At(w, r).Judged?
    ensures Allowed(w, Store(r))
    ensures At(Do(w, Store(r)), r).Parsed? && At(Do(w, Store(r)), r).text == At(w, r).got
  {
    hide KeyOf, Settled;
  }

  lemma MoreGrows(got: string, bytes: string, n: nat)
    requires n > 0 && |got| < |bytes|
    ensures |More(got, bytes, n)| > |got| && |More(got, bytes, n)| <= |bytes|
    ensures got <= bytes ==> More(got, bytes, n) <= bytes
  {
  }

  lemma LinkThere(w: World)
    requires Inv(w)
    ensures w.link.Some? ==> w.link.value in w.files
  {
  }

  // A lookup under the key a file has at the time gives its text of the time.
  lemma HitNow(w: World, id: Id)
    requires Inv(w)
    ensures w.cache.Some? && id in w.files && w.cache.value.key == KeyOf(id, w.files[id]) ==>
              w.cache.value.text == w.files[id].bytes
  {
    hide Backed, ReaderOk, KeysTell, NowTells;
    if w.cache.Some? { EntryTells(w, w.cache.value); }
  }
}
