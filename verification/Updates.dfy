// The three writers of the config file: registry edits, settings edits and seeding, each
// its own process, under the one lock file.

module Updates {
  import opened Text
  import opened Interleaving
  import L = Lock

  type Process = nat

  // What one process sets out to do to the text. A registry edit may refuse; a settings
  // edit loads the settings, changes them and writes them into the text read again; seeding
  // adds what is missing.
  datatype Job =
    | Registry(edit: string -> Option<string>)
    | Settings(load: string -> Option<string>, change: string -> Option<string>, write: (string, string) -> string)
    | Seed(missing: string -> bool, add: string -> string)

  // What a job does alone, in one step: the new text, or nothing written.
  function Outcome(job: Job, text: string): Option<string> {
    match job
    case Registry(edit) => edit(text)
    case Settings(load, change, write) =>
      var before := load(text);
      if before.None? then None
      else
        var after := change(before.value);
        if after.None? || after == before then None else Some(write(text, after.value))
    case Seed(missing, add) => if missing(text) then Some(add(text)) else None
  }

  datatype Stage =
    | Out | Loaded(text: string) | Changed(value: string) | Ready(text: string) | Wrote | Over(committed: bool)

  // A completed edit: whose, and in which turn with the lock.
  datatype Edit = Edit(process: Process, turn: nat)

  datatype World = World(jobs: Process -> Job, lock: L.World, content: string, tmp: Option<string>,
                         stages: map<Process, Stage>, entered: seq<Process>, edits: seq<Edit>)

  function At(w: World, p: Process): Stage { if p in w.stages then w.stages[p] else Out }

  function Move(w: World, p: Process, s: Stage): World { w.(stages := w.stages[p := s]) }

  datatype Action =
    | LockStep(step: L.Action)
    | Peek(p: Process) | Load(p: Process) | Change(p: Process) | Reread(p: Process)
    | WritePart(p: Process, n: nat) | WriteAll(p: Process) | Replace(p: Process)

  predicate Allowed(w: World, a: Action) {
    match a
    case LockStep(step) => L.Allowed(w.lock, step) && (step.Acquire? ==> At(w, step.h).Out?)
    case Peek(p) => At(w, p).Out? && w.jobs(p).Seed?
    case Load(p) => L.At(w.lock, p).Holding? && At(w, p).Out?
    case Change(p) => At(w, p).Loaded?
    case Reread(p) => At(w, p).Changed? && w.jobs(p).Settings?
    case WritePart(p, n) => At(w, p).Ready? && n <= |At(w, p).text|
    case WriteAll(p) => At(w, p).Ready?
    case Replace(p) => At(w, p).Wrote? && w.tmp.Some?
  }

  // Letting the lock go, or being killed, ends what was not completed.
  function Ended(s: Stage): Stage { if s.Over? then s else Over(false) }

  function Do(w: World, a: Action): World {
    match a
    case LockStep(step) =>
      var v := w.(lock := L.Do(w.lock, step));
      if step.Fill? then v.(entered := v.entered + [step.h])
      else if step.Release? || step.Kill? then Move(v, step.h, Ended(At(w, step.h)))
      else v
    case Peek(p) =>
      if w.jobs(p).Seed? && !w.jobs(p).missing(w.content) then Move(w, p, Over(false)) else w
    case Load(p) => Move(w, p, Loaded(w.content))
    case Change(p) => if At(w, p).Loaded? then Move(w, p, Decide(w.jobs(p), At(w, p).text)) else w
    case Reread(p) =>
      if At(w, p).Changed? && w.jobs(p).Settings? then Move(w, p, Ready(w.jobs(p).write(w.content, At(w, p).value)))
         else w
    case WritePart(p, n) =>
      if At(w, p).Ready? && n <= |At(w, p).text| then w.(tmp := Some(At(w, p).text[..n])) else w
    case WriteAll(p) => if At(w, p).Ready? then Move(w.(tmp := Some(At(w, p).text)), p, Wrote) else w
    case Replace(p) =>
      if w.tmp.None? || w.entered == [] then w
      else Move(w.(content := w.tmp.value, tmp := None, edits := w.edits + [Edit(p, |w.entered| - 1)]), p, Over(true))
  }

  // What a process makes of the text it loaded.
  function Decide(job: Job, text: string): Stage {
    match job
    case Registry(edit) => if edit(text).Some? then Ready(edit(text).value) else Over(false)
    case Settings(load, change, write) =>
      if load(text).None? then Over(false)
      else
        var after := change(load(text).value);
        if after.None? || after == load(text) then Over(false) else Changed(after.value)
    case Seed(missing, add) => if missing(text) then Ready(add(text)) else Over(false)
  }

  // The completed edits, one after another, each as if alone.
  function Replayed(jobs: Process -> Job, initial: string, edits: seq<Edit>): string {
    if edits == [] then initial
    else
      var before := Replayed(jobs, initial, edits[..|edits| - 1]);
      var done := Outcome(jobs(edits[|edits| - 1].process), before);
      if done.Some? then done.value else before
  }

  // Each of them had something to write.
  predicate Effective(jobs: Process -> Job, initial: string, edits: seq<Edit>) {
    edits == [] ||
    (var n := |edits| - 1;
     Effective(jobs, initial, edits[..n]) && Outcome(jobs(edits[n].process), Replayed(jobs, initial, edits[..n])).Some?)
  }

  // ----- the invariant -----

  ghost predicate StageOk(w: World, p: Process) {
    match At(w, p)
    case Out => true
    case Over(_) => true
    case Loaded(text) => text == w.content
    case Changed(value) =>
      w.jobs(p).Settings? && Decide(w.jobs(p), w.content) == Changed(value)
    case Ready(text) => Outcome(w.jobs(p), w.content) == Some(text)
    case Wrote => w.tmp.Some? && Outcome(w.jobs(p), w.content) == w.tmp
  }

  predicate Working(s: Stage) { s.Loaded? || s.Changed? || s.Ready? || s.Wrote? }

  // Only the holder works, and it is the one that entered last.
  ghost predicate Exclusive(w: World) {
    && L.Inv(w.lock)
    && (forall p: Process | Working(At(w, p)) :: L.At(w.lock, p).Holding?)
    && (forall p: Process | L.At(w.lock, p).Holding? :: w.entered != [] && w.entered[|w.entered| - 1] == p)
  }

  function Completed(edits: seq<Edit>): set<Process> { set e | e in edits :: e.process }

  // Edits complete in the order their processes got the lock, one a process.
  ghost predicate Ordered(w: World) {
    && (forall i, j | 0 <= i < j < |w.edits| :: w.edits[i].turn < w.edits[j].turn)
    && (forall e | e in w.edits :: e.turn < |w.entered| && w.entered[e.turn] == e.process)
    && (forall p: Process :: At(w, p) == Over(true) <==> p in Completed(w.edits))
    && (forall i, j | 0 <= i < j < |w.edits| :: w.edits[i].process != w.edits[j].process)
  }

  ghost predicate Inv(w: World, initial: string) {
    && Exclusive(w) && Ordered(w)
    && w.content == Replayed(w.jobs, initial, w.edits) && Effective(w.jobs, initial, w.edits)
    && forall p: Process :: StageOk(w, p)
  }

  lemma OrderedStays(w: World, v: World)
    requires Ordered(w) && v.edits == w.edits && w.entered <= v.entered
    requires forall p: Process :: At(v, p) == Over(true) <==> At(w, p) == Over(true)
    ensures Ordered(v)
  {
  }

  lemma ExclusiveStays(w: World, step: L.Action)
    requires Exclusive(w) && Allowed(w, LockStep(step))
    ensures Exclusive(Do(w, LockStep(step)))
  {
    hide L.Inv;
    L.StepKeeps(w.lock, step);
    StepIsOwn(w.lock, step);
  }

  // A step holds or lets go for its own handle only.
  lemma StepIsOwn(w: L.World, step: L.Action)
    requires L.Allowed(w, step)
    ensures forall h: Process | h != step.h :: L.At(L.Do(w, step), h) == L.At(w, h)
    ensures L.At(L.Do(w, step), step.h).Holding? <==>
            step.Fill? || (L.At(w, step.h).Holding? && !step.Release? && !step.Kill?)
  {
  }

  lemma LockStepKeeps(w: World, step: L.Action, initial: string)
    requires Inv(w, initial) && Allowed(w, LockStep(step))
    ensures Inv(Do(w, LockStep(step)), initial)
  {
    hide Ordered, Replayed, Effective, Outcome, Decide, Exclusive;
    ExclusiveStays(w, step);
    var v := Do(w, LockStep(step));
    OrderedStays(w, v);
    forall p: Process ensures StageOk(v, p) { assert StageOk(w, p); }
  }

  // One process works on; nobody else is at it.
  lemma WorkKeeps(w: World, p: Process, s: Stage, tmp: Option<string>, initial: string)
    requires Inv(w, initial) && L.At(w.lock, p).Holding? && At(w, p) != Over(true) && s != Over(true)
    requires StageOk(Move(w.(tmp := tmp), p, s), p)
    ensures Inv(Move(w.(tmp := tmp), p, s), initial)
  {
    hide Ordered, Replayed, Effective, Outcome, Decide;
    var v := Move(w.(tmp := tmp), p, s);
    OrderedStays(w, v);
    forall q: Process ensures StageOk(v, q) {
      assert StageOk(w, q);
      if q != p { OthersWait(w, p, q); }
    }
  }

  lemma OthersWait(w: World, p: Process, q: Process)
    requires Exclusive(w) && L.At(w.lock, p).Holding? && p != q
    ensures !Working(At(w, q)) && !L.At(w.lock, q).Holding?
  {
    assert L.Owns(L.At(w.lock, p)) <==> w.lock.owner == Some(p);
    assert L.Owns(L.At(w.lock, q)) <==> w.lock.owner == Some(q);
  }

  // Replacing the file completes the edit: the text is what the job makes of the text as
  // it was.
  lemma ReplaceKeeps(w: World, p: Process, initial: string)
    requires Inv(w, initial) && At(w, p).Wrote?
    ensures Inv(Do(w, Replace(p)), initial)
  {
    hide Outcome, Ordered, Exclusive, Replayed, Effective;
    var v := Do(w, Replace(p));
    assert StageOk(w, p);
    LastIn(w, p);
    ReplaceOrdered(w, p);
    ReplayNext(w.jobs, initial, w.edits, Edit(p, |w.entered| - 1));
    SameLock(w, v, p);
    forall q: Process ensures StageOk(v, q) {
      assert StageOk(w, q);
      if q != p { OthersWait(w, p, q); }
    }
  }

  lemma LastIn(w: World, p: Process)
    requires Exclusive(w) && Working(At(w, p))
    ensures w.entered != [] && w.entered[|w.entered| - 1] == p && L.At(w.lock, p).Holding?
  {
    hide L.Inv;
  }

  lemma SameLock(w: World, v: World, p: Process)
    requires Exclusive(w) && v.lock == w.lock && v.entered == w.entered
    requires forall q: Process | q != p :: At(v, q) == At(w, q)
    requires L.At(w.lock, p).Holding?
    ensures Exclusive(v)
  {
    hide L.Inv;
  }

  lemma ReplayNext(jobs: Process -> Job, initial: string, edits: seq<Edit>, e: Edit)
    ensures var before := Replayed(jobs, initial, edits);
            var done := Outcome(jobs(e.process), before);
            && Replayed(jobs, initial, edits + [e]) == (if done.Some? then done.value else before)
            && (Effective(jobs, initial, edits + [e]) <==> Effective(jobs, initial, edits) && done.Some?)
  {
    hide Outcome;
    assert (edits + [e])[..|edits|] == edits;
  }

  lemma ReplaceOrdered(w: World, p: Process)
    requires Ordered(w) && At(w, p).Wrote? && w.tmp.Some? && w.entered != [] && w.entered[|w.entered| - 1] == p
    ensures Ordered(Do(w, Replace(p)))
  {
    hide Completed;
    var v := Do(w, Replace(p));
    var e := Edit(p, |w.entered| - 1);
    ReplaceIs(w, p);
    CompletedNext(w.edits, e);
    forall i | 0 <= i < |w.edits| ensures w.edits[i].turn < e.turn && w.edits[i].process != p {
      assert w.edits[i] in w.edits;
      CompletedHas(w.edits, i);
    }
  }

  lemma ReplaceIs(w: World, p: Process)
    requires At(w, p).Wrote? && w.tmp.Some? && w.entered != []
    ensures var v := Do(w, Replace(p));
            && v.edits == w.edits + [Edit(p, |w.entered| - 1)] && v.entered == w.entered
            && At(v, p) == Over(true) && forall q: Process | q != p :: At(v, q) == At(w, q)
  {
  }

  lemma CompletedNext(edits: seq<Edit>, e: Edit)
    ensures Completed(edits + [e]) == Completed(edits) + {e.process}
  {
  }

  lemma CompletedHas(edits: seq<Edit>, i: nat)
    requires i < |edits|
    ensures edits[i].process in Completed(edits)
  {
    assert edits[i] in edits;
  }

  // Every step of every process, and of everyone who only uses the lock, keeps it.
  lemma StepKeeps(w: World, a: Action, initial: string)
    requires Inv(w, initial) && Allowed(w, a)
    ensures Inv(Do(w, a), initial)
  {
    hide Ordered, Replayed, Effective;
    match a {
      case LockStep(step) => LockStepKeeps(w, step, initial);
      case Peek(p) => PeekKeeps(w, p, initial);
      case Load(p) => WorkKeeps(w, p, Loaded(w.content), w.tmp, initial);
      case Change(p) => assert StageOk(w, p); WorkKeeps(w, p, Decide(w.jobs(p), At(w, p).text), w.tmp, initial);
      case Reread(p) => assert StageOk(w, p); WorkKeeps(w, p, At(Do(w, a), p), w.tmp, initial);
      case WritePart(p, n) =>
        assert StageOk(w, p);
        WorkKeeps(w, p, At(w, p), Some(At(w, p).text[..n]), initial);
        assert Do(w, a) == Move(Do(w, a), p, At(w, p));
      case WriteAll(p) => assert StageOk(w, p); WorkKeeps(w, p, Wrote, Some(At(w, p).text), initial);
      case Replace(p) => ReplaceKeeps(w, p, initial);
    }
  }

  lemma PeekKeeps(w: World, p: Process, initial: string)
    requires Inv(w, initial) && Allowed(w, Peek(p))
    ensures Inv(Do(w, Peek(p)), initial)
  {
    hide Ordered, Replayed, Effective, Outcome, Decide;
    var v := Do(w, Peek(p));
    OrderedStays(w, v);
    forall q: Process ensures StageOk(v, q) { assert StageOk(w, q); }
  }

  // ----- runs -----

  predicate Start(w: World) {
    L.Start(w.lock) && w.tmp.None? && w.stages == map[] && w.entered == [] && w.edits == []
  }

  function After(w: World, run: seq<Action>): World {
    if run == [] then w else Do(After(w, run[..|run| - 1]), run[|run| - 1])
  }

  ghost predicate CanRun(w: World, run: seq<Action>) {
    run == [] || (CanRun(w, run[..|run| - 1]) && Allowed(After(w, run[..|run| - 1]), run[|run| - 1]))
  }

  lemma {:induction false} RunKeeps(w: World, run: seq<Action>)
    requires Start(w) && CanRun(w, run)
    ensures Inv(After(w, run), w.content) && After(w, run).jobs == w.jobs
  {
    hide Do, Allowed, Exclusive, Ordered;
    if run != [] {
      RunKeeps(w, run[..|run| - 1]);
      StepKeeps(After(w, run[..|run| - 1]), run[|run| - 1], w.content);
      SameJobs(After(w, run[..|run| - 1]), run[|run| - 1]);
    } else {
      StartOk(w);
    }
  }

  lemma SameJobs(w: World, a: Action)
    ensures Do(w, a).jobs == w.jobs
  {
  }

  lemma StartOk(w: World)
    requires Start(w)
    ensures Inv(w, w.content)
  {
  }

  // No lost update. After any run of registry edits, settings edits and seeding, with kills
  // anywhere, the file's text is the first one with the completed edits applied whole, one
  // after another, in the order their processes got the lock. An edit that raised, was
  // refused the lock, was killed before its replace or had nothing to change is not among
  // them; one that replaced the file is, once.
  lemma NoLostUpdate(w: World, run: seq<Action>)
    requires Start(w) && CanRun(w, run)
    ensures var v := After(w, run);
            && v.content == Replayed(w.jobs, w.content, v.edits) && Effective(w.jobs, w.content, v.edits)
            && (forall i, j | 0 <= i < j < |v.edits| ::
                  v.edits[i].turn < v.edits[j].turn && v.edits[i].process != v.edits[j].process)
            && (forall e | e in v.edits :: e.turn < |v.entered| && v.entered[e.turn] == e.process)
            && (forall p: Process :: At(v, p) == Over(true) <==> p in Completed(v.edits))
  {
    hide After, CanRun, Replayed, Effective;
    RunKeeps(w, run);
  }

  // ----- one process's call -----

  // A step that only others' processes take.
  predicate ByOther(a: Action, p: Process) { (if a.LockStep? then a.step.h else a.p) != p }

  lemma OtherStep(w: World, a: Action, p: Process)
    requires ByOther(a, p) && Allowed(w, a)
    ensures At(Do(w, a), p) == At(w, p) && L.At(Do(w, a).lock, p) == L.At(w.lock, p)
    ensures Do(w, a).jobs == w.jobs
  {
  }

  // While one holds the lock nobody else touches the file or its temporary.
  lemma HolderOwnsFile(w: World, a: Action, p: Process)
    requires Exclusive(w) && ByOther(a, p) && Allowed(w, a) && L.At(w.lock, p).Holding?
    ensures Do(w, a).content == w.content && Do(w, a).tmp == w.tmp
  {
    hide L.Do, L.Allowed, Outcome, Decide;
    if !a.LockStep? { OthersWait(w, p, a.p); }
  }

  class ConfigFile {
    var world: World
    ghost const initial: string

    constructor (world: World)
      requires Start(world)
      ensures this.world == world && initial == world.content && Inv(world, initial)
    {
      StartOk(world);
      this.world, initial := world, world.content;
    }

    method Act(a: Action)
      requires Inv(world, initial) && Allowed(world, a)
      modifies this
      ensures world == Do(old(world), a) && Inv(world, initial) && world.jobs == old(world).jobs
    {
      StepKeeps(world, a, initial);
      SameJobs(world, a);
      world := Do(world, a);
    }

    method Others(acts: seq<Action>, p: Process)
      requires Inv(world, initial)
      modifies this
      ensures Inv(world, initial) && world.jobs == old(world).jobs
      ensures At(world, p) == At(old(world), p) && L.At(world.lock, p) == L.At(old(world).lock, p)
      ensures L.At(world.lock, p).Holding? ==> world.content == old(world).content && world.tmp == old(world).tmp
    {
      hide Ordered, Exclusive, Replayed, Effective, StageOk, Allowed, Do, At, L.At;
      for i := 0 to |acts|
        invariant Inv(world, initial) && world.jobs == old(world).jobs
        invariant L.At(world.lock, p).Holding? ==> world.content == old(world).content && world.tmp == old(world).tmp
        invariant At(world, p) == At(old(world), p) && L.At(world.lock, p) == L.At(old(world).lock, p)
      {
        if Allowed(world, acts[i]) && ByOther(acts[i], p) {
          OtherStep(world, acts[i], p);
          if L.At(world.lock, p).Holding? { HolderOwnsFile(world, acts[i], p); }
          Act(acts[i]);
        }
      }
    }

    // One process's edit, holding the lock: load, decide, write the temporary file, replace.
    // Whatever the others do meanwhile, the text becomes what the job makes of the text as
    // it is, or stays.
    method Mutate(p: Process, script: seq<seq<Action>>) returns (committed: bool)
      requires Inv(world, initial) && L.At(world.lock, p).Holding? && At(world, p).Out?
      modifies this
      ensures Inv(world, initial) && At(world, p) == Over(committed)
      ensures committed <==> Outcome(old(world).jobs(p), old(world).content).Some?
      ensures committed ==> Some(world.content) == Outcome(old(world).jobs(p), old(world).content)
      ensures !committed ==> world.content == old(world).content
    {
      hide Exclusive, Ordered, Replayed, Effective, Inv, L.Do, L.Allowed, L.At;
      Act(Load(p));
      Others(Gap(script, 0), p);
      Act(Change(p));
      Others(Gap(script, 1), p);
      if At(world, p).Changed? {
        Act(Reread(p));
        Others(Gap(script, 2), p);
      }
      if At(world, p).Over? {
        return false;
      }
      Write(p, script);
      committed := true;
    }

    // The temporary file, written piece by piece, then moved over the config.
    method Write(p: Process, script: seq<seq<Action>>)
      requires Inv(world, initial) && L.At(world.lock, p).Holding? && At(world, p).Ready?
      modifies this
      ensures Inv(world, initial) && At(world, p) == Over(true)
      ensures world.content == At(old(world), p).text && world.jobs == old(world).jobs
    {
      hide Exclusive, Ordered, Replayed, Effective, Inv, L.Do, L.Allowed, L.At, Outcome, Decide;
      Act(WritePart(p, |At(world, p).text| / 2));
      Others(Gap(script, 3), p);
      Act(WriteAll(p));
      Others(Gap(script, 4), p);
      HasEntered(world, p, initial);
      Act(Replace(p));
      Others(Gap(script, 5), p);
    }
  }

  lemma HasEntered(w: World, p: Process, initial: string)
    requires Inv(w, initial) && L.At(w.lock, p).Holding?
    ensures w.entered != []
  {
    hide Ordered, Replayed, Effective, StageOk, L.Inv, L.At;
  }
}
