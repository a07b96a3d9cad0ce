// The lock file: flock decides who holds it, and the record in it says who that is. Every
// handle acts by single steps, any other may act in between, and any may be killed.

module Lock {
  import opened Text
  import opened Interleaving

  type Handle = nat

  // What the file says: nothing, a record cut short (which reads as nothing), or a whole
  // one.
  datatype Record = Empty | Torn | By(handle: Handle)

  datatype Phase =
    | Idle
    | Trying(attempt: nat) | Locked | Cleared | Holding | Letting | Busy(told: Option<Handle>)
    | Asked(data: Handle) | Probing | ProbeCleared | Answer(who: Option<Handle>)

  predicate Owns(p: Phase) { p.Locked? || p.Cleared? || p.Holding? || p.Letting? || p.Probing? || p.ProbeCleared? }

  datatype World = World(owner: Option<Handle>, record: Record, phases: map<Handle, Phase>)

  function At(w: World, h: Handle): Phase { if h in w.phases then w.phases[h] else Idle }

  datatype Action =
    | Acquire(h: Handle) | TryLock(h: Handle) | Clear(h: Handle) | Part(h: Handle) | Fill(h: Handle)
    | Release(h: Handle) | Unlock(h: Handle)
    | Ask(h: Handle) | Probe(h: Handle) | ProbeClear(h: Handle) | ProbeUnlock(h: Handle)
    | Kill(h: Handle) | Leave(h: Handle)

  predicate Allowed(w: World, a: Action) {
    match a
    case Acquire(h) => At(w, h).Idle?
    case TryLock(h) => At(w, h).Trying?
    case Clear(h) => At(w, h).Locked?
    case Part(h) => At(w, h).Cleared?
    case Fill(h) => At(w, h).Cleared?
    case Release(h) => At(w, h).Holding?
    case Unlock(h) => At(w, h).Letting?
    case Ask(h) => At(w, h).Idle?
    case Probe(h) => At(w, h).Asked?
    case ProbeClear(h) => At(w, h).Probing?
    case ProbeUnlock(h) => At(w, h).ProbeCleared?
    case Kill(h) => true
    case Leave(h) => At(w, h).Busy? || At(w, h).Answer?
  }

  function Move(w: World, h: Handle, p: Phase): World { w.(phases := w.phases[h := p]) }

  // What a reader of the record learns.
  function Told(r: Record): Option<Handle> { if r.By? then Some(r.handle) else None }

  // A failed try is repeated once; after that the caller is told who wrote the record.
  function Do(w: World, a: Action): World {
    match a
    case Acquire(h) => Move(w, h, Trying(0))
    case TryLock(h) =>
      if w.owner.None? then Move(w.(owner := Some(h)), h, Locked)
      else if At(w, h).Trying? && At(w, h).attempt == 0 then Move(w, h, Trying(1))
      else Move(w, h, Busy(Told(w.record)))
    case Clear(h) => Move(w.(record := Empty), h, Cleared)
    case Part(h) => w.(record := Torn)
    case Fill(h) => Move(w.(record := By(h)), h, Holding)
    case Release(h) => Move(w.(record := Empty), h, Letting)
    case Unlock(h) => Move(w.(owner := None), h, Idle)
    case Ask(h) => if w.record.By? then Move(w, h, Asked(w.record.handle)) else Move(w, h, Answer(None))
    case Probe(h) =>
      if w.owner.None? then Move(w.(owner := Some(h)), h, Probing)
      else if At(w, h).Asked? then Move(w, h, Answer(Some(At(w, h).data)))
      else w
    case ProbeClear(h) => Move(w.(record := Empty), h, ProbeCleared)
    case ProbeUnlock(h) => Move(w.(owner := None), h, Answer(None))
    case Kill(h) => Move(if w.owner == Some(h) then w.(owner := None) else w, h, Idle)
    case Leave(h) => Move(w, h, Idle)
  }

  // The kernel's lock is with the one handle whose steps say so, and while a holder is
  // inside, the record is its own.
  ghost predicate Inv(w: World) {
    && (forall h: Handle :: Owns(At(w, h)) <==> w.owner == Some(h))
    && (forall h: Handle | At(w, h).Holding? :: w.record == By(h))
  }

  lemma StepKeeps(w: World, a: Action)
    requires Inv(w) && Allowed(w, a)
    ensures Inv(Do(w, a))
  {
    assert Owns(At(w, a.h)) <==> w.owner == Some(a.h);
    forall h: Handle ensures Owns(At(Do(w, a), h)) <==> Do(w, a).owner == Some(h) {
      assert Owns(At(w, h)) <==> w.owner == Some(h);
    }
  }

  function After(w: World, run: seq<Action>): World {
    if run == [] then w else Do(After(w, run[..|run| - 1]), run[|run| - 1])
  }

  ghost predicate CanRun(w: World, run: seq<Action>) {
    run == [] || (CanRun(w, run[..|run| - 1]) && Allowed(After(w, run[..|run| - 1]), run[|run| - 1]))
  }

  // No handle open yet, and whatever record an earlier crash left in the file.
  predicate Start(w: World) { w.owner.None? && w.phases == map[] }

  lemma {:induction false} RunKeeps(w: World, run: seq<Action>)
    requires Inv(w) && CanRun(w, run)
    ensures Inv(After(w, run))
  {
    hide Inv, Do, Allowed;
    if run != [] {
      RunKeeps(w, run[..|run| - 1]);
      StepKeeps(After(w, run[..|run| - 1]), run[|run| - 1]);
    }
  }

  // From the end of an acquire to the start of its release the record on disk is the
  // holder's, whoever else acquires, probes or dies meanwhile; and it holds alone.
  lemma RecordIsHolders(w: World, run: seq<Action>, h: Handle)
    requires Start(w) && CanRun(w, run) && At(After(w, run), h).Holding?
    ensures After(w, run).record == By(h) && After(w, run).owner == Some(h)
    ensures forall q: Handle | q != h :: !Owns(At(After(w, run), q))
  {
    hide After, CanRun;
    RunKeeps(w, run);
    var v := After(w, run);
    assert Owns(At(v, h)) <==> v.owner == Some(h);
    forall q: Handle | q != h ensures !Owns(At(v, q)) { assert Owns(At(v, q)) <==> v.owner == Some(q); }
  }

  // ----- what holder() answers -----

  // A holder() call that lies wholly inside one handle's hold names that handle.
  lemma {:induction false} InsideNames(w: World, run: seq<Action>, h: Handle, q: Handle)
    requires Inv(w) && CanRun(w, run) && h != q && At(w, h).Holding? && At(w, q).Idle?
    requires forall i | 0 <= i < |run| :: run[i].h != h && !(run[i].h == q && run[i].Acquire?)
    ensures At(After(w, run), h).Holding?
    ensures At(After(w, run), q) in {Idle, Asked(h), Answer(Some(h))}
  {
    hide Inv;
    if run != [] {
      var n := |run| - 1;
      InsideNames(w, run[..n], h, q);
      RunKeeps(w, run[..n]);
      InsideStep(After(w, run[..n]), run[n], h, q);
    }
  }

  lemma InsideStep(v: World, a: Action, h: Handle, q: Handle)
    requires Inv(v) && Allowed(v, a) && h != q && a.h != h && !(a.h == q && a.Acquire?)
    requires At(v, h).Holding? && At(v, q) in {Idle, Asked(h), Answer(Some(h))}
    ensures At(Do(v, a), h).Holding? && At(Do(v, a), q) in {Idle, Asked(h), Answer(Some(h))}
  {
    assert Owns(At(v, h)) <==> v.owner == Some(h);
  }

  // At every moment of a run the lock is free, or this handle's.
  ghost predicate Alone(w: World, run: seq<Action>, q: Handle) {
    forall i | 0 <= i <= |run| :: After(w, run[..i]).owner in {None, Some(q)}
  }

  // A holder() call during which nobody else holds or probes the lock answers "nobody", and
  // leaves no record behind, whatever a killed holder had left there.
  lemma {:induction false} AloneNobody(w: World, run: seq<Action>, q: Handle)
    requires Inv(w) && CanRun(w, run) && At(w, q).Idle? && w.owner.None? && Alone(w, run, q)
    requires forall i | 0 <= i < |run| :: run[i].h == q ==> !run[i].Acquire? && !run[i].Kill? && !run[i].Leave?
    ensures var p := At(After(w, run), q);
            && (p.Idle? || p.Asked? || p.Probing? || p.ProbeCleared? || p == Answer(None))
            && (p == Answer(None) || p.ProbeCleared? ==> !After(w, run).record.By?)
  {
    hide Inv;
    if run != [] {
      var n := |run| - 1;
      AloneEarlier(w, run, q);
      AloneNobody(w, run[..n], q);
      RunKeeps(w, run[..n]);
      assert run[..|run|] == run;
      assert After(w, run[..n]).owner in {None, Some(q)};
      AloneStep(After(w, run[..n]), run[n], q);
    }
  }

  lemma AloneEarlier(w: World, run: seq<Action>, q: Handle)
    requires run != [] && Alone(w, run, q)
    ensures Alone(w, run[..|run| - 1], q)
  {
    var n := |run| - 1;
    forall i | 0 <= i <= n ensures After(w, run[..n][..i]).owner in {None, Some(q)} {
      assert run[..n][..i] == run[..i];
    }
  }

  ghost predicate Nobody(v: World, q: Handle) {
    var p := At(v, q);
    && (p.Idle? || p.Asked? || p.Probing? || p.ProbeCleared? || p == Answer(None))
    && (p == Answer(None) || p.ProbeCleared? ==> !v.record.By?)
  }

  lemma AloneStep(v: World, a: Action, q: Handle)
    requires Inv(v) && Allowed(v, a) && Nobody(v, q)
    requires v.owner in {None, Some(q)} && Do(v, a).owner in {None, Some(q)}
    requires a.h == q ==> !a.Acquire? && !a.Kill? && !a.Leave?
    ensures Nobody(Do(v, a), q)
  {
    assert Owns(At(v, a.h)) <==> v.owner == Some(a.h);
    assert Owns(At(v, q)) <==> v.owner == Some(q);
  }

  // ----- the calls themselves -----

  class LockFile {
    var world: World

    constructor (record: Record)
      ensures Start(world) && Inv(world) && world.record == record
    {
      world := World(None, record, map[]);
    }

    method Act(a: Action)
      requires Inv(world) && Allowed(world, a)
      modifies this
      ensures world == Do(old(world), a) && Inv(world)
    {
      StepKeeps(world, a);
      world := Do(world, a);
    }

    // What the other handles do between two steps of this one.
    method Others(acts: seq<Action>, h: Handle)
      requires Inv(world)
      modifies this
      ensures Inv(world) && At(world, h) == At(old(world), h)
      ensures acts == [] ==> world == old(world)
    {
      hide Inv, Allowed;
      for i := 0 to |acts|
        invariant Inv(world) && At(world, h) == At(old(world), h)
        invariant acts == [] ==> world == old(world)
      {
        if Allowed(world, acts[i]) && acts[i].h != h {
          Act(acts[i]);
        }
      }
    }

    // One retry, then BusyError with what the record tells. Undisturbed it gets a free
    // lock, and is told of the handle that holds one that is not free.
    method Acquire(h: Handle, script: seq<seq<Action>>) returns (ok: bool, told: Option<Handle>)
      requires Inv(world) && At(world, h).Idle?
      modifies this
      ensures Inv(world)
      ensures ok ==> At(world, h).Holding? && world.record == By(h)
      ensures !ok ==> At(world, h) == Busy(told)
      ensures Quiet(script) ==> ok == old(world).owner.None?
      ensures Quiet(script) && old(world).owner.Some? && At(old(world), old(world).owner.value).Holding? ==>
                told == old(world).owner
    {
      hide Quiet, Gap;
      QuietGap(script);
      Act(Action.Acquire(h));
      var attempt := 0;
      while true
        invariant Inv(world) && attempt <= 1 && At(world, h) == Trying(attempt)
        invariant Quiet(script) ==>
                    world == Move(old(world), h, Trying(attempt)) && (attempt > 0 ==> old(world).owner.Some?)
        decreases 1 - attempt
      {
        Others(Gap(script, attempt), h);
        Act(TryLock(h));
        if At(world, h).Locked? {
          break;
        }
        if attempt == 1 {
          return false, At(world, h).told;
        }
        attempt := attempt + 1;
      }
      Others(Gap(script, 2), h);
      Act(Clear(h));
      Others(Gap(script, 3), h);
      Act(Part(h));
      Others(Gap(script, 4), h);
      Act(Fill(h));
      return true, None;
    }

    method Release(h: Handle, script: seq<seq<Action>>)
      requires Inv(world) && At(world, h).Holding?
      modifies this
      ensures Inv(world) && At(world, h).Idle? && world.owner != Some(h)
      ensures Quiet(script) ==> world == Move(old(world).(owner := None, record := Empty), h, Idle)
    {
      hide Quiet, Gap;
      QuietGap(script);
      Act(Action.Release(h));
      Others(Gap(script, 0), h);
      Act(Unlock(h));
      assert Owns(At(world, h)) <==> world.owner == Some(h);
    }

    // Who holds the lock: its record, unless a probe finds the lock free.
    method Holder(h: Handle, script: seq<seq<Action>>) returns (who: Option<Handle>)
      requires Inv(world) && At(world, h).Idle?
      modifies this
      ensures Inv(world) && At(world, h) == Answer(who)
      ensures Quiet(script) && old(world).owner.None? ==> who.None? && !world.record.By? && world.owner.None?
      ensures Quiet(script) && old(world).owner.Some? && At(old(world), old(world).owner.value).Holding? ==>
                who == old(world).owner && world.record == old(world).record && world.owner == old(world).owner
    {
      hide Quiet, Gap;
      QuietGap(script);
      Act(Ask(h));
      if At(world, h).Asked? {
        Others(Gap(script, 0), h);
        Act(Probe(h));
        if At(world, h).Probing? {
          Others(Gap(script, 1), h);
          Act(ProbeClear(h));
          Others(Gap(script, 2), h);
          Act(ProbeUnlock(h));
        }
      }
      who := At(world, h).who;
    }
  }
}
