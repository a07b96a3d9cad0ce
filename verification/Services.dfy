// Stopping units around a write, and the journal that lets a crash be put right. Every
// step leaves an event, so a kill at any moment is a prefix of the trace.

module Services {
  import opened Text

  type Unit = string

  // Saw is an is_active answer; Found is the one reconcile takes as "already running". A start
  // is ok when the call on the controller returned.
  datatype Event =
    | Saw(unit: Unit, active: bool) | Found(unit: Unit)
    | Record(units: seq<Unit>) | Clear
    | Stop(unit: Unit) | Start(unit: Unit, ok: bool)
    | Write(target: nat) | Filed(target: nat) | Settled(target: nat)
  {
    predicate IsWork() { Write? || Filed? || Settled? }
  }

  // The units the journal file names after a trace; none when there is no entry.
  function Journal(t: seq<Event>): seq<Unit> {
    if t == [] then [] else
      match t[|t| - 1]
      case Record(units) => units
      case Clear => []
      case _ => Journal(t[..|t| - 1])
  }

  // Units a stop was called on, and since then neither a start that went through nor a
  // finding that they run.
  function Down(t: seq<Event>): set<Unit> {
    if t == [] then {} else
      var before := Down(t[..|t| - 1]);
      match t[|t| - 1]
      case Stop(u) => before + {u}
      case Start(u, ok) => if ok then before - {u} else before
      case Found(u) => before - {u}
      case _ => before
  }

  function Names(units: seq<Unit>): set<Unit> { set u | u in units }

  predicate SafeNow(t: seq<Event>) { Down(t) <= Names(Journal(t)) }

  // Killed after any of its events, the journal names every unit that is down.
  ghost predicate Safe(t: seq<Event>) { forall p | 0 <= p <= |t| :: SafeNow(t[..p]) }

  lemma Next(t: seq<Event>, e: Event)
    ensures (t + [e])[..|t|] == t && (t + [e])[|t|] == e
    ensures Safe(t) && SafeNow(t + [e]) ==> Safe(t + [e])
    ensures Safe(t + [e]) ==> Safe(t) && SafeNow(t + [e])
  {
    var more := t + [e];
    assert more[..|t|] == t && more[..|more|] == more;
    forall p | 0 <= p <= |t| ensures more[..p] == t[..p] { }
    if Safe(more) {
      forall p | 0 <= p <= |t| ensures SafeNow(t[..p]) { assert SafeNow(more[..p]); }
    }
  }

  lemma SafeIsSafeNow(t: seq<Event>)
    requires Safe(t)
    ensures SafeNow(t)
  {
    assert t[..|t|] == t;
  }

  // A kill keeps the trace so far; what is left is as safe.
  lemma KillIsSafe(t: seq<Event>, cut: nat)
    requires Safe(t) && cut <= |t|
    ensures Safe(t[..cut])
  {
    forall p | 0 <= p <= cut ensures SafeNow(t[..cut][..p]) { assert t[..cut][..p] == t[..p]; }
  }

  function StartsOf(t: seq<Event>): seq<Unit> {
    if t == [] then [] else
      var before := StartsOf(t[..|t| - 1]);
      if t[|t| - 1].Start? then before + [t[|t| - 1].unit] else before
  }

  // The writing a trace records: what the batch did, leaving out the service's own steps.
  function WorkOf(t: seq<Event>): seq<Event> {
    if t == [] then [] else
      var before := WorkOf(t[..|t| - 1]);
      if t[|t| - 1].IsWork() then before + [t[|t| - 1]] else before
  }

  // How many starts in a row, from a moment on, go through: up to the first that raises.
  function Through(raises: nat -> bool, from: nat, n: nat): (k: nat)
    ensures k <= n && (forall m | from <= m < from + k :: !raises(m)) && (k < n ==> raises(from + k))
  {
    if n == 0 then 0
    else
      var before := Through(raises, from, n - 1);
      if before < n - 1 || raises(from + n - 1) then before else n
  }

  lemma ThroughIs(raises: nat -> bool, from: nat, n: nat, k: nat)
    requires k <= n && (forall m | from <= m < from + k :: !raises(m)) && (k < n ==> raises(from + k))
    ensures Through(raises, from, n) == k
  {
  }

  function Starts(units: seq<Unit>): seq<Event> {
    if units == [] then [] else Starts(units[..|units| - 1]) + [Start(units[|units| - 1], true)]
  }

  lemma StartsNext(units: seq<Unit>, u: Unit)
    ensures Starts(units + [u]) == Starts(units) + [Start(u, true)]
  {
    assert (units + [u])[..|units|] == units;
  }

  // A restart of some units: n starts that go through, the one that raises if there is one,
  // and the journal cleared.
  function RestartEvents(units: seq<Unit>, n: nat): seq<Event>
    requires n <= |units|
  {
    Starts(units[..n]) + (if n < |units| then [Start(units[n], false)] else []) + [Clear]
  }

  // After before, a trace is a restart of those units, as the host's answers at those
  // moments make it.
  ghost predicate Restarted(before: seq<Event>, t: seq<Event>, toStop: seq<Unit>, raises: nat -> bool,
                            started: seq<Unit>) {
    var n := Through(raises, |before|, |toStop|);
    started == Reverse(toStop)[..n] && t == before + RestartEvents(Reverse(toStop), n)
  }

  function Reverse(units: seq<Unit>): (r: seq<Unit>)
    ensures |r| == |units| && forall i | 0 <= i < |r| :: r[i] == units[|units| - 1 - i]
  {
    if units == [] then [] else [units[|units| - 1]] + Reverse(units[..|units| - 1])
  }

  // The units of the first n probes that answered "active", in order.
  function ActiveOf(probes: seq<Event>): seq<Unit> {
    if probes == [] then [] else
      var before, last := ActiveOf(probes[..|probes| - 1]), probes[|probes| - 1];
      if last.Saw? && last.active then before + [last.unit] else before
  }

  // What putting one unit right leaves: its answer, and then that it was found running or was
  // started.
  function PutRightEvents(moment: nat, u: Unit, answers: nat -> bool, raises: nat -> bool): (events: seq<Event>)
    ensures |events| == 2
  {
    [Saw(u, answers(moment)), if answers(moment) then Found(u) else Start(u, !raises(moment + 1))]
  }

  predicate PutRightAt(t: seq<Event>, moment: nat, u: Unit, answers: nat -> bool, raises: nat -> bool) {
    && moment + 2 <= |t| && t[moment] == Saw(u, answers(moment))
    && t[moment + 1] == if answers(moment) then Found(u) else Start(u, !raises(moment + 1))
  }

  // The units that answer that they do not run, asked in turn from a moment on.
  function Inactive(units: seq<Unit>, moment: nat, answers: nat -> bool): seq<Unit> {
    if units == [] then []
    else
      var n := |units| - 1;
      Inactive(units[..n], moment, answers) + if answers(moment + 2 * n) then [] else [units[n]]
  }

  datatype Entry = Inside | NotStopped(unit: Unit) | StopRaised

  // The host as this process meets it. What units answer, and whether a call on one raises -
  // a stop or a poll after it, a start or the probe that decides on it - is any function of
  // the moment it is asked.
  class Host {
    var trace: seq<Event>
    const answers: nat -> bool
    const stopRaises: nat -> bool
    const startRaises: nat -> bool

    constructor (answers: nat -> bool, stopRaises: nat -> bool, startRaises: nat -> bool)
      ensures trace == [] && this.answers == answers
      ensures this.stopRaises == stopRaises && this.startRaises == startRaises
    {
      this.answers, this.stopRaises, this.startRaises := answers, stopRaises, startRaises;
      trace := [];
    }

    method Log(e: Event)
      modifies this
      ensures trace == old(trace) + [e]
    {
      trace := trace + [e];
    }

    method IsActive(u: Unit) returns (active: bool)
      modifies this
      ensures active == answers(|old(trace)|) && trace == old(trace) + [Saw(u, active)]
    {
      active := answers(|trace|);
      Log(Saw(u, active));
    }

    // The controllers that are running, one probe each.
    method FindActive(units: seq<Unit>) returns (toStop: seq<Unit>)
      modifies this
      ensures Quietly(old(trace), trace) && |trace| == |old(trace)| + |units|
      ensures WorkOf(trace) == WorkOf(old(trace))
      ensures forall i | 0 <= i < |units| ::
                trace[|old(trace)| + i] == Saw(units[i], answers(|old(trace)| + i))
      ensures toStop == ActiveOf(trace[|old(trace)|..])
    {
      hide Quietly, WorkOf, ActiveOf;
      toStop := [];
      ghost var t0 := trace;
      QuietRefl(t0);
      NoneActive(t0);
      for i := 0 to |units|
        invariant Quietly(t0, trace) && |trace| == |t0| + i && WorkOf(trace) == WorkOf(t0)
        invariant forall j | 0 <= j < i :: trace[|t0| + j] == Saw(units[j], answers(|t0| + j))
        invariant toStop == ActiveOf(trace[|t0|..])
      {
        ghost var t := trace;
        var active := IsActive(units[i]);
        QuietNext(t0, t, Saw(units[i], active));
        Step(t, Saw(units[i], active));
        ActiveNext(t, |t0|, units[i], active);
        if active {
          toStop := toStop + [units[i]];
        }
      }
    }

    // Polls until the unit is down, the time allowed is over, or a poll raises.
    method AwaitDown(u: Unit, patience: nat) returns (raised: bool, down: bool)
      modifies this
      ensures Quietly(old(trace), trace) && WorkOf(trace) == WorkOf(old(trace))
      ensures raised ==> stopRaises(|trace|)
      ensures !raised && down ==> |trace| > |old(trace)| && trace[|trace| - 1] == Saw(u, false)
      ensures !raised && !down ==> StillUp(trace, u, patience + 1)
    {
      ghost var t0 := trace;
      QuietRefl(t0);
      for polls := 0 to patience + 1
        invariant Quietly(t0, trace) && WorkOf(trace) == WorkOf(t0)
        invariant StillUp(trace, u, polls)
      {
        if stopRaises(|trace|) {
          return true, false;
        }
        ghost var t := trace;
        var active := IsActive(u);
        QuietNext(t0, t, Saw(u, active));
        Step(t, Saw(u, active));
        if !active {
          return false, true;
        }
      }
      raised, down := false, false;
    }

    // Starts in reverse order up to the first start that raises, then clears the journal
    // whatever happened.
    method RestartAll(toStop: seq<Unit>) returns (started: seq<Unit>, raised: bool)
      modifies this
      ensures Restarted(old(trace), trace, toStop, startRaises, started) && old(trace) <= trace
      ensures raised == (|started| < |toStop|) && (raised ==> startRaises(|old(trace)| + |started|))
      ensures WorkOf(trace) == WorkOf(old(trace))
      ensures Journal(trace) == [] && Down(trace) == Down(old(trace)) - Names(started)
      ensures Safe(trace) <==> Safe(old(trace)) && Down(old(trace)) <= Names(started)
    {
      hide StartedSo, Down, Journal, WorkOf, Safe, Restarted, Reverse;
      started, raised := [], false;
      ghost var t0, order := trace, Reverse(toStop);
      NoneStarted(t0, order, startRaises);
      var i := |toStop|;
      while i > 0 && !raised
        invariant 0 <= i <= |toStop| && i == |toStop| - |started| - if raised then 1 else 0
        invariant StartedSo(t0, trace, order, startRaises, started, raised)
        decreases i
      {
        i := i - 1;
        ghost var t := trace;
        raised := startRaises(|trace|);
        var e := Start(toStop[i], !raised);
        Log(e);
        StartMore(t0, t, order, startRaises, started);
        if !raised {
          started := started + [toStop[i]];
        }
      }
      ghost var t := trace;
      Log(Clear);
      StartsAre(t0, t, toStop, startRaises, started, raised);
      StartedMeans(t0, t, order, startRaises, started, raised);
      StartsDone(t0, t, order, startRaises, started, raised);
    }

    // Stops one unit and, unless told not to, waits until it is down.
    method StopOne(u: Unit, verify: bool, patience: nat) returns (raised: bool, down: bool)
      modifies this
      ensures old(trace) < trace && StartsOf(trace) == StartsOf(old(trace)) && WorkOf(trace) == WorkOf(old(trace))
      ensures Journal(trace) == Journal(old(trace)) && Down(trace) == Down(old(trace)) + {u}
      ensures Safe(trace) <==> Safe(old(trace)) && u in Journal(trace)
      ensures raised ==> exists n :: stopRaises(n)
      ensures !raised && !down ==> StillUp(trace, u, patience + 1)
      ensures !raised && down && verify ==> forall since: nat | since <= |old(trace)| :: SeenDown(trace, since, u)
    {
      hide Down, Journal, StartsOf, WorkOf, Safe, Quietly, StillUp;
      ghost var t := trace;
      raised, down := stopRaises(|trace|), true;
      Log(Stop(u));
      Step(t, Stop(u));
      Next(t, Stop(u));
      SafeMeans(t);
      if !raised && verify {
        ghost var t1 := trace;
        raised, down := AwaitDown(u, patience);
        QuietFacts(t1, trace);
      }
    }

    method StopEach(toStop: seq<Unit>, verify: bool, patience: nat) returns (r: Entry, stopped: seq<Unit>)
      modifies this
      ensures old(trace) <= trace && StartsOf(trace) == StartsOf(old(trace)) && Journal(trace) == Journal(old(trace))
      ensures WorkOf(trace) == WorkOf(old(trace))
      ensures stopped <= toStop && Down(trace) == Down(old(trace)) + Names(stopped)
      ensures Safe(trace) <==> Safe(old(trace)) && Names(stopped) <= Names(Journal(old(trace)))
      ensures r.Inside? ==> stopped == toStop
      ensures r.NotStopped? ==>
                stopped != [] && r.unit == stopped[|stopped| - 1] && StillUp(trace, r.unit, patience + 1)
      ensures r.StopRaised? ==> exists n :: stopRaises(n)
      ensures r.Inside? && verify ==> forall u | u in toStop :: SeenDown(trace, |old(trace)|, u)
    {
      hide Down, Journal, StartsOf, WorkOf, Safe, SeenDown, StillUp;
      ghost var t0 := trace;
      stopped := [];
      for i := 0 to |toStop|
        invariant t0 <= trace && stopped == toStop[..i]
        invariant StartsOf(trace) == StartsOf(t0) && Journal(trace) == Journal(t0) && WorkOf(trace) == WorkOf(t0)
        invariant Down(trace) == Down(t0) + Names(stopped)
        invariant Safe(trace) <==> Safe(t0) && Names(stopped) <= Names(Journal(t0))
        invariant verify ==> forall u | u in stopped :: SeenDown(trace, |t0|, u)
      {
        ghost var t := trace;
        var raised, down := StopOne(toStop[i], verify, patience);
        NamesNext(stopped, toStop[i]);
        stopped := stopped + [toStop[i]];
        if raised {
          return StopRaised, stopped;
        }
        if !down {
          return NotStopped(toStop[i]), stopped;
        }
        if verify {
          SeenStays(t, trace, |t0|, toStop[..i]);
        }
      }
      r := Inside;
    }

    // Records, stops and verifies. Not verified in time: everything is restarted, after
    // before.
    method Enter(units: seq<Unit>, verify: bool, patience: nat)
      returns (toStop: seq<Unit>, r: Entry, stopped: seq<Unit>, started: seq<Unit>, ghost before: seq<Event>)
      modifies this
      ensures old(trace) <= trace && |trace| >= |old(trace)| + |units|
      ensures forall i | 0 <= i < |units| ::
                trace[|old(trace)| + i] == Saw(units[i], answers(|old(trace)| + i))
      ensures toStop == ActiveOf(trace[|old(trace)|..|old(trace)| + |units|])
      ensures stopped <= toStop && WorkOf(trace) == WorkOf(old(trace))
      ensures r.Inside? ==> stopped == toStop
      ensures !r.NotStopped? ==> && started == [] && StartsOf(trace) == StartsOf(old(trace))
                                 && Journal(trace) == (if toStop == [] then Journal(old(trace)) else toStop)
                                 && Down(trace) == Down(old(trace)) + Names(stopped)
                                 && (Safe(trace) <==>
                                        Safe(old(trace)) && (toStop == [] || Down(old(trace)) <= Names(toStop)))
      ensures r.NotStopped? ==> && old(trace) <= before && StartsOf(before) == StartsOf(old(trace))
                                && Restarted(before, trace, toStop, startRaises, started)
                                && Journal(trace) == []
                                && Down(trace) == Down(old(trace)) + Names(stopped) - Names(started)
                                && (Safe(trace) <==>
                                        Safe(old(trace)) && Down(old(trace)) + Names(stopped) <= Names(started))
                                && r.unit in toStop
                                && exists p | 0 <= p <= |trace| :: StillUp(trace[..p], r.unit, patience + 1)
      ensures r.StopRaised? ==> exists n :: stopRaises(n)
      ensures r.Inside? && verify ==> forall u | u in units :: SeenDown(trace, |old(trace)|, u)
    {
      hide Down, Journal, StartsOf, WorkOf, ActiveOf, Safe, Quietly, SeenDown, Reverse, StillUp, Restarted;
      ghost var t0 := trace;
      toStop := FindActive(units);
      stopped, started, before := [], [], trace;
      ghost var probes := trace;
      assert probes[|t0|..|t0| + |units|] == probes[|t0|..];
      ghost var from, to := |t0|, |t0| + |units|;
      QuietFacts(t0, probes);
      if toStop != [] {
        Log(Record(toStop));
        Step(probes, Record(toStop));
        Next(probes, Record(toStop));
      }
      ghost var t1 := trace;
      r, stopped := StopEach(toStop, verify, patience);
      NamesPrefix(stopped, toStop);
      SafeMeans(t1);
      if r.NotStopped? {
        ghost var t := trace;
        before := trace;
        var done, _ := RestartAll(toStop);
        started := done;
        StartedAmong(before, trace, toStop, startRaises, started);
        assert trace[..|t|] == t;
      }
      SliceStays(probes, trace, from, to);
      if r.Inside? && verify {
        SeenSince(trace, |t0|, |t1|, toStop);
        EachSeen(units, t0, probes, trace, toStop, answers);
      }
    }

    // The whole of a stop around some work, whether or not the work is cut short. The restart
    // comes after before.
    method ServicesStopped(units: seq<Unit>, work: seq<Event>, verify: bool, patience: nat)
      returns (toStop: seq<Unit>, r: Entry, stopped: seq<Unit>, started: seq<Unit>, ghost before: seq<Event>)
      requires forall i | 0 <= i < |work| :: work[i].IsWork()
      modifies this
      ensures old(trace) <= trace && |trace| >= |old(trace)| + |units|
      ensures toStop == ActiveOf(trace[|old(trace)|..|old(trace)| + |units|])
      ensures stopped <= toStop
      ensures r.StopRaised? ==> && started == [] && StartsOf(trace) == StartsOf(old(trace))
                                && (exists n :: stopRaises(n))
                                && (Safe(trace) <==>
                                        Safe(old(trace)) && (toStop == [] || Down(old(trace)) <= Names(toStop)))
      ensures !r.StopRaised? ==> && old(trace) <= before && StartsOf(before) == StartsOf(old(trace))
                                 && Restarted(before, trace, toStop, startRaises, started)
                                 && Journal(trace) == []
                                 && Down(trace) == Down(old(trace)) + Names(stopped) - Names(started)
                                 && (Safe(trace) <==>
                                        Safe(old(trace)) && Down(old(trace)) + Names(stopped) <= Names(started))
    {
      hide Down, Journal, StartsOf, WorkOf, ActiveOf, Safe, Quietly, Restarted;
      ghost var from, to := |trace|, |trace| + |units|;
      toStop, r, stopped, started, before := Enter(units, verify, patience);
      if !r.Inside? {
        return;
      }
      ghost var t1 := trace;
      QuietRefl(t1);
      for i := 0 to |work|
        invariant Quietly(t1, trace)
      {
        ghost var t := trace;
        Log(work[i]);
        QuietNext(t1, t, work[i]);
      }
      QuietFacts(t1, trace);
      before := trace;
      var done, _ := RestartAll(toStop);
      started := done;
      StartedAmong(before, trace, toStop, startRaises, started);
      SliceStays(t1, trace, from, to);
    }

    // One unit named by an old entry: asked, and started unless it runs.
    method PutRight(u: Unit) returns (raised: bool)
      modifies this
      ensures if startRaises(|old(trace)|) then raised && trace == old(trace)
              else trace == old(trace) + PutRightEvents(|old(trace)|, u, answers, startRaises)
                   && raised == (!answers(|old(trace)|) && startRaises(|old(trace)| + 1))
      ensures raised ==> startRaises(|trace|) || (|trace| > |old(trace)| && startRaises(|trace| - 1))
      ensures Journal(trace) == Journal(old(trace)) && (Safe(old(trace)) ==> Safe(trace))
      ensures Down(trace) == if raised then Down(old(trace)) else Down(old(trace)) - {u}
      ensures !raised ==>
                StartsOf(trace) == StartsOf(old(trace)) + if answers(|old(trace)|) then [] else [u]
    {
      hide Down, Journal, StartsOf, WorkOf, Safe;
      ghost var t := trace;
      if startRaises(|trace|) {
        return true;
      }
      var active := IsActive(u);
      ghost var t1 := trace;
      Step(t, Saw(u, active));
      SawSafe(t, u, active);
      raised := !active && startRaises(|trace|);
      var e := if active then Found(u) else Start(u, !raised);
      Log(e);
      Step(t1, e);
      ShrinkSafe(t1, e);
      assert trace == t + [Saw(u, active), e];
    }

    // On startup: start again whatever an earlier process left recorded. In the reverse of
    // the entry's order each unit is asked, and started exactly when it answers that it does
    // not run; then the entry is cleared. The first call that raises ends it.
    method Reconcile() returns (acted: bool, raised: bool)
      requires Safe(trace)
      modifies this
      ensures old(trace) <= trace && Safe(trace)
      ensures acted == (Journal(old(trace)) != []) && (!acted ==> trace == old(trace))
      ensures var k := (|trace| - |old(trace)|) / 2;
              && k <= |Journal(old(trace))|
              && AllPutRight(trace, |old(trace)|, Reverse(Journal(old(trace))), k, answers, startRaises)
      ensures acted && !raised ==>
                && |trace| == |old(trace)| + 2 * |Journal(old(trace))| + 1 && trace[|trace| - 1] == Clear
                && StartsOf(trace) ==
                   StartsOf(old(trace)) + Inactive(Reverse(Journal(old(trace))), |old(trace)|, answers)
      ensures !raised ==> Journal(trace) == [] && Down(trace) == {}
      ensures raised ==> startRaises(|trace|) || (|trace| > |old(trace)| && startRaises(|trace| - 1))
      ensures raised ==> Journal(trace) == Journal(old(trace))
    {
      hide Righted, AllPutRight, Down, Journal, StartsOf, WorkOf, Safe, Reverse, Inactive, PutRightEvents;
      var services := Journal(trace);
      acted, raised := services != [], false;
      ghost var t0 := trace;
      RightedNone(t0, services, answers, startRaises);
      if services == [] {
        NoEntryNothingDown(trace);
        return;
      }
      for k := 0 to |services|
        invariant Righted(t0, trace, services, k, answers, startRaises) && !raised
      {
        ghost var t := trace;
        var u := services[|services| - 1 - k];
        RightedMeans(t0, t, services, k, answers, startRaises);
        raised := PutRight(u);
        if raised {
          RightedStays(t0, t, trace, services, k, answers, startRaises);
          return;
        }
        RightedNext(t0, t, trace, services, k, answers, startRaises);
      }
      ghost var t := trace;
      RightedMeans(t0, t, services, |services|, answers, startRaises);
      Log(Clear);
      Step(t, Clear);
      ClearSafe(t);
      RightedStays(t0, t, trace, services, |services|, answers, startRaises);
    }

    // A life of the tool: each process puts right what the last one left, then stops
    // services around some work, and may be killed after any of its events. At every step
    // of every such life the journal names every unit that is down, and a process that is
    // not killed, whose stops do not raise, leaves nothing down and no entry.
    method Life(sessions: seq<Session>)
      requires Safe(trace) && forall n :: !startRaises(n)
      requires forall i | 0 <= i < |sessions| :: forall j | 0 <= j < |sessions[i].work| :: sessions[i].work[j].IsWork()
      modifies this
      ensures Safe(trace)
      ensures sessions != [] && sessions[|sessions| - 1].kill.None? && (forall n :: !stopRaises(n)) ==>
                Journal(trace) == [] && Down(trace) == {}
    {
      hide Down, Journal, StartsOf, WorkOf, ActiveOf, Safe;
      for i := 0 to |sessions|
        invariant Safe(trace)
        invariant i > 0 && sessions[i - 1].kill.None? && (forall n :: !stopRaises(n)) ==>
                    Journal(trace) == [] && Down(trace) == {}
      {
        var s := sessions[i];
        var start := |trace|;
        var _, _ := Reconcile();
        ghost var t := trace;
        var toStop, r, stopped, started, before := ServicesStopped(s.units, s.work, true, s.patience);
        NamesPrefix(stopped, toStop);
        if !r.StopRaised? { AllStarted(before, trace, toStop, startRaises, started); }
        assert Safe(trace);
        SafeMeans(trace);
        if s.kill.Some? && start + s.kill.value < |trace| {
          KillIsSafe(trace, start + s.kill.value);
          trace := trace[..start + s.kill.value];
        }
      }
    }
  }

  // One process: what it stops around what work, and after how many events it is killed.
  datatype Session = Session(units: seq<Unit>, work: seq<Event>, patience: nat, kill: Option<nat>)

  // ----- what takes safety away -----

  // An inner call that finds everything already stopped clears the outer call's entry: with
  // any unit still down, a kill after that finds no journal.
  lemma InnerCallErases(t: seq<Event>, probed: seq<Event>)
    requires Quietly(t, probed)
    ensures Safe(probed + [Clear]) <==> Safe(t) && Down(t) == {}
  {
    Step(probed, Clear);
    Next(probed, Clear);
    QuietFacts(t, probed);
  }

  // A call begun while an older entry is pending overwrites it: what that entry alone named
  // is then nobody's to restart.
  lemma OverwritingLoses(t: seq<Event>, units: seq<Unit>)
    ensures Safe(t + [Record(units)]) <==> Safe(t) && Down(t) <= Names(units)
  {
    Step(t, Record(units));
    Next(t, Record(units));
  }

  // A restart of exactly what is down is safe when, and only when, no start raises at its
  // moment: one that does leaves its unit down, and those after it, with the entry cleared.
  lemma RestartSafeIff(t: seq<Event>, toStop: seq<Unit>, raises: nat -> bool)
    requires Safe(t) && Down(t) == Names(toStop)
    requires forall i, j | 0 <= i < j < |toStop| :: toStop[i] != toStop[j]
    ensures Safe(t + RestartEvents(Reverse(toStop), Through(raises, |t|, |toStop|))) <==>
            forall m | |t| <= m < |t| + |toStop| :: !raises(m)
  {
    hide Safe, Down, Journal, WorkOf, StartedSo, Names;
    var order, n := Reverse(toStop), Through(raises, |t|, |toStop|);
    StartsRun(t, order, raises, n);
    var bad := if n < |order| then [Start(order[n], false)] else [];
    var end := t + Starts(order[..n]) + bad;
    assert StartedSo(t, end, order, raises, order[..n], n < |order|);
    StartsDone(t, end, order, raises, order[..n], n < |order|);
    Grouped(t, Starts(order[..n]), bad, [Clear]);
    NamesReverse(toStop);
    NamesAll(order, n);
  }

  lemma {:induction false} StartsUpTo(t: seq<Event>, order: seq<Unit>, raises: nat -> bool, k: nat)
    requires k <= |order| && forall m | |t| <= m < |t| + k :: !raises(m)
    ensures StartedSo(t, t + Starts(order[..k]), order, raises, order[..k], false)
  {
    hide Safe, Down, Journal, WorkOf, StartedSo;
    if k == 0 {
      NoneStarted(t, order, raises);
      assert order[..0] == [] && t + Starts([]) == t;
    } else {
      StartsUpTo(t, order, raises, k - 1);
      StartMore(t, t + Starts(order[..k - 1]), order, raises, order[..k - 1]);
      assert order[..k] == order[..k - 1] + [order[k - 1]];
      StartsNext(order[..k - 1], order[k - 1]);
      assert t + Starts(order[..k]) == t + Starts(order[..k - 1]) + [Start(order[k - 1], true)];
    }
  }

  lemma StartsRun(t: seq<Event>, order: seq<Unit>, raises: nat -> bool, n: nat)
    requires n == Through(raises, |t|, |order|)
    ensures StartedSo(t, t + Starts(order[..n]) + (if n < |order| then [Start(order[n], false)] else []), order, raises,
                      order[..n], n < |order|)
  {
    hide Safe, Down, Journal, WorkOf, StartedSo, Starts;
    StartsUpTo(t, order, raises, n);
    if n < |order| {
      StartMore(t, t + Starts(order[..n]), order, raises, order[..n]);
    } else {
      assert t + Starts(order[..n]) + [] == t + Starts(order[..n]);
    }
  }

  // The first n of some different units are all of them only when n is their number.
  lemma NamesAll(units: seq<Unit>, n: nat)
    requires n <= |units| && forall i, j | 0 <= i < j < |units| :: units[i] != units[j]
    ensures Names(units) <= Names(units[..n]) <==> n == |units|
  {
    if n == |units| {
      assert units[..n] == units;
    } else {
      assert units[n] in Names(units) && units[n] !in units[..n];
    }
  }

  // One unit down and named, and its start raises: it is still down, and no entry names it.
  lemma OneUnitLost(t: seq<Event>, u: Unit)
    requires Safe(t) && Journal(t) == [u] && Down(t) == {u}
    ensures var end := t + RestartEvents([u], 0);
            Journal(end) == [] && Down(end) == {u} && !Safe(end)
  {
    hide Safe, Down, Journal;
    var tried := t + [Start(u, false)];
    assert RestartEvents([u], 0) == [Start(u, false)] + [Clear];
    assert t + RestartEvents([u], 0) == tried + [Clear];
    Step(t, Start(u, false));
    Step(tried, Clear);
    Next(tried, Clear);
    NowMeans(tried + [Clear]);
  }

  // With no entry in the journal nothing this tool stopped is down.
  lemma NoEntryNothingDown(t: seq<Event>)
    requires Safe(t) && Journal(t) == []
    ensures Down(t) == {}
  {
    SafeMeans(t);
  }

  // ----- trace facts -----

  // What one event does to the readings of a trace.
  lemma Step(t: seq<Event>, e: Event)
    ensures Journal(t + [e]) == if e.Record? then e.units else if e.Clear? then [] else Journal(t)
    ensures Down(t + [e]) == if e.Stop? then Down(t) + {e.unit}
                             else if e.Found? || (e.Start? && e.ok) then Down(t) - {e.unit} else Down(t)
    ensures StartsOf(t + [e]) == StartsOf(t) + if e.Start? then [e.unit] else []
    ensures WorkOf(t + [e]) == WorkOf(t) + if e.IsWork() then [e] else []
  {
    assert (t + [e])[..|t|] == t;
  }

  lemma SafeMeans(t: seq<Event>)
    ensures Safe(t) ==> Down(t) <= Names(Journal(t))
  {
    if Safe(t) { SafeIsSafeNow(t); }
  }

  lemma ShrinkSafe(t: seq<Event>, e: Event)
    requires e.Start? || e.Found?
    ensures Safe(t + [e]) <==> Safe(t)
  {
    Step(t, e);
    Next(t, e);
    SafeMeans(t);
  }

  lemma SawSafe(t: seq<Event>, u: Unit, active: bool)
    ensures Safe(t) ==> Safe(t + [Saw(u, active)])
  {
    Step(t, Saw(u, active));
    Next(t, Saw(u, active));
    SafeMeans(t);
  }

  // Nothing down, the entry may go.
  lemma ClearSafe(t: seq<Event>)
    requires Safe(t) && Down(t) == {}
    ensures Safe(t + [Clear])
  {
    Step(t, Clear);
    Next(t, Clear);
  }

  // The first k of some units were put right, from a moment on.
  ghost predicate AllPutRight(t: seq<Event>, from: nat, order: seq<Unit>, k: nat, answers: nat -> bool,
                              raises: nat -> bool)
    requires k <= |order|
  {
    forall j | 0 <= j < k :: PutRightAt(t, from + 2 * j, order[j], answers, raises)
  }

  // How far putting an entry right has come.
  ghost predicate Righted(t0: seq<Event>, t: seq<Event>, services: seq<Unit>, k: nat, answers: nat -> bool,
                          raises: nat -> bool)
  {
    var order := Reverse(services);
    && k <= |services| && t0 <= t && |t| == |t0| + 2 * k && Safe(t)
    && Journal(t) == services && Down(t) <= Names(services[..|services| - k])
    && StartsOf(t) == StartsOf(t0) + Inactive(order[..k], |t0|, answers)
    && AllPutRight(t, |t0|, order, k, answers, raises)
  }

  lemma RightedNone(t0: seq<Event>, services: seq<Unit>, answers: nat -> bool, raises: nat -> bool)
    requires Safe(t0) && Journal(t0) == services
    ensures Righted(t0, t0, services, 0, answers, raises)
    ensures AllPutRight(t0, |t0|, Reverse(services), 0, answers, raises)
  {
    hide Down, Journal, StartsOf, Safe;
    SafeMeans(t0);
    assert services[..|services|] == services;
    assert Reverse(services)[..0] == [] && StartsOf(t0) + [] == StartsOf(t0);
  }

  lemma RightedMeans(t0: seq<Event>, t: seq<Event>, services: seq<Unit>, k: nat, answers: nat -> bool,
                     raises: nat -> bool)
    requires Righted(t0, t, services, k, answers, raises)
    ensures k <= |services| && t0 <= t && |t| == |t0| + 2 * k && Safe(t) && Journal(t) == services
    ensures k == |services| ==>
              Down(t) == {} && StartsOf(t) == StartsOf(t0) + Inactive(Reverse(services), |t0|, answers)
  {
    hide Down, Journal, StartsOf, Safe, AllPutRight, Inactive, Reverse;
    assert services[..0] == [];
    assert k == |services| ==> Reverse(services)[..k] == Reverse(services);
  }

  lemma RightedNext(t0: seq<Event>, t: seq<Event>, more: seq<Event>, services: seq<Unit>, k: nat, answers: nat -> bool,
                    raises: nat -> bool)
    requires k < |services| && Righted(t0, t, services, k, answers, raises)
    requires var u := services[|services| - 1 - k];
             && more == t + PutRightEvents(|t|, u, answers, raises) && Safe(more) && Journal(more) == services
             && Down(more) == Down(t) - {u} && StartsOf(more) == StartsOf(t) + if answers(|t|) then [] else [u]
    ensures Righted(t0, more, services, k + 1, answers, raises)
  {
    hide Down, Journal, StartsOf, Safe, AllPutRight, Inactive;
    var order, i := Reverse(services), |services| - 1 - k;
    assert order[k] == services[i];
    assert services[..i + 1] == services[..i] + [services[i]];
    NamesNext(services[..i], services[i]);
    InactiveNext(order, k, |t0|, answers);
    MorePutRight(t, more, |t0|, order, k, answers, raises);
  }

  // A longer trace still has what was put right, and the next unit if that is what it adds.
  lemma MorePutRight(t: seq<Event>, more: seq<Event>, from: nat, order: seq<Unit>, k: nat, answers: nat -> bool,
                     raises: nat -> bool)
    requires k <= |order| && t <= more && AllPutRight(t, from, order, k, answers, raises)
    ensures AllPutRight(more, from, order, k, answers, raises)
    ensures k < |order| && |t| == from + 2 * k && more == t + PutRightEvents(|t|, order[k], answers, raises) ==>
              AllPutRight(more, from, order, k + 1, answers, raises)
  {
    forall j | 0 <= j < k ensures PutRightAt(more, from + 2 * j, order[j], answers, raises) {
      assert PutRightAt(t, from + 2 * j, order[j], answers, raises);
    }
  }

  // Ended by a call that raised, or by the clear.
  lemma RightedStays(t0: seq<Event>, t: seq<Event>, more: seq<Event>, services: seq<Unit>, k: nat,
                     answers: nat -> bool, raises: nat -> bool)
    requires Righted(t0, t, services, k, answers, raises)
    requires more == t || more == t + [Clear] ||
             (k < |services| && more == t + PutRightEvents(|t|, services[|services| - 1 - k], answers, raises))
    ensures t0 <= more && (|more| - |t0|) / 2 <= |services|
    ensures AllPutRight(more, |t0|, Reverse(services), (|more| - |t0|) / 2, answers, raises)
  {
    hide AllPutRight, Righted, PutRightEvents;
    RightedPut(t0, t, services, k, answers, raises);
    RightedMeans(t0, t, services, k, answers, raises);
    assert t <= more;
    MorePutRight(t, more, |t0|, Reverse(services), k, answers, raises);
    if |more| == |t| + 2 {
      assert Reverse(services)[k] == services[|services| - 1 - k];
      assert (|more| - |t0|) / 2 == k + 1;
    } else {
      assert (|more| - |t0|) / 2 == k;
    }
  }

  lemma RightedPut(t0: seq<Event>, t: seq<Event>, services: seq<Unit>, k: nat, answers: nat -> bool,
                   raises: nat -> bool)
    requires Righted(t0, t, services, k, answers, raises)
    ensures k <= |services| && AllPutRight(t, |t0|, Reverse(services), k, answers, raises)
  {
    hide Down, Journal, StartsOf, Safe, AllPutRight, Inactive;
  }

  lemma InactiveNext(units: seq<Unit>, k: nat, moment: nat, answers: nat -> bool)
    requires k < |units|
    ensures Inactive(units[..k + 1], moment, answers) ==
            Inactive(units[..k], moment, answers) + if answers(moment + 2 * k) then [] else [units[k]]
  {
    assert units[..k + 1][..k] == units[..k];
  }

  // Only probes and work happened in between.
  ghost predicate Quietly(t: seq<Event>, more: seq<Event>) {
    && t <= more
    && Journal(more) == Journal(t) && Down(more) == Down(t) && StartsOf(more) == StartsOf(t)
    && (Safe(more) <==> Safe(t))
  }

  lemma QuietRefl(t: seq<Event>)
    ensures Quietly(t, t)
  {
  }

  lemma QuietNext(t0: seq<Event>, t: seq<Event>, e: Event)
    requires Quietly(t0, t) && (e.Saw? || e.IsWork())
    ensures Quietly(t0, t + [e])
  {
    Step(t, e);
    Next(t, e);
    SafeMeans(t);
  }

  lemma QuietFacts(t: seq<Event>, more: seq<Event>)
    requires Quietly(t, more)
    ensures t <= more && Journal(more) == Journal(t) && Down(more) == Down(t) && StartsOf(more) == StartsOf(t)
    ensures Safe(more) <==> Safe(t)
  {
  }

  lemma SliceStays(t: seq<Event>, more: seq<Event>, i: nat, j: nat)
    requires t <= more && i <= j <= |t|
    ensures more[i..j] == t[i..j]
  {
    assert more[i..j] == more[..|t|][i..j];
  }

  lemma SeenSince(t: seq<Event>, since: nat, later: nat, units: seq<Unit>)
    requires since <= later && forall u | u in units :: SeenDown(t, later, u)
    ensures forall u | u in units :: SeenDown(t, since, u)
  {
    forall u | u in units ensures SeenDown(t, since, u) { assert SeenDown(t, later, u); }
  }

  lemma NamesNext(units: seq<Unit>, u: Unit)
    ensures Names(units + [u]) == Names(units) + {u}
  {
  }

  // Some starts since t0, in order, the last of them raising or not.
  ghost predicate StartedSo(t0: seq<Event>, t: seq<Event>, order: seq<Unit>, raises: nat -> bool, started: seq<Unit>,
                            raised: bool) {
    && started <= order && (raised ==> |started| < |order| && raises(|t0| + |started|))
    && (forall m | |t0| <= m < |t0| + |started| :: !raises(m))
    && |Starts(started)| == |started|
    && t == t0 + Starts(started) + (if raised then [Start(order[|started|], false)] else [])
    && WorkOf(t) == WorkOf(t0) && Journal(t) == Journal(t0) && Down(t) == Down(t0) - Names(started)
    && (Safe(t) <==> Safe(t0))
  }

  lemma NoneStarted(t: seq<Event>, order: seq<Unit>, raises: nat -> bool)
    ensures StartedSo(t, t, order, raises, [], false)
  {
    hide Down, Journal, WorkOf, Safe;
    assert t + Starts([]) + [] == t;
  }

  lemma StartMore(t0: seq<Event>, t: seq<Event>, order: seq<Unit>, raises: nat -> bool, started: seq<Unit>)
    requires StartedSo(t0, t, order, raises, started, false) && |started| < |order|
    ensures |t| == |t0| + |started|
    ensures var u, raised := order[|started|], raises(|t|);
            StartedSo(t0, t + [Start(u, !raised)], order, raises, if raised then started else started + [u], raised)
  {
    hide Down, Journal, WorkOf, Safe;
    var u, e := order[|started|], Start(order[|started|], !raises(|t|));
    Step(t, e);
    ShrinkSafe(t, e);
    NamesNext(started, u);
    StartsNext(started, u);
    assert t == t0 + Starts(started);
    if !raises(|t|) {
      assert t + [e] == t0 + Starts(started + [u]) + [];
    }
  }

  lemma StartsDone(t0: seq<Event>, t: seq<Event>, order: seq<Unit>, raises: nat -> bool, started: seq<Unit>,
                   raised: bool)
    requires StartedSo(t0, t, order, raises, started, raised)
    ensures WorkOf(t + [Clear]) == WorkOf(t0) && Journal(t + [Clear]) == []
    ensures Down(t + [Clear]) == Down(t0) - Names(started)
    ensures Safe(t + [Clear]) <==> Safe(t0) && Down(t0) <= Names(started)
  {
    hide StartedSo, Down, Journal, WorkOf, Safe, SafeNow;
    StartedMeans(t0, t, order, raises, started, raised);
    Step(t, Clear);
    Next(t, Clear);
    NowMeans(t + [Clear]);
    NoNames();
    LessNone(Down(t0), Names(started));
  }

  lemma NoNames()
    ensures Names([]) == {}
  {
  }

  lemma LessNone(a: set<Unit>, b: set<Unit>)
    ensures a - b <= {} <==> a <= b
  {
    if a - b <= {} {
      forall u | u in a ensures u in b { assert u !in a - b; }
    }
  }

  lemma NowMeans(t: seq<Event>)
    ensures SafeNow(t) <==> Down(t) <= Names(Journal(t))
  {
  }

  lemma StartedMeans(t0: seq<Event>, t: seq<Event>, order: seq<Unit>, raises: nat -> bool, started: seq<Unit>,
                     raised: bool)
    requires StartedSo(t0, t, order, raises, started, raised)
    ensures t0 <= t && started <= order && (raised ==> |started| < |order| && raises(|t0| + |started|))
    ensures WorkOf(t) == WorkOf(t0) && Journal(t) == Journal(t0) && Down(t) == Down(t0) - Names(started)
    ensures Safe(t) <==> Safe(t0)
  {
    hide Starts, Down, Journal, WorkOf, Safe;
  }

  lemma StartsAre(t0: seq<Event>, t: seq<Event>, toStop: seq<Unit>, raises: nat -> bool, started: seq<Unit>,
                  raised: bool)
    requires StartedSo(t0, t, Reverse(toStop), raises, started, raised) && (raised || |started| == |toStop|)
    ensures Restarted(t0, t + [Clear], toStop, raises, started)
  {
    hide Reverse, StartedSo, RestartEvents, Through, Restarted;
    StartsThrough(t0, t, Reverse(toStop), raises, started, raised);
    StartsEnd(t0, t, Reverse(toStop), raises, started, raised);
    RestartedIs(t0, t + [Clear], toStop, raises, started);
  }

  lemma RestartedIs(before: seq<Event>, t: seq<Event>, toStop: seq<Unit>, raises: nat -> bool, started: seq<Unit>)
    requires |started| == Through(raises, |before|, |toStop|) && started == Reverse(toStop)[..|started|]
    requires t == before + RestartEvents(Reverse(toStop), |started|)
    ensures Restarted(before, t, toStop, raises, started)
  {
    hide Through, RestartEvents, Reverse;
  }

  lemma StartsThrough(t0: seq<Event>, t: seq<Event>, order: seq<Unit>, raises: nat -> bool, started: seq<Unit>,
                      raised: bool)
    requires StartedSo(t0, t, order, raises, started, raised) && (raised || |started| == |order|)
    ensures Through(raises, |t0|, |order|) == |started|
  {
    hide Starts, Down, Journal, WorkOf, Safe;
    ThroughIs(raises, |t0|, |order|, |started|);
  }

  lemma StartsEnd(t0: seq<Event>, t: seq<Event>, order: seq<Unit>, raises: nat -> bool, started: seq<Unit>,
                  raised: bool)
    requires StartedSo(t0, t, order, raises, started, raised) && (raised || |started| == |order|)
    ensures |started| <= |order| && started == order[..|started|] && t + [Clear] == t0 + RestartEvents(order, |started|)
  {
    hide Starts, Down, Journal, WorkOf, Safe;
    var bad := if raised then [Start(order[|started|], false)] else [];
    assert order[..|started|] == started;
    assert RestartEvents(order, |started|) == Starts(started) + bad + [Clear];
    Grouped(t0, Starts(started), bad, [Clear]);
  }

  lemma Grouped(a: seq<Event>, b: seq<Event>, c: seq<Event>, d: seq<Event>)
    ensures a + b + c + d == a + (b + c + d)
  {
  }

  lemma StartedAmong(before: seq<Event>, t: seq<Event>, toStop: seq<Unit>, raises: nat -> bool, started: seq<Unit>)
    requires Restarted(before, t, toStop, raises, started)
    ensures Names(started) <= Names(toStop)
  {
    NamesPrefix(started, Reverse(toStop));
    NamesReverse(toStop);
  }

  lemma AllStarted(before: seq<Event>, t: seq<Event>, toStop: seq<Unit>, raises: nat -> bool, started: seq<Unit>)
    requires Restarted(before, t, toStop, raises, started) && forall n :: !raises(n)
    ensures started == Reverse(toStop) && Names(started) == Names(toStop)
  {
    assert Reverse(toStop)[..|toStop|] == Reverse(toStop);
    NamesReverse(toStop);
  }

  lemma NamesPrefix(part: seq<Unit>, whole: seq<Unit>)
    requires part <= whole
    ensures Names(part) <= Names(whole)
  {
    forall u | u in part ensures u in whole {
      var i :| 0 <= i < |part| && part[i] == u;
      assert whole[i] == u;
    }
  }

  lemma {:induction false} NamesReverse(units: seq<Unit>)
    ensures Names(Reverse(units)) == Names(units)
  {
    forall u | u in units ensures u in Reverse(units) {
      var i :| 0 <= i < |units| && units[i] == u;
      assert Reverse(units)[|units| - 1 - i] == u;
    }
  }

  // The last n answers were all that the unit runs.
  ghost predicate StillUp(t: seq<Event>, u: Unit, n: nat) {
    n <= |t| && forall i | |t| - n <= i < |t| :: t[i] == Saw(u, true)
  }

  ghost predicate SeenDown(t: seq<Event>, since: nat, u: Unit) {
    exists i | since <= i < |t| :: t[i] == Saw(u, false)
  }

  lemma SeenStays(t: seq<Event>, more: seq<Event>, since: nat, units: seq<Unit>)
    requires t <= more && forall u | u in units :: SeenDown(t, since, u)
    ensures forall u | u in units :: SeenDown(more, since, u)
  {
    forall u | u in units ensures SeenDown(more, since, u) {
      assert SeenDown(t, since, u);
      var i :| since <= i < |t| && t[i] == Saw(u, false);
      assert more[i] == Saw(u, false);
    }
  }

  lemma NoneActive(t: seq<Event>)
    ensures ActiveOf(t[|t|..]) == []
  {
  }

  lemma ActiveNext(t: seq<Event>, from: nat, u: Unit, active: bool)
    requires from <= |t|
    ensures ActiveOf((t + [Saw(u, active)])[from..]) == ActiveOf(t[from..]) + if active then [u] else []
  {
    assert (t + [Saw(u, active)])[from..] == t[from..] + [Saw(u, active)];
    assert (t[from..] + [Saw(u, active)])[..|t| - from] == t[from..];
  }

  lemma {:induction false} ActiveListed(probes: seq<Event>, i: nat)
    requires i < |probes| && probes[i].Saw? && probes[i].active
    ensures probes[i].unit in ActiveOf(probes)
  {
    if i < |probes| - 1 { ActiveListed(probes[..|probes| - 1], i); }
  }

  // A unit was seen down on entry, or stopped and seen down then.
  lemma EachSeen(units: seq<Unit>, t0: seq<Event>, probes: seq<Event>, t: seq<Event>, toStop: seq<Unit>,
                 answers: nat -> bool)
    requires t0 <= probes <= t && |probes| == |t0| + |units|
    requires forall i | 0 <= i < |units| :: probes[|t0| + i] == Saw(units[i], answers(|t0| + i))
    requires toStop == ActiveOf(probes[|t0|..])
    requires forall u | u in toStop :: SeenDown(t, |t0|, u)
    ensures forall u | u in units :: SeenDown(t, |t0|, u)
  {
    forall u | u in units ensures SeenDown(t, |t0|, u) {
      var i :| 0 <= i < |units| && units[i] == u;
      assert probes[|t0| + i] == Saw(u, answers(|t0| + i)) == t[|t0| + i];
      if answers(|t0| + i) {
        assert probes[|t0|..][i] == Saw(u, true);
        ActiveListed(probes[|t0|..], i);
      }
    }
  }
}
