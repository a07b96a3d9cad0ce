// Writing a set of devices with one service outage: the grouping, the stop and the
// accounting.

module Batch {
  import opened Text
  import opened Services

  // needs overrides the flasher's own answer for this one write.
  datatype Target = Target(flasher: string, units: seq<Unit>, needs: Option<bool>)

  // What each part of one target's turn does: goes through, raises an UpdaterError, or
  // raises something that ends the batch.
  datatype Turn = Turn(cancelled: bool, write: Result, record: Filing, settle: Result)
  datatype Result = Fine | Failed | Fatal
  datatype Filing = Recorded | NothingToRecord | NotRecorded | FatalToRecord

  predicate Fatally(turn: Turn, dryRun: bool) {
    turn.cancelled || turn.write == Fatal
    || (turn.write == Fine && ((!dryRun && turn.record == FatalToRecord) || turn.settle == Fatal))
  }

  // A cancel ends the batch before the write, and an error that is not the tool's own ends it
  // wherever it comes from; a write that fails and a record that cannot be kept do not, and
  // on a dry run nothing is recorded.
  lemma TurnCases(turn: Turn, dryRun: bool)
    ensures turn.cancelled ==> Fatally(turn, dryRun)
    ensures !turn.cancelled ==>
              match turn.write
              case Failed => !Fatally(turn, dryRun)
              case Fatal => Fatally(turn, dryRun)
              case Fine =>
                if turn.record == FatalToRecord && !dryRun then Fatally(turn, dryRun)
                else Fatally(turn, dryRun) <==> turn.settle == Fatal
  {
  }

  datatype Failure = Refused(entry: nat) | NotWritten(target: nat)

  // ----- grouping -----

  function NeedsStop(t: Target, defaults: string -> bool): bool {
    if t.needs.Some? then t.needs.value else defaults(t.flasher)
  }

  type Index = nat

  predicate Indices(group: seq<Index>, targets: seq<Target>) { forall g | 0 <= g < |group| :: group[g] < |targets| }

  // How a group is split: by the stop its targets need, or by their flasher.
  datatype Test = Needs(defaults: string -> bool, stop: bool) | Uses(flasher: string)

  predicate Passes(targets: seq<Target>, test: Test, i: Index)
    requires i < |targets|
  {
    match test
    case Needs(defaults, stop) => NeedsStop(targets[i], defaults) == stop
    case Uses(flasher) => targets[i].flasher == flasher
  }

  // The members of a group that pass a test, in order.
  function Pick(targets: seq<Target>, group: seq<Index>, test: Test): (r: seq<Index>)
    requires Indices(group, targets)
    ensures Indices(r, targets)
    ensures forall i | i in r :: i in group && i < |targets| && Passes(targets, test, i)
  {
    if group == [] then [] else
      var before, last := Pick(targets, group[..|group| - 1], test), group[|group| - 1];
      if Passes(targets, test, last) then before + [last] else before
  }

  function UpTo(n: nat): (r: seq<Index>)
    ensures |r| == n && forall i | 0 <= i < n :: r[i] == i
  {
    seq(n, i => i)
  }

  lemma PickNext(targets: seq<Target>, group: seq<Index>, i: Index, test: Test)
    requires Indices(group, targets) && i < |targets|
    ensures Indices(group + [i], targets)
    ensures Pick(targets, group + [i], test) ==
            if Passes(targets, test, i) then Pick(targets, group, test) + [i] else Pick(targets, group, test)
  {
    assert (group + [i])[..|group|] == group;
  }

  // Which targets of a batch are in which group.
  function Stopped(targets: seq<Target>, defaults: string -> bool): (r: seq<Index>)
    ensures Indices(r, targets)
  {
    Pick(targets, UpTo(|targets|), Needs(defaults, true))
  }

  function Free(targets: seq<Target>, defaults: string -> bool): (r: seq<Index>)
    ensures Indices(r, targets)
  {
    Pick(targets, UpTo(|targets|), Needs(defaults, false))
  }

  method GroupByStop(targets: seq<Target>, defaults: string -> bool) returns (stopped: seq<Index>, free: seq<Index>)
    ensures stopped == Stopped(targets, defaults) && free == Free(targets, defaults)
  {
    stopped, free := [], [];
    for i := 0 to |targets|
      invariant stopped == Pick(targets, UpTo(i), Needs(defaults, true))
      invariant free == Pick(targets, UpTo(i), Needs(defaults, false))
    {
      assert UpTo(i + 1) == UpTo(i) + [i];
      PickNext(targets, UpTo(i), i, Needs(defaults, true));
      PickNext(targets, UpTo(i), i, Needs(defaults, false));
      if NeedsStop(targets[i], defaults) {
        stopped := stopped + [i];
      } else {
        free := free + [i];
      }
    }
  }

  // Every unit any of the targets names, once each, in first-seen order.
  function Union(targets: seq<Target>, group: seq<Index>): (r: seq<Unit>)
    requires Indices(group, targets)
    ensures forall u :: u in r <==> exists g | 0 <= g < |group| :: u in targets[group[g]].units
    ensures forall i, j | 0 <= i < j < |r| :: r[i] != r[j]
  {
    if group == [] then [] else
      var before, last := Union(targets, group[..|group| - 1]), targets[group[|group| - 1]].units;
      var r := AddNew(before, last);
      assert group == group[..|group| - 1] + [group[|group| - 1]];
      r
  }

  function AddNew(seen: seq<Unit>, units: seq<Unit>): (r: seq<Unit>)
    requires forall i, j | 0 <= i < j < |seen| :: seen[i] != seen[j]
    ensures seen <= r
    ensures forall u :: u in r <==> u in seen || u in units
    ensures forall i, j | 0 <= i < j < |r| :: r[i] != r[j]
  {
    if units == [] then seen else
      var before, last := AddNew(seen, units[..|units| - 1]), units[|units| - 1];
      assert units == units[..|units| - 1] + [last];
      if last in before then before else before + [last]
  }

  method StopServicesUnion(targets: seq<Target>, group: seq<Index>) returns (r: seq<Unit>)
    requires Indices(group, targets)
    ensures r == Union(targets, group)
  {
    r := [];
    for g := 0 to |group|
      invariant r == Union(targets, group[..g])
    {
      ghost var before := r;
      assert group[..g + 1][..g] == group[..g];
      var units := targets[group[g]].units;
      for k := 0 to |units|
        invariant r == AddNew(before, units[..k])
      {
        assert units[..k + 1][..k] == units[..k];
        if units[k] !in r {
          r := r + [units[k]];
        }
      }
      assert units[..|units|] == units;
    }
    assert group[..|group|] == group;
  }

  // The flashers of a group in first-seen order, each with its own targets in theirs.
  function FlasherOrder(targets: seq<Target>, group: seq<Index>): (r: seq<string>)
    requires Indices(group, targets)
    ensures forall f :: f in r <==> exists g | 0 <= g < |group| :: targets[group[g]].flasher == f
    ensures forall i, j | 0 <= i < j < |r| :: r[i] != r[j]
  {
    if group == [] then [] else
      var before, last := FlasherOrder(targets, group[..|group| - 1]), targets[group[|group| - 1]].flasher;
      assert group == group[..|group| - 1] + [group[|group| - 1]];
      if last in before then before else before + [last]
  }

  function Mine(targets: seq<Target>, group: seq<Index>, f: string): (r: seq<Index>)
    requires Indices(group, targets)
    ensures Indices(r, targets)
  {
    Pick(targets, group, Uses(f))
  }

  method ByFlasher(targets: seq<Target>, group: seq<Index>)
    returns (order: seq<string>, groups: map<string, seq<Index>>)
    requires Indices(group, targets)
    ensures order == FlasherOrder(targets, group)
    ensures forall f :: f in groups <==> f in order
    ensures forall f | f in order :: groups[f] == Mine(targets, group, f)
  {
    hide Grouped;
    order, groups := [], map[];
    NoneGrouped(targets);
    for g := 0 to |group|
      invariant Grouped(targets, group[..g], order, groups)
    {
      var i := group[g];
      var f := targets[i].flasher;
      assert group[..g + 1] == group[..g] + [i];
      GroupedNext(targets, group[..g], i, order, groups);
      if f !in groups {
        order := order + [f];
        groups := groups[f := []];
      }
      groups := groups[f := groups[f] + [i]];
    }
    assert group[..|group|] == group;
    AllGrouped(targets, group, order, groups);
  }

  ghost predicate Grouped(targets: seq<Target>, group: seq<Index>, order: seq<string>,
                          groups: map<string, seq<Index>>) {
    && Indices(group, targets) && order == FlasherOrder(targets, group)
    && (forall f :: f in groups <==> f in order)
    && (forall f | f in order :: groups[f] == Mine(targets, group, f))
  }

  lemma NoneGrouped(targets: seq<Target>)
    ensures Grouped(targets, [], [], map[])
  {
    NoFlashers(targets);
  }

  lemma AllGrouped(targets: seq<Target>, group: seq<Index>, order: seq<string>, groups: map<string, seq<Index>>)
    requires Grouped(targets, group, order, groups)
    ensures order == FlasherOrder(targets, group) && (forall f :: f in groups <==> f in order)
    ensures forall f | f in order :: groups[f] == Mine(targets, group, f)
  {
  }

  lemma GroupedNext(targets: seq<Target>, group: seq<Index>, i: Index, order: seq<string>,
                    groups: map<string, seq<Index>>)
    requires Grouped(targets, group, order, groups) && i < |targets|
    ensures var f := targets[i].flasher;
            if f in groups then Grouped(targets, group + [i], order, groups[f := groups[f] + [i]])
            else Grouped(targets, group + [i], order + [f], groups[f := []][f := [] + [i]])
  {
    hide Mine, FlasherOrder;
    MineNext(targets, group, i);
    FlasherNext(targets, group, i);
    if targets[i].flasher !in groups { NotMine(targets, group, targets[i].flasher); }
  }

  // Where in a group a flasher is first used.
  ghost function FirstUse(targets: seq<Target>, group: seq<Index>, f: string): (g: nat)
    requires Indices(group, targets) && f in FlasherOrder(targets, group)
    ensures g < |group| && targets[group[g]].flasher == f
  {
    var g :| 0 <= g < |group| && targets[group[g]].flasher == f; g
  }

  lemma NoFlashers(targets: seq<Target>)
    ensures FlasherOrder(targets, []) == []
  {
  }

  lemma FlasherNext(targets: seq<Target>, group: seq<Index>, i: Index)
    requires Indices(group, targets) && i < |targets|
    ensures FlasherOrder(targets, group + [i]) ==
            var before := FlasherOrder(targets, group);
            if targets[i].flasher in before then before else before + [targets[i].flasher]
  {
    assert (group + [i])[..|group|] == group;
  }

  lemma MineNext(targets: seq<Target>, group: seq<Index>, i: nat)
    requires Indices(group, targets) && i < |targets|
    ensures Indices(group + [i], targets)
    ensures forall f :: Mine(targets, group + [i], f) ==
                        if targets[i].flasher == f then Mine(targets, group, f) + [i] else Mine(targets, group, f)
  {
    forall f
      ensures Mine(targets, group + [i], f) ==
              if targets[i].flasher == f then Mine(targets, group, f) + [i] else Mine(targets, group, f)
    {
      PickNext(targets, group, i, Uses(f));
    }
  }

  lemma {:induction false} NotMine(targets: seq<Target>, group: seq<Index>, f: string)
    requires Indices(group, targets) && f !in FlasherOrder(targets, group)
    ensures Mine(targets, group, f) == []
  {
    if group != [] {
      var n := |group| - 1;
      assert group == group[..n] + [group[n]];
      NotMine(targets, group[..n], f);
      MineNext(targets, group[..n], group[n]);
    }
  }

  // ----- the order of writes -----

  function Times(s: seq<Index>, i: nat): nat { multiset(s)[i] }

  function Visits(targets: seq<Target>, group: seq<Index>, flashers: seq<string>): seq<Index>
    requires Indices(group, targets)
  {
    if flashers == [] then [] else
      Visits(targets, group, flashers[..|flashers| - 1]) + Mine(targets, group, flashers[|flashers| - 1])
  }

  function GroupOrder(targets: seq<Target>, group: seq<Index>): seq<Index>
    requires Indices(group, targets)
  {
    Visits(targets, group, FlasherOrder(targets, group))
  }

  lemma {:induction false} PickIff(targets: seq<Target>, group: seq<Index>, test: Test, i: Index)
    requires Indices(group, targets)
    ensures i in Pick(targets, group, test) <==> i in group && i < |targets| && Passes(targets, test, i)
  {
    if group != [] {
      var n := |group| - 1;
      assert group == group[..n] + [group[n]];
      PickIff(targets, group[..n], test, i);
    }
  }

  // A target is written inside the outage exactly when it asks for a stop itself, or leaves
  // it to a flasher that does.
  lemma StoppedIff(targets: seq<Target>, defaults: string -> bool, i: Index)
    requires i < |targets|
    ensures i in Stopped(targets, defaults) <==>
            targets[i].needs == Some(true) || (targets[i].needs == None && defaults(targets[i].flasher))
    ensures i in Free(targets, defaults) <==> i !in Stopped(targets, defaults)
  {
    PickIff(targets, UpTo(|targets|), Needs(defaults, true), i);
    PickIff(targets, UpTo(|targets|), Needs(defaults, false), i);
    assert UpTo(|targets|)[i] == i;
  }

  lemma {:induction false} PickCount(targets: seq<Target>, group: seq<Index>, test: Test, i: Index)
    requires Indices(group, targets) && i < |targets|
    ensures Times(Pick(targets, group, test), i) == if Passes(targets, test, i) then Times(group, i) else 0
  {
    if group != [] {
      var n := |group| - 1;
      assert group == group[..n] + [group[n]];
      PickCount(targets, group[..n], test, i);
    }
  }

  lemma {:induction false} VisitsCount(targets: seq<Target>, group: seq<Index>, flashers: seq<string>, i: nat)
    requires Indices(group, targets) && i < |targets|
    requires forall j, k | 0 <= j < k < |flashers| :: flashers[j] != flashers[k]
    ensures Times(Visits(targets, group, flashers), i) ==
            if targets[i].flasher in flashers then Times(group, i) else 0
  {
    if flashers != [] {
      var n := |flashers| - 1;
      assert flashers == flashers[..n] + [flashers[n]];
      VisitsCount(targets, group, flashers[..n], i);
      PickCount(targets, group, Uses(flashers[n]), i);
    }
  }

  lemma {:induction false} VisitsInGroup(targets: seq<Target>, group: seq<Index>, flashers: seq<string>)
    requires Indices(group, targets)
    ensures forall i | i in Visits(targets, group, flashers) :: i in group
  {
    if flashers != [] { VisitsInGroup(targets, group, flashers[..|flashers| - 1]); }
  }

  // A group's writes are its targets, each as often as the group has it.
  lemma GroupOrderPermutes(targets: seq<Target>, group: seq<Index>)
    requires Indices(group, targets)
    ensures forall i: nat :: Times(GroupOrder(targets, group), i) == Times(group, i)
  {
    var order := GroupOrder(targets, group);
    VisitsInGroup(targets, group, FlasherOrder(targets, group));
    forall i: nat ensures Times(order, i) == Times(group, i) {
      if i < |targets| {
        VisitsCount(targets, group, FlasherOrder(targets, group), i);
        if i in group {
          var g :| 0 <= g < |group| && group[g] == i;
          assert targets[group[g]].flasher in FlasherOrder(targets, group);
        }
      } else {
        assert i !in group;
      }
    }
  }

  // The whole batch's order: free targets first, then those that need the stop.
  function Order(targets: seq<Target>, defaults: string -> bool): seq<Index> {
    GroupOrder(targets, Free(targets, defaults)) + GroupOrder(targets, Stopped(targets, defaults))
  }

  // Every target is in that order exactly once.
  lemma OrderOnce(targets: seq<Target>, defaults: string -> bool, i: nat)
    ensures Times(Order(targets, defaults), i) == if i < |targets| then 1 else 0
  {
    hide GroupOrder;
    GroupOrderPermutes(targets, Free(targets, defaults));
    GroupOrderPermutes(targets, Stopped(targets, defaults));
    if i < |targets| {
      PickCount(targets, UpTo(|targets|), Needs(defaults, true), i);
      PickCount(targets, UpTo(|targets|), Needs(defaults, false), i);
    } else {
      NotThere(Free(targets, defaults), targets, i);
      NotThere(Stopped(targets, defaults), targets, i);
    }
    UpToCount(|targets|, i);
  }

  lemma NotThere(group: seq<Index>, targets: seq<Target>, i: Index)
    requires Indices(group, targets) && i >= |targets|
    ensures Times(group, i) == 0
  {
    assert i !in group;
  }

  lemma {:induction false} UpToCount(n: nat, i: nat)
    ensures Times(UpTo(n), i) == if i < n then 1 else 0
  {
    if n > 0 {
      assert UpTo(n) == UpTo(n - 1) + [n - 1];
      UpToCount(n - 1, i);
    }
  }

  // ----- the batch -----

  // One target's turn, when it is not cut short: the write, then its ledger record if
  // there is one, then what follows it.
  function TurnEvents(i: Index, turn: Turn, dryRun: bool): seq<Event> {
    if turn.write != Fine then [Write(i)]
    else [Write(i)] + (if !dryRun && turn.record == Recorded then [Filed(i)] else []) + [Settled(i)]
  }

  function EventsOf(order: seq<Index>, turns: nat -> Turn, dryRun: bool): seq<Event> {
    if order == [] then [] else
      EventsOf(order[..|order| - 1], turns, dryRun) + TurnEvents(order[|order| - 1], turns(order[|order| - 1]), dryRun)
  }

  function Flashed(order: seq<Index>, turns: nat -> Turn): seq<Index> {
    if order == [] then [] else
      var before, last := Flashed(order[..|order| - 1], turns), order[|order| - 1];
      if turns(last).write == Fine then before + [last] else before
  }

  function Failures(order: seq<Index>, turns: nat -> Turn): seq<Failure> {
    if order == [] then [] else
      var before, last := Failures(order[..|order| - 1], turns), order[|order| - 1];
      if turns(last).write == Fine then before else before + [NotWritten(last)]
  }

  function Refusals(n: nat): (r: seq<Failure>)
    ensures |r| == n && forall i | 0 <= i < n :: r[i] == Refused(i)
  {
    seq(n, i requires 0 <= i < n => Refused(i))
  }

  // One more turn at the end.
  lemma TurnNext(order: seq<Index>, i: Index, turns: nat -> Turn, dryRun: bool)
    ensures EventsOf(order + [i], turns, dryRun) == EventsOf(order, turns, dryRun) + TurnEvents(i, turns(i), dryRun)
    ensures Flashed(order + [i], turns) == Flashed(order, turns) + if turns(i).write == Fine then [i] else []
    ensures Failures(order + [i], turns) == Failures(order, turns) + if turns(i).write == Fine then []
            else [NotWritten(i)]
  {
    hide TurnEvents;
    assert (order + [i])[..|order|] == order;
  }

  lemma NoTurn(turns: nat -> Turn, dryRun: bool)
    ensures EventsOf([], turns, dryRun) == [] && Flashed([], turns) == [] && Failures([], turns) == []
  {
  }

  lemma {:induction false} Joined(a: seq<Index>, b: seq<Index>, turns: nat -> Turn, dryRun: bool)
    ensures EventsOf(a + b, turns, dryRun) == EventsOf(a, turns, dryRun) + EventsOf(b, turns, dryRun)
    ensures Flashed(a + b, turns) == Flashed(a, turns) + Flashed(b, turns)
    ensures Failures(a + b, turns) == Failures(a, turns) + Failures(b, turns)
  {
    hide EventsOf, Flashed, Failures, TurnEvents;
    if b == [] {
      NoTurn(turns, dryRun);
      assert a + b == a;
    } else {
      var n := |b| - 1;
      Joined(a, b[..n], turns, dryRun);
      TurnNext(a + b[..n], b[n], turns, dryRun);
      TurnNext(b[..n], b[n], turns, dryRun);
      assert a + b == (a + b[..n]) + [b[n]] && b == b[..n] + [b[n]];
    }
  }

  // A batch cut short has done a first part of what a whole one does.
  lemma EventsPrefix(part: seq<Index>, whole: seq<Index>, turns: nat -> Turn, dryRun: bool)
    requires part <= whole
    ensures EventsOf(part, turns, dryRun) <= EventsOf(whole, turns, dryRun)
  {
    assert whole == part + whole[|part|..];
    Joined(part, whole[|part|..], turns, dryRun);
  }

  lemma {:induction false} VisitsPrefix(targets: seq<Target>, group: seq<Index>, flashers: seq<string>, k: nat)
    requires Indices(group, targets) && k <= |flashers|
    ensures Visits(targets, group, flashers[..k]) <= Visits(targets, group, flashers)
  {
    if k < |flashers| {
      var n := |flashers| - 1;
      VisitsPrefix(targets, group, flashers[..n], k);
      assert flashers[..n][..k] == flashers[..k];
    } else {
      assert flashers[..k] == flashers;
    }
  }

  lemma NoVisits(targets: seq<Target>, group: seq<Index>)
    requires Indices(group, targets)
    ensures Visits(targets, group, []) == []
  {
  }

  lemma VisitsNext(targets: seq<Target>, group: seq<Index>, flashers: seq<string>, k: nat)
    requires Indices(group, targets) && k < |flashers|
    ensures Visits(targets, group, flashers[..k + 1]) ==
            Visits(targets, group, flashers[..k]) + Mine(targets, group, flashers[k])
  {
    assert flashers[..k + 1][..k] == flashers[..k];
  }

  // ----- what a batch reports -----

  function Count(failures: seq<Failure>, f: Failure): nat { multiset(failures)[f] }

  // A target is reported flashed when its write went through, and failed otherwise: once,
  // in one of the two lists, however its record and what followed went.
  lemma {:induction false} ReportedOnce(order: seq<Index>, turns: nat -> Turn, i: Index)
    ensures Times(Flashed(order, turns), i) == if turns(i).write == Fine then Times(order, i) else 0
    ensures Count(Failures(order, turns), NotWritten(i)) == if turns(i).write == Fine then 0 else Times(order, i)
  {
    if order != [] {
      assert order == order[..|order| - 1] + [order[|order| - 1]];
      ReportedOnce(order[..|order| - 1], turns, i);
    }
  }

  function Occurs(events: seq<Event>, e: Event): nat { multiset(events)[e] }

  lemma OneTurn(j: Index, turn: Turn, dryRun: bool, i: Index)
    ensures Occurs(TurnEvents(j, turn, dryRun), Write(i)) == if i == j then 1 else 0
    ensures Occurs(TurnEvents(j, turn, dryRun), Filed(i)) ==
            if i == j && turn.write == Fine && turn.record == Recorded && !dryRun then 1 else 0
  {
  }

  // One write for each time a target is in the order, and a ledger record for exactly the
  // writes that returned and had one to file.
  lemma {:induction false} WrittenOnce(order: seq<Index>, turns: nat -> Turn, dryRun: bool, i: Index)
    ensures Occurs(EventsOf(order, turns, dryRun), Write(i)) == Times(order, i)
    ensures Occurs(EventsOf(order, turns, dryRun), Filed(i)) ==
            if turns(i).write == Fine && turns(i).record == Recorded && !dryRun then Times(order, i) else 0
  {
    hide TurnEvents;
    if order != [] {
      var n := |order| - 1;
      assert order == order[..n] + [order[n]];
      WrittenOnce(order[..n], turns, dryRun, i);
      OneTurn(order[n], turns(order[n]), dryRun, i);
    }
  }

  // A record stands right after its own write and right before what follows the write: no
  // other write, and no later failure, comes between.
  lemma {:induction false} FiledAtOnce(order: seq<Index>, turns: nat -> Turn, dryRun: bool, p: nat)
    requires p < |EventsOf(order, turns, dryRun)| && EventsOf(order, turns, dryRun)[p].Filed?
    ensures var events := EventsOf(order, turns, dryRun);
            var i := events[p].target;
            0 < p < |events| - 1 && events[p - 1] == Write(i) && events[p + 1] == Settled(i)
  {
    var n := |order| - 1;
    var before := EventsOf(order[..n], turns, dryRun);
    if p < |before| { FiledAtOnce(order[..n], turns, dryRun, p); }
  }

  predicate Increasing(group: seq<Index>) { forall i, j | 0 <= i < j < |group| :: group[i] < group[j] }

  // Within one flasher's share of a group the targets keep their order.
  lemma {:induction false} PickKeepsOrder(targets: seq<Target>, group: seq<Index>, test: Test)
    requires Indices(group, targets) && Increasing(group)
    ensures Increasing(Pick(targets, group, test))
  {
    if group != [] {
      var n := |group| - 1;
      PickKeepsOrder(targets, group[..n], test);
      var before := Pick(targets, group[..n], test);
      forall j | 0 <= j < |before| ensures before[j] < group[n] {
        assert before[j] in group[..n];
      }
    }
  }

  // ----- the outage -----

  // At p, this batch's trace from `from` on: a write that needs its units down comes after
  // each was seen down and before any is started; one that does not, before any stop.
  ghost predicate WriteInside(t: seq<Event>, from: nat, p: nat, targets: seq<Target>, defaults: string -> bool)
    requires from <= p < |t|
  {
    t[p].Write? ==>
      && t[p].target < |targets|
      && if NeedsStop(targets[t[p].target], defaults)
         then && (forall u | u in targets[t[p].target].units :: SeenDown(t[..p], from, u))
              && (forall q | from <= q < p :: !t[q].Start?)
         else forall q | from <= q < p :: !t[q].Stop? && !t[q].Record?
  }

  ghost predicate WritesInside(t: seq<Event>, from: nat, targets: seq<Target>, defaults: string -> bool)
  {
    forall p | from <= p < |t| :: WriteInside(t, from, p, targets, defaults)
  }

  // Cut at any point, the trace still has every write inside.
  lemma KillKeepsInside(t: seq<Event>, from: nat, cut: nat, targets: seq<Target>, defaults: string -> bool)
    requires WritesInside(t, from, targets, defaults) && from <= cut <= |t|
    ensures WritesInside(t[..cut], from, targets, defaults)
  {
    forall p | from <= p < cut ensures WriteInside(t[..cut], from, p, targets, defaults) {
      assert WriteInside(t, from, p, targets, defaults);
      assert t[..cut][..p] == t[..p];
    }
  }

  lemma InsideGrows(t: seq<Event>, more: seq<Event>, from: nat, targets: seq<Target>, defaults: string -> bool)
    requires from <= |t| && t <= more && WritesInside(t, from, targets, defaults)
    requires forall p | |t| <= p < |more| :: WriteInside(more, from, p, targets, defaults)
    ensures WritesInside(more, from, targets, defaults)
  {
    forall p | from <= p < |more| ensures WriteInside(more, from, p, targets, defaults) {
      if p < |t| {
        assert WriteInside(t, from, p, targets, defaults);
        assert more[..p] == t[..p];
      }
    }
  }

  // The events of some turns are work on those targets.
  lemma {:induction false} EventsAreWork(order: seq<Index>, turns: nat -> Turn, dryRun: bool)
    ensures forall e | e in EventsOf(order, turns, dryRun) :: e.IsWork() && e.target in order
  {
    if order != [] { EventsAreWork(order[..|order| - 1], turns, dryRun); }
  }

  lemma {:induction false} WorkAdds(t: seq<Event>, work: seq<Event>)
    requires forall e | e in work :: e.IsWork()
    ensures WorkOf(t + work) == WorkOf(t) + work
  {
    hide WorkOf, Event.IsWork;
    if work == [] {
      assert t + work == t;
    } else {
      var n := |work| - 1;
      WorkAdds(t, work[..n]);
      assert t + work == (t + work[..n]) + [work[n]];
      Step(t + work[..n], work[n]);
    }
  }

  // With nothing added to the work, or to the starts, nothing of the kind happened.
  lemma {:induction false} NoneBetween(t: seq<Event>, more: seq<Event>)
    requires t <= more
    ensures |WorkOf(more)| >= |WorkOf(t)| && |StartsOf(more)| >= |StartsOf(t)|
    ensures WorkOf(more) == WorkOf(t) ==> forall p | |t| <= p < |more| :: !more[p].IsWork()
    ensures StartsOf(more) == StartsOf(t) ==> forall p | |t| <= p < |more| :: !more[p].Start?
  {
    if |more| > |t| {
      NoneBetween(t, more[..|more| - 1]);
    } else {
      assert more == t;
    }
  }

  // ----- the batch -----

  datatype Sofar = Sofar(trace: seq<Event>, flashed: seq<Index>, failures: seq<Failure>)

  // What visiting some targets in order has added.
  ghost predicate Visited(was: Sofar, now: Sofar, order: seq<Index>, turns: nat -> Turn, dryRun: bool) {
    && now.trace == was.trace + EventsOf(order, turns, dryRun)
    && now.flashed == was.flashed + Flashed(order, turns)
    && now.failures == was.failures + Failures(order, turns)
  }

  lemma VisitedNext(was: Sofar, mid: Sofar, now: Sofar, order: seq<Index>, i: Index, turns: nat -> Turn, dryRun: bool)
    requires Visited(was, mid, order, turns, dryRun) && Visited(mid, now, [i], turns, dryRun)
    ensures Visited(was, now, order + [i], turns, dryRun)
  {
    hide EventsOf, Flashed, Failures;
    Joined(order, [i], turns, dryRun);
  }

  ghost predicate CutShort(was: Sofar, now: Sofar, order: seq<Index>, turns: nat -> Turn, dryRun: bool) {
    was.trace <= now.trace && now.trace[|was.trace|..] <= EventsOf(order, turns, dryRun)
  }

  lemma CutNext(was: Sofar, mid: Sofar, now: Sofar, order: seq<Index>, i: Index, all: seq<Index>, turns: nat -> Turn,
                dryRun: bool)
    requires Visited(was, mid, order, turns, dryRun) && CutShort(mid, now, [i], turns, dryRun)
    requires order + [i] <= all
    ensures CutShort(was, now, all, turns, dryRun)
  {
    hide EventsOf, Flashed, Failures;
    Joined(order, [i], turns, dryRun);
    EventsPrefix(order + [i], all, turns, dryRun);
    assert now.trace[|was.trace|..] == EventsOf(order, turns, dryRun) + now.trace[|mid.trace|..];
  }

  // What a whole run adds up to, and what one cut short has done of it.
  ghost predicate Total(was: Sofar, now: Sofar, order: seq<Index>, turns: nat -> Turn, dryRun: bool) {
    && now.flashed == was.flashed + Flashed(order, turns)
    && now.failures == was.failures + Failures(order, turns)
    && WorkOf(now.trace) == WorkOf(was.trace) + EventsOf(order, turns, dryRun)
  }

  ghost predicate PartDone(was: seq<Event>, now: seq<Event>, order: seq<Index>, turns: nat -> Turn, dryRun: bool) {
    WorkOf(was) <= WorkOf(now) && WorkOf(now)[|WorkOf(was)|..] <= EventsOf(order, turns, dryRun)
  }

  datatype Outcome = Finished | CutOff | NotDown(unit: Unit) | StopBroke | StartBroke

  class Batch {
    const targets: seq<Target>
    const defaults: string -> bool
    const turns: nat -> Turn
    const unprepared: string -> bool
    const unleft: string -> bool
    const dryRun: bool
    const host: Host
    var flashed: seq<Index>
    var failures: seq<Failure>

    ghost function Now(): Sofar
      reads this, host
    {
      Sofar(host.trace, flashed, failures)
    }

    constructor (targets: seq<Target>, defaults: string -> bool, turns: nat -> Turn,
                 unprepared: string -> bool, unleft: string -> bool, dryRun: bool, host: Host)
      ensures this.targets == targets && this.defaults == defaults && this.turns == turns
      ensures this.unprepared == unprepared && this.unleft == unleft && this.dryRun == dryRun && this.host == host
      ensures flashed == [] && failures == []
    {
      this.targets, this.defaults, this.turns := targets, defaults, turns;
      this.unprepared, this.unleft, this.dryRun, this.host := unprepared, unleft, dryRun, host;
      flashed, failures := [], [];
    }

    // What ends a batch early: a flasher that cannot be made ready or raises when it is left, a
    // cancel seen between devices, or anything raised that is not an ordinary failure.
    ghost predicate CutsOff(i: nat)
      requires i < |targets|
    {
      Fatally(turns(i), dryRun) || unprepared(targets[i].flasher) || unleft(targets[i].flasher)
    }

    // Between devices the batch may be cancelled; inside a write never.
    method WriteTarget(i: Index) returns (fatal: bool)
      requires i < |targets|
      modifies this, host
      ensures Quietly(old(host.trace), host.trace)
      ensures CutShort(old(Now()), Now(), [i], turns, dryRun)
      ensures !fatal ==> Visited(old(Now()), Now(), [i], turns, dryRun)
      ensures fatal <==> Fatally(turns(i), dryRun)
    {
      hide Quietly, EventsOf, Flashed, Failures;
      ghost var was := Now();
      ghost var t0 := host.trace;
      QuietRefl(t0);
      var turn := turns(i);
      JustOne(i, turns, dryRun);
      if turn.cancelled {
        return true;
      }
      host.Log(Write(i));
      QuietNext(t0, t0, Write(i));
      if turn.write == Fatal {
        return true;
      }
      if turn.write == Failed {
        failures := failures + [NotWritten(i)];
        return false;
      }
      if !dryRun {
        if turn.record == FatalToRecord {
          return true;
        }
        if turn.record == Recorded {
          ghost var t := host.trace;
          host.Log(Filed(i));
          QuietNext(t0, t, Filed(i));
        }
      }
      flashed := flashed + [i];
      ghost var t := host.trace;
      host.Log(Settled(i));
      QuietNext(t0, t, Settled(i));
      fatal := turn.settle == Fatal;
    }

    method WriteGroup(group: seq<Index>) returns (fatal: bool)
      requires Indices(group, targets)
      modifies this, host
      ensures Quietly(old(host.trace), host.trace)
      ensures CutShort(old(Now()), Now(), GroupOrder(targets, group), turns, dryRun)
      ensures !fatal ==> Visited(old(Now()), Now(), GroupOrder(targets, group), turns, dryRun)
      ensures fatal ==> exists i | 0 <= i < |targets| :: CutsOff(i)
    {
      hide Quietly, CutShort, EventsOf, Flashed, Failures, FlasherOrder, Mine, Visits, Visited;
      ghost var was := Now();
      ghost var all := GroupOrder(targets, group);
      var order, groups := ByFlasher(targets, group);
      ghost var visited: seq<Index> := [];
      Nothing(was, turns, dryRun);
      NoVisits(targets, group);
      for k := 0 to |order|
        invariant visited == Visits(targets, group, order[..k]) && Quietly(was.trace, host.trace)
        invariant Visited(was, Now(), visited, turns, dryRun)
      {
        VisitsNext(targets, group, order, k);
        var mine := groups[order[k]];
        ghost var before := visited;
        VisitsPrefix(targets, group, order, k + 1);
        assert before + mine <= all && Indices(mine, targets);
        if unprepared(order[k]) {
          assert CutsOff(group[FirstUse(targets, group, order[k])]);
          CutHere(was, Now(), visited, all, turns, dryRun);
          return true;
        }
        for m := 0 to |mine|
          invariant visited == before + mine[..m] && Quietly(was.trace, host.trace)
          invariant Visited(was, Now(), visited, turns, dryRun)
        {
          ghost var mid := Now();
          fatal := WriteTarget(mine[m]);
          QuietTwice(was.trace, mid.trace, host.trace);
          assert before + mine[..m + 1] == visited + [mine[m]];
          assert before + mine[..m + 1] <= before + mine;
          if fatal {
            assert CutsOff(mine[m]);
            CutNext(was, mid, Now(), visited, mine[m], all, turns, dryRun);
            return;
          }
          VisitedNext(was, mid, Now(), visited, mine[m], turns, dryRun);
          visited := visited + [mine[m]];
        }
        assert mine[..|mine|] == mine;
        if unleft(order[k]) {
          assert CutsOff(group[FirstUse(targets, group, order[k])]);
          CutHere(was, Now(), visited, all, turns, dryRun);
          return true;
        }
      }
      assert order[..|order|] == order;
      CutHere(was, Now(), visited, all, turns, dryRun);
      fatal := false;
    }

    // The batch. What it reports and writes when it finishes, and what holds of its trace
    // however it ends, so of any part of it a kill leaves.
    method WriteAll(refused: nat, patience: nat) returns (outcome: Outcome)
      modifies this, host
      ensures outcome.Finished? ==>
                Total(Sofar(old(host.trace), [], Refusals(refused)), Now(), Order(targets, defaults), turns, dryRun)
      ensures PartDone(old(host.trace), host.trace, Order(targets, defaults), turns, dryRun)
      ensures old(host.trace) <= host.trace
      ensures WritesInside(host.trace, |old(host.trace)|, targets, defaults)
      ensures Safe(old(host.trace)) && Journal(old(host.trace)) == [] && (forall n :: !host.startRaises(n)) ==>
                Safe(host.trace)
      ensures outcome.Finished? && Journal(old(host.trace)) == [] ==> Journal(host.trace) == []
      ensures outcome.CutOff? ==> exists i | 0 <= i < |targets| :: CutsOff(i)
      ensures outcome.StopBroke? ==> exists n :: host.stopRaises(n)
      ensures outcome.StartBroke? ==> exists n :: host.startRaises(n)
      ensures outcome.NotDown? ==> exists p | 0 <= p <= |host.trace| ::
              StillUp(host.trace[..p], outcome.unit, patience + 1)
    {
      hide Quietly, CutShort, EventsOf, Flashed, Failures, FlasherOrder, Mine, Union, GroupOrder, WritesInside, Safe,
           Journal, Down, WorkOf, StartsOf, SeenDown, ActiveOf, Reverse, Visited, Order, Stopped, Free, StillUp,
           Batch.CutsOff, PartDone, Total, Restarted, Names;
      ghost var t0 := host.trace;
      flashed, failures := [], [];
      for entry := 0 to refused
        invariant flashed == [] && failures == Refusals(entry) && host.trace == t0
      {
        failures := failures + [Refused(entry)];
      }
      var stopped, free := GroupByStop(targets, defaults);
      ghost var was := Now();
      var fatal := WriteGroup(free);
      QuietFacts(t0, host.trace);
      FreePhase(was, Now(), targets, defaults, turns, dryRun);
      if fatal {
        return CutOff;
      }
      if stopped == [] {
        AllFree(was, Now(), targets, defaults, turns, dryRun);
        return Finished;
      }
      outcome := WriteStopped(was, stopped, patience);
    }

    // The targets that need a stop, inside one outage, after the others were written.
    method WriteStopped(ghost was: Sofar, stopped: seq<Index>, patience: nat) returns (outcome: Outcome)
      requires stopped == Stopped(targets, defaults)
      requires Quietly(was.trace, host.trace) && WritesInside(host.trace, |was.trace|, targets, defaults)
      requires CutShort(was, Now(), GroupOrder(targets, Free(targets, defaults)), turns, dryRun)
      requires Visited(was, Now(), GroupOrder(targets, Free(targets, defaults)), turns, dryRun)
      requires PartDone(was.trace, host.trace, Order(targets, defaults), turns, dryRun)
      modifies this, host
      ensures outcome.Finished? ==> Total(was, Now(), Order(targets, defaults), turns, dryRun)
      ensures PartDone(was.trace, host.trace, Order(targets, defaults), turns, dryRun)
      ensures old(host.trace) <= host.trace && WritesInside(host.trace, |was.trace|, targets, defaults)
      ensures Safe(was.trace) && Journal(was.trace) == [] && (forall n :: !host.startRaises(n)) ==> Safe(host.trace)
      ensures outcome.Finished? && Journal(was.trace) == [] ==> Journal(host.trace) == []
      ensures outcome.CutOff? ==> exists i | 0 <= i < |targets| :: CutsOff(i)
      ensures outcome.StopBroke? ==> exists n :: host.stopRaises(n)
      ensures outcome.StartBroke? ==> exists n :: host.startRaises(n)
      ensures outcome.NotDown? ==>
                exists p | 0 <= p <= |host.trace| :: StillUp(host.trace[..p], outcome.unit, patience + 1)
    {
      hide Quietly, CutShort, EventsOf, Flashed, Failures, FlasherOrder, Mine, Union, GroupOrder, WritesInside, Safe;
      hide Journal, Down, WorkOf, StartsOf, SeenDown, ActiveOf, Reverse, Visited, Order, Stopped, Free, StillUp;
      hide Batch.CutsOff, PartDone, Total, Restarted, Names;
      ghost var t0 := was.trace;
      QuietFacts(t0, host.trace);
      var units := StopServicesUnion(targets, stopped);
      ghost var base := Now();
      SafeMeans(base.trace);
      NoNames();
      var toStop, r, down, up, before := host.Enter(units, true, patience);
      QuietPhase(t0, base.trace, host.trace, targets, defaults);
      NoMoreWork(was, base, Now(), Order(targets, defaults), turns, dryRun);
      NamesPrefix(down, toStop);
      if !r.Inside? {
        if r.NotStopped? { SafeIfStarted(before, host.trace, toStop, host.startRaises, up); }
        return if r.NotStopped? then NotDown(r.unit) else StopBroke;
      }
      ghost var mid := Now();
      var fatal := WriteGroup(stopped);
      QuietFacts(mid.trace, host.trace);
      StoppedPhase(was, base, mid, Now(), units, targets, defaults, turns, dryRun);
      StoppedTotals(was, base, mid, Now(), targets, defaults, turns, dryRun);
      ghost var last := Now();
      var started, broke := host.RestartAll(toStop);
      SafeIfStarted(last.trace, host.trace, toStop, host.startRaises, started);
      QuietPhase(t0, last.trace, host.trace, targets, defaults);
      NoMoreWork(was, last, Now(), Order(targets, defaults), turns, dryRun);
      outcome := if fatal then CutOff else if broke then StartBroke else Finished;
    }
  }

  // ----- the batch's phases -----

  lemma SafeIfStarted(before: seq<Event>, t: seq<Event>, toStop: seq<Unit>, raises: nat -> bool, started: seq<Unit>)
    requires Restarted(before, t, toStop, raises, started)
    ensures (forall n :: !raises(n)) ==> Names(started) == Names(toStop)
  {
    hide Restarted;
    if forall n :: !raises(n) { AllStarted(before, t, toStop, raises, started); }
  }

  // Writes of free targets come before anything is stopped.
  lemma FreePhase(was: Sofar, now: Sofar, targets: seq<Target>, defaults: string -> bool, turns: nat -> Turn,
                  dryRun: bool)
    requires CutShort(was, now, GroupOrder(targets, Free(targets, defaults)), turns, dryRun)
    ensures was.trace <= now.trace
    ensures WritesInside(now.trace, |was.trace|, targets, defaults)
    ensures PartDone(was.trace, now.trace, Order(targets, defaults), turns, dryRun)
  {
    hide EventsOf, GroupOrder, WorkOf, SeenDown, Visits;
    var free := Free(targets, defaults);
    PhaseIsWork(was, now, targets, free, turns, dryRun);
    EventsPrefix(GroupOrder(targets, free), Order(targets, defaults), turns, dryRun);
  }

  // What a group's writing adds to a trace: work, on that group's targets.
  lemma PhaseIsWork(was: Sofar, now: Sofar, targets: seq<Target>, group: seq<Index>, turns: nat -> Turn, dryRun: bool)
    requires Indices(group, targets) && CutShort(was, now, GroupOrder(targets, group), turns, dryRun)
    ensures was.trace <= now.trace
    ensures forall p | |was.trace| <= p < |now.trace| :: now.trace[p].IsWork() && now.trace[p].target in group
    ensures WorkOf(now.trace) == WorkOf(was.trace) + now.trace[|was.trace|..]
  {
    hide EventsOf, FlasherOrder, WorkOf;
    var events := EventsOf(GroupOrder(targets, group), turns, dryRun);
    var added := now.trace[|was.trace|..];
    EventsAreWork(GroupOrder(targets, group), turns, dryRun);
    VisitsInGroup(targets, group, FlasherOrder(targets, group));
    forall k | 0 <= k < |added| ensures added[k].IsWork() && added[k].target in group {
      assert added[k] == events[k];
    }
    forall p | |was.trace| <= p < |now.trace| ensures now.trace[p].IsWork() && now.trace[p].target in group {
      assert now.trace[p] == added[p - |was.trace|];
    }
    WorkAdds(was.trace, added);
    assert now.trace == was.trace + added;
  }

  // Nothing is written while services go down or come back.
  lemma QuietPhase(t0: seq<Event>, t: seq<Event>, more: seq<Event>, targets: seq<Target>, defaults: string -> bool)
    requires t0 <= t <= more && WorkOf(more) == WorkOf(t) && WritesInside(t, |t0|, targets, defaults)
    ensures WritesInside(more, |t0|, targets, defaults)
  {
    hide WorkOf;
    NoneBetween(t, more);
    InsideGrows(t, more, |t0|, targets, defaults);
  }

  lemma NoMoreWork(was: Sofar, now: Sofar, later: Sofar, order: seq<Index>, turns: nat -> Turn, dryRun: bool)
    requires later == now.(trace := later.trace) && WorkOf(later.trace) == WorkOf(now.trace)
    ensures PartDone(was.trace, now.trace, order, turns, dryRun) ==>
            PartDone(was.trace, later.trace, order, turns, dryRun)
    ensures Total(was, now, order, turns, dryRun) ==> Total(was, later, order, turns, dryRun)
  {
  }

  lemma PhaseTotal(was: Sofar, now: Sofar, targets: seq<Target>, group: seq<Index>, turns: nat -> Turn, dryRun: bool)
    requires Indices(group, targets) && Visited(was, now, GroupOrder(targets, group), turns, dryRun)
    ensures Total(was, now, GroupOrder(targets, group), turns, dryRun)
  {
    hide EventsOf, Flashed, Failures, WorkOf, FlasherOrder, Visits;
    CutHere(was, now, GroupOrder(targets, group), GroupOrder(targets, group), turns, dryRun);
    PhaseIsWork(was, now, targets, group, turns, dryRun);
  }

  lemma AllFree(was: Sofar, now: Sofar, targets: seq<Target>, defaults: string -> bool, turns: nat -> Turn,
                dryRun: bool)
    requires Stopped(targets, defaults) == []
    requires Visited(was, now, GroupOrder(targets, Free(targets, defaults)), turns, dryRun)
    ensures Total(was, now, Order(targets, defaults), turns, dryRun)
  {
    hide Total;
    PhaseTotal(was, now, targets, Free(targets, defaults), turns, dryRun);
    assert Order(targets, defaults) == GroupOrder(targets, Free(targets, defaults));
  }

  lemma StoppedTotals(was: Sofar, base: Sofar, mid: Sofar, now: Sofar,
                      targets: seq<Target>, defaults: string -> bool, turns: nat -> Turn, dryRun: bool)
    requires Visited(was, base, GroupOrder(targets, Free(targets, defaults)), turns, dryRun)
    requires mid == base.(trace := mid.trace) && WorkOf(mid.trace) == WorkOf(base.trace)
    requires CutShort(mid, now, GroupOrder(targets, Stopped(targets, defaults)), turns, dryRun)
    ensures PartDone(was.trace, now.trace, Order(targets, defaults), turns, dryRun)
    ensures Visited(mid, now, GroupOrder(targets, Stopped(targets, defaults)), turns, dryRun) ==>
              Total(was, now, Order(targets, defaults), turns, dryRun)
  {
    hide EventsOf, Flashed, Failures, WorkOf, GroupOrder, Visits, Visited;
    var free, stopped := Free(targets, defaults), Stopped(targets, defaults);
    PhaseTotal(was, base, targets, free, turns, dryRun);
    PhaseIsWork(mid, now, targets, stopped, turns, dryRun);
    Joined(GroupOrder(targets, free), GroupOrder(targets, stopped), turns, dryRun);
    assert WorkOf(now.trace)[|WorkOf(was.trace)|..] ==
           EventsOf(GroupOrder(targets, free), turns, dryRun) + now.trace[|mid.trace|..];
    if Visited(mid, now, GroupOrder(targets, stopped), turns, dryRun) {
      PhaseTotal(mid, now, targets, stopped, turns, dryRun);
    }
  }

  // Every write that needs the stop comes after its units were seen down, and before any
  // start.
  lemma StoppedPhase(was: Sofar, base: Sofar, mid: Sofar, now: Sofar, units: seq<Unit>,
                     targets: seq<Target>, defaults: string -> bool, turns: nat -> Turn, dryRun: bool)
    requires CutShort(was, base, GroupOrder(targets, Free(targets, defaults)), turns, dryRun)
    requires base.trace <= mid.trace && StartsOf(mid.trace) == StartsOf(base.trace)
    requires WritesInside(mid.trace, |was.trace|, targets, defaults)
    requires units == Union(targets, Stopped(targets, defaults))
    requires forall u | u in units :: SeenDown(mid.trace, |base.trace|, u)
    requires CutShort(mid, now, GroupOrder(targets, Stopped(targets, defaults)), turns, dryRun)
    ensures mid.trace <= now.trace
    ensures WritesInside(now.trace, |was.trace|, targets, defaults)
  {
    hide EventsOf, WorkOf, StartsOf, GroupOrder, Visits, SeenDown, WritesInside;
    var from, stopped := |was.trace|, Stopped(targets, defaults);
    PhaseIsWork(was, base, targets, Free(targets, defaults), turns, dryRun);
    PhaseIsWork(mid, now, targets, stopped, turns, dryRun);
    NoneBetween(base.trace, mid.trace);
    assert forall q | from <= q < |mid.trace| :: !mid.trace[q].Start?;
    forall p | |mid.trace| <= p < |now.trace| ensures WriteInside(now.trace, from, p, targets, defaults) {
      var i := now.trace[p].target;
      var g :| 0 <= g < |stopped| && stopped[g] == i;
      forall u | u in targets[i].units ensures SeenDown(now.trace[..p], from, u) {
        assert u in targets[stopped[g]].units;
        SeenLater(mid.trace, now.trace[..p], |base.trace|, from, u);
      }
    }
    InsideGrows(mid.trace, now.trace, from, targets, defaults);
  }

  lemma SeenLater(t: seq<Event>, more: seq<Event>, since: nat, from: nat, u: Unit)
    requires t <= more && from <= since && SeenDown(t, since, u)
    ensures SeenDown(more, from, u)
  {
    var i :| since <= i < |t| && t[i] == Saw(u, false);
    assert more[i] == Saw(u, false);
  }

  lemma JustOne(i: Index, turns: nat -> Turn, dryRun: bool)
    ensures EventsOf([i], turns, dryRun) == TurnEvents(i, turns(i), dryRun)
    ensures Flashed([i], turns) == if turns(i).write == Fine then [i] else []
    ensures Failures([i], turns) == if turns(i).write == Fine then [] else [NotWritten(i)]
  {
    TurnNext([], i, turns, dryRun);
    assert [] + [i] == [i];
  }

  lemma Nothing(was: Sofar, turns: nat -> Turn, dryRun: bool)
    ensures Visited(was, was, [], turns, dryRun) && Quietly(was.trace, was.trace)
  {
  }

  lemma CutHere(was: Sofar, now: Sofar, order: seq<Index>, all: seq<Index>, turns: nat -> Turn, dryRun: bool)
    requires Visited(was, now, order, turns, dryRun) && order <= all
    ensures CutShort(was, now, all, turns, dryRun)
  {
    EventsPrefix(order, all, turns, dryRun);
  }

  lemma QuietTwice(t: seq<Event>, mid: seq<Event>, more: seq<Event>)
    requires Quietly(t, mid) && Quietly(mid, more)
    ensures Quietly(t, more)
  {
  }
}
