// A job's log: the ring each job keeps, and the batches that stream it to clients.

module LogStream {
  import opened Text

  // Line number within its job, the stream it came on, its text.
  datatype Line = Line(index: nat, stream: string, text: string)

  // A line as some job handed it over.
  datatype Entry = Entry(job: string, line: Line)

  // ----- one job's ring -----

  class Job {
    const id: string
    const size: nat
    var log: seq<Line>
    var nextIndex: nat
    var dropped: nat
    ghost var history: seq<Line>

    // The ring holds exactly the lines from dropped on, each under its own number.
    ghost predicate Valid()
      reads this
    {
      && nextIndex == |history|
      && dropped <= |history| && dropped == (if |history| > size then |history| - size else 0)
      && log == history[dropped..]
      && (forall i | 0 <= i < |history| :: history[i].index == i)
    }

    constructor (id: string, size: nat)
      ensures Valid() && this.id == id && this.size == size && history == []
    {
      this.id, this.size := id, size;
      log, nextIndex, dropped, history := [], 0, 0, [];
    }

    method Append(stream: string, text: string) returns (line: Line)
      requires Valid()
      modifies this
      ensures Valid()
      ensures line == Line(|old(history)|, stream, text) && history == old(history) + [line]
    {
      line := Line(nextIndex, stream, text);
      nextIndex := nextIndex + 1;
      if |log| == size {
        dropped := dropped + 1;
      }
      log := log + [line];
      if |log| > size {
        log := log[1..];
      }
      history := history + [line];
    }

    // The lines still held from a number on, where they start, and the next number.
    method LogSince(from: int) returns (lines: seq<Line>, start: int, next: nat)
      requires Valid()
      ensures start == (if from > dropped then from else dropped) && next == |history|
      ensures lines == if start < |history| then history[start..] else []
    {
      next := nextIndex;
      if |log| == 0 {
        return [], if from > dropped then from else dropped, next;
      }
      var oldest := log[0].index;
      start := if from > oldest then from else oldest;
      lines := [];
      for i := 0 to |log|
        invariant lines == if start < dropped + i then history[start..dropped + i] else []
      {
        assert log[i] == history[dropped + i];
        if log[i].index >= start {
          lines := lines + [log[i]];
        }
      }
    }
  }

  // ----- batching -----

  const MAX_LINES := 40
  const MAX_BYTES := 32 * 1024
  const MAX_LINE_BYTES := 8 * 1024
  const ENVELOPE := 24
  const CUT_MARK := " ...[truncated]"

  datatype Batch = Batch(job: string, first: nat, lines: seq<Line>)

  function Cut(text: string): (r: string)
    ensures |text| <= MAX_LINE_BYTES ==> r == text
    ensures |text| > MAX_LINE_BYTES ==> text[..MAX_LINE_BYTES] <= r && r[MAX_LINE_BYTES..] == " ...[truncated]"
    ensures |r| <= MAX_LINE_BYTES + |CUT_MARK|
  {
    if |text| > MAX_LINE_BYTES then text[..MAX_LINE_BYTES] + CUT_MARK else text
  }

  function Tagged(job: string, lines: seq<Line>): (r: seq<Entry>)
    ensures |r| == |lines| && forall i | 0 <= i < |r| :: r[i] == Entry(job, lines[i])
  {
    seq(|lines|, i requires 0 <= i < |lines| => Entry(job, lines[i]))
  }

  // The lines some batches carry, in order.
  function Carried(batches: seq<Batch>): seq<Entry> {
    if batches == [] then [] else
      var last := batches[|batches| - 1];
      Carried(batches[..|batches| - 1]) + Tagged(last.job, last.lines)
  }

  function Weight(lines: seq<Line>): nat {
    if lines == [] then 0 else Weight(lines[..|lines| - 1]) + |lines[|lines| - 1].text| + ENVELOPE
  }

  // How many of some entries are a job's.
  function CountOf(entries: seq<Entry>, job: string): nat {
    if entries == [] then 0 else
      CountOf(entries[..|entries| - 1], job) + if entries[|entries| - 1].job == job then 1 else 0
  }

  // Each job's lines are numbered from zero, one by one.
  ghost predicate Numbered(entries: seq<Entry>) {
    forall k | 0 <= k < |entries| :: entries[k].line.index == CountOf(entries[..k], entries[k].job)
  }

  // One batch: some lines, not too many nor too long, and the number of its first.
  predicate Bounded(b: Batch) {
    && 0 < |b.lines| <= MAX_LINES && b.first == b.lines[0].index
    && Weight(b.lines) <= MAX_BYTES - 1 + MAX_LINE_BYTES + |CUT_MARK| + ENVELOPE
  }

  class LogBatcher {
    var jobId: Option<string>
    var pending: seq<Line>
    var first: Option<nat>
    var bytes: nat
    var emitted: seq<Batch>
    ghost var added: seq<Entry>

    ghost function Waiting(): seq<Entry>
      reads this
    {
      if jobId.Some? then Tagged(jobId.value, pending) else []
    }

    // Nothing is lost, repeated or moved: what was emitted and what still waits are the
    // lines added. Each batch is one job's and within bounds.
    ghost predicate Sound()
      reads this
    {
      && Carried(emitted) + Waiting() == added && Numbered(added)
      && (forall b | b in emitted :: Bounded(b))
      && first.Some? == (pending != []) && (pending != [] ==> jobId.Some?)
      && (pending != [] ==> first.value == pending[0].index)
      && (pending != [] ==> Bounded(Batch(jobId.value, first.value, pending)))
      && bytes == Weight(pending)
    }

    ghost predicate Valid()
      reads this
    {
      Sound() && |pending| < MAX_LINES && bytes < MAX_BYTES
    }

    constructor ()
      ensures Valid() && emitted == [] && added == []
    {
      jobId, pending, first, bytes, emitted, added := None, [], None, 0, [], [];
    }

    method Add(job: string, line: Line)
      requires Valid() && line.index == CountOf(added, job)
      modifies this
      ensures Valid() && added == old(added) + [Entry(job, line.(text := Cut(line.text)))]
      ensures old(emitted) <= emitted
    {
      hide Numbered, CountOf, Carried, Bounded, Weight;
      var text := Cut(line.text);
      if jobId.Some? && jobId.value != job {
        FlushLocked();
      }
      ghost var was, waiting := pending, Waiting();
      jobId := Some(job);
      if first.None? {
        first := Some(line.index);
      }
      pending := pending + [line.(text := text)];
      bytes := bytes + |text| + ENVELOPE;
      ghost var entry := Entry(job, line.(text := text));
      PendingNext(was, line.(text := text), job, first.value);
      assert Waiting() == waiting + [entry];
      NumberedNext(added, entry);
      added := added + [entry];
      assert Carried(emitted) + Waiting() == (Carried(emitted) + waiting) + [entry];
      if |pending| >= MAX_LINES || bytes >= MAX_BYTES {
        FlushLocked();
      }
    }

    // The timer, and the end of a stream.
    method Flush()
      requires Valid()
      modifies this
      ensures Valid() && pending == [] && added == old(added) && old(emitted) <= emitted
      ensures Carried(emitted) == added
    {
      hide Bounded;
      FlushLocked();
    }

    method FlushLocked()
      requires Sound()
      modifies this
      ensures Valid() && pending == [] && added == old(added) && jobId == old(jobId)
      ensures emitted == if old(pending) == [] then old(emitted)
                         else old(emitted) + [Batch(old(jobId).value, old(first).value, old(pending))]
      ensures Carried(emitted) == added
    {
      hide Numbered, CountOf, Bounded, Weight, Carried, Tagged;
      NoWeight();
      NoneTagged(jobId);
      assert Carried(emitted) + [] == Carried(emitted);
      if pending == [] || jobId.None? {
        return;
      }
      var payload := Batch(jobId.value, first.value, pending);
      CarriedNext(emitted, payload);
      pending, first, bytes := [], None, 0;
      emitted := emitted + [payload];
    }
  }

  lemma NoneTagged(job: Option<string>)
    ensures job.Some? ==> Tagged(job.value, []) == []
  {
  }

  lemma CarriedNext(batches: seq<Batch>, b: Batch)
    ensures Carried(batches + [b]) == Carried(batches) + Tagged(b.job, b.lines)
  {
    assert (batches + [b])[..|batches|] == batches;
  }

  lemma NoWeight()
    ensures Weight([]) == 0
  {
  }

  // One cut line more than a batch that has room: still within bounds.
  lemma PendingNext(lines: seq<Line>, line: Line, job: string, first: nat)
    requires |lines| < MAX_LINES && Weight(lines) < MAX_BYTES && |line.text| <= MAX_LINE_BYTES + |CUT_MARK|
    requires first == (lines + [line])[0].index
    ensures Weight(lines + [line]) == Weight(lines) + |line.text| + ENVELOPE
    ensures Bounded(Batch(job, first, lines + [line]))
  {
    assert (lines + [line])[..|lines|] == lines;
  }

  lemma NumberedNext(entries: seq<Entry>, e: Entry)
    requires Numbered(entries) && e.line.index == CountOf(entries, e.job)
    ensures Numbered(entries + [e])
  {
    var more := entries + [e];
    forall k | 0 <= k < |more| ensures more[k].line.index == CountOf(more[..k], more[k].job) {
      assert more[..k] == entries[..k];
      if k == |entries| { assert entries[..k] == entries; }
    }
  }

  // ----- what a client can tell -----

  // What an agent has emitted, whatever still waits.
  ghost predicate Stream(emitted: seq<Batch>) {
    Numbered(Carried(emitted)) && forall b | b in emitted :: Bounded(b)
  }

  lemma {:induction false} CountJoined(a: seq<Entry>, b: seq<Entry>, job: string)
    ensures CountOf(a + b, job) == CountOf(a, job) + CountOf(b, job)
  {
    if b == [] {
      assert a + b == a;
    } else {
      CountJoined(a, b[..|b| - 1], job);
      assert (a + b)[..|a + b| - 1] == a + b[..|b| - 1];
    }
  }

  lemma {:induction false} CarriedJoined(a: seq<Batch>, b: seq<Batch>)
    ensures Carried(a + b) == Carried(a) + Carried(b)
  {
    hide Carried, Tagged;
    if b == [] {
      NoneCarried();
      assert a + b == a;
    } else {
      var n := |b| - 1;
      CarriedJoined(a, b[..n]);
      CarriedNext(a + b[..n], b[n]);
      CarriedNext(b[..n], b[n]);
      assert a + b == (a + b[..n]) + [b[n]] && b == b[..n] + [b[n]];
    }
  }

  lemma NoneCarried()
    ensures Carried([]) == []
  {
  }

  lemma {:induction false} TaggedCount(owner: string, lines: seq<Line>, job: string)
    ensures CountOf(Tagged(owner, lines), job) == if owner == job then |lines| else 0
  {
    if lines != [] {
      TaggedCount(owner, lines[..|lines| - 1], job);
      assert Tagged(owner, lines)[..|lines| - 1] == Tagged(owner, lines[..|lines| - 1]);
    }
  }

  // A batch's number is how many of its job's lines were emitted before it, so it and its
  // length give the number the job's next batch must carry.
  lemma BatchFirst(emitted: seq<Batch>, k: nat)
    requires Stream(emitted) && k < |emitted|
    ensures emitted[k].first == CountOf(Carried(emitted[..k]), emitted[k].job)
    ensures emitted[k].first + |emitted[k].lines| == CountOf(Carried(emitted[..k + 1]), emitted[k].job)
  {
    hide CountOf, Carried, Tagged, Bounded, Numbered;
    var b := emitted[k];
    var before := Carried(emitted[..k]);
    CarriedSplit(emitted[..k], b, emitted[k + 1..]);
    assert emitted == emitted[..k] + [b] + emitted[k + 1..];
    assert Bounded(b) by { assert b in emitted; }
    BoundedFirst(b);
    var mine, after := Tagged(b.job, b.lines), Carried(emitted[k + 1..]);
    assert (before + mine + after)[|before|] == mine[0] && (before + mine + after)[..|before|] == before;
    NumberedAt(Carried(emitted), |before|);
    CountNext(emitted, k, b.job);
  }

  lemma CarriedSplit(a: seq<Batch>, b: Batch, c: seq<Batch>)
    ensures Carried(a + [b] + c) == Carried(a) + Tagged(b.job, b.lines) + Carried(c)
  {
    hide Tagged, Carried;
    CarriedNext(a, b);
    CarriedJoined(a + [b], c);
  }

  lemma BoundedFirst(b: Batch)
    requires Bounded(b)
    ensures b.lines != [] && b.first == b.lines[0].index
  {
  }

  lemma NumberedAt(entries: seq<Entry>, k: nat)
    requires Numbered(entries) && k < |entries|
    ensures entries[k].line.index == CountOf(entries[..k], entries[k].job)
  {
  }

  // A client that saw one batch of a job and next sees a later one finds the number it
  // expects exactly when no batch of that job came between.
  lemma GapSeen(emitted: seq<Batch>, i: nat, k: nat)
    requires Stream(emitted) && i < k < |emitted| && emitted[i].job == emitted[k].job
    ensures emitted[i].first + |emitted[i].lines| <= emitted[k].first
    ensures emitted[i].first + |emitted[i].lines| == emitted[k].first <==>
            forall m | i < m < k :: emitted[m].job != emitted[k].job
  {
    BatchFirst(emitted, i);
    BatchFirst(emitted, k);
    CountBetween(emitted, i + 1, k, emitted[k].job);
  }

  // Between two points a job's count grows exactly when a batch of it lies there.
  lemma {:induction false} CountBetween(emitted: seq<Batch>, from: nat, to: nat, job: string)
    requires from <= to <= |emitted| && forall b | b in emitted :: Bounded(b)
    ensures CountOf(Carried(emitted[..from]), job) <= CountOf(Carried(emitted[..to]), job)
    ensures CountOf(Carried(emitted[..from]), job) == CountOf(Carried(emitted[..to]), job) <==>
            forall m | from <= m < to :: emitted[m].job != job
  {
    hide CountOf, Carried;
    if from < to {
      CountBetween(emitted, from, to - 1, job);
      assert emitted[to - 1] in emitted;
      CountNext(emitted, to - 1, job);
    }
  }

  lemma CountNext(emitted: seq<Batch>, k: nat, job: string)
    requires k < |emitted|
    ensures CountOf(Carried(emitted[..k + 1]), job) ==
            CountOf(Carried(emitted[..k]), job) + if emitted[k].job == job then |emitted[k].lines| else 0
  {
    hide CountOf, Carried, Tagged;
    var b := emitted[k];
    assert emitted[..k + 1] == emitted[..k] + [b];
    CarriedNext(emitted[..k], b);
    CountJoined(Carried(emitted[..k]), Tagged(b.job, b.lines), job);
    TaggedCount(b.job, b.lines, job);
  }

  // ----- a worker and a timer -----

  // ticks: how often the timer goes off between a line's numbering and its handing over.
  datatype Op = Say(stream: string, text: string, ticks: nat) | Tick

  function Said(ops: seq<Op>): seq<(string, string)> {
    if ops == [] then [] else
      var before, last := Said(ops[..|ops| - 1]), ops[|ops| - 1];
      if last.Say? then before + [(last.stream, last.text)] else before
  }

  function Numbering(said: seq<(string, string)>): seq<Line> {
    seq(|said|, i requires 0 <= i < |said| => Line(i, said[i].0, said[i].1))
  }

  function CutAll(lines: seq<Line>): seq<Line> {
    seq(|lines|, i requires 0 <= i < |lines| => lines[i].(text := Cut(lines[i].text)))
  }

  // One job's work, with the timer going off anywhere in it.
  method Work(job: Job, batcher: LogBatcher, ops: seq<Op>)
    requires job.Valid() && job.history == [] && batcher.Valid() && CountOf(batcher.added, job.id) == 0
    modifies job, batcher
    ensures job.Valid() && batcher.Valid() && job.history == Numbering(Said(ops))
    ensures batcher.added == old(batcher.added) + Tagged(job.id, CutAll(job.history))
    ensures old(batcher.emitted) <= batcher.emitted
  {
    hide Numbered, Carried, CountOf, Bounded, LogBatcher.Valid, Job.Valid;
    ghost var was := batcher.added;
    for i := 0 to |ops|
      invariant job.Valid() && batcher.Valid() && job.history == Numbering(Said(ops[..i]))
      invariant batcher.added == was + Tagged(job.id, CutAll(job.history))
      invariant old(batcher.emitted) <= batcher.emitted
    {
      assert ops[..i + 1][..i] == ops[..i];
      match ops[i] {
        case Say(stream, text, ticks) =>
          ghost var history := job.history;
          CountJoined(was, Tagged(job.id, CutAll(history)), job.id);
          TaggedCount(job.id, CutAll(history), job.id);
          var line := job.Append(stream, text);
          ghost var added := batcher.added;
          for t := 0 to ticks
            invariant job.Valid() && batcher.Valid() && job.history == history + [line]
            invariant batcher.added == added && old(batcher.emitted) <= batcher.emitted
          {
            batcher.Flush();
          }
          batcher.Add(job.id, line);
          assert Tagged(job.id, CutAll(job.history)) ==
                 Tagged(job.id, CutAll(history)) + [Entry(job.id, line.(text := Cut(text)))];
        case Tick =>
          batcher.Flush();
      }
    }
    assert ops[..|ops|] == ops;
  }

  // One job, its ring's size, and what its work does.
  datatype Shift = Shift(id: string, size: nat, ops: seq<Op>)

  function Everything(shifts: seq<Shift>): seq<Entry> {
    if shifts == [] then [] else
      var last := shifts[|shifts| - 1];
      Everything(shifts[..|shifts| - 1]) + Tagged(last.id, CutAll(Numbering(Said(last.ops))))
  }

  lemma {:induction false} NotYetServed(shifts: seq<Shift>, id: string)
    requires forall i | 0 <= i < |shifts| :: shifts[i].id != id
    ensures CountOf(Everything(shifts), id) == 0
  {
    hide CountOf;
    if shifts != [] {
      var n := |shifts| - 1;
      NotYetServed(shifts[..n], id);
      var lines := CutAll(Numbering(Said(shifts[n].ops)));
      CountJoined(Everything(shifts[..n]), Tagged(shifts[n].id, lines), id);
      TaggedCount(shifts[n].id, lines, id);
    } else {
      NoneCounted(id);
    }
  }

  lemma NoneCounted(id: string)
    ensures CountOf([], id) == 0
  {
  }

  // Jobs one after another: once the batcher is flushed, the batches carry every line that
  // was said, cut where it is too long, once each and in order.
  method Serve(shifts: seq<Shift>, batcher: LogBatcher)
    requires batcher.Valid() && batcher.added == [] && forall i, j | 0 <= i < j < |shifts| ::
             shifts[i].id != shifts[j].id
    modifies batcher
    ensures batcher.Valid() && Carried(batcher.emitted) == Everything(shifts) && Stream(batcher.emitted)
  {
    hide Carried, CountOf, Tagged, CutAll, Numbering, Said;
    for i := 0 to |shifts|
      invariant batcher.Valid() && batcher.added == Everything(shifts[..i])
    {
      assert shifts[..i + 1][..i] == shifts[..i];
      NotYetServed(shifts[..i], shifts[i].id);
      var job := new Job(shifts[i].id, shifts[i].size);
      Work(job, batcher, shifts[i].ops);
    }
    assert shifts[..|shifts|] == shifts;
    batcher.Flush();
  }
}
