/** The durable queue lives as QueueRuns says: every call on the real object, over
    its directory, with the process stopping wherever it may, is a step there. */
module QueueLives {
  import opened Bytes
  import opened Messages
  import opened Sequences
  import opened Records
  import opened Directories
  import opened Recovery
  import opened CrashSafety
  import opened QueueContract
  import opened QueueModel
  import opened QueueRuns
  import opened DiskQueues

  function LimitsOf(opts: Options): Limits {
    Limits(Normalised(opts).segmentBytes, Normalised(opts).maxBytes)
  }

  /** A queue in working order. */
  ghost predicate Working(q: Queue, crc: Crc, opts: Options)
    reads q, q.dir
  {
    q.Valid() && q.Durable() && !q.closed && q.crc == crc &&
    q.segmentBytes == LimitsOf(opts).segmentBytes && q.maxBytes == LimitsOf(opts).maxBytes
  }

  /** Open, on any directory: the queue is what Reopened says, within its budget
      as far as eviction can; and a usable head file makes it safe. */
  method Open(crc: Crc, dir: Directory, opts: Options) returns (q: Queue)
    modifies dir
    ensures fresh(q) && q.dir == dir && q.crc == crc && q.Valid() && !q.closed
    ensures q.Now() == Reopened(crc, old(dir.state), LimitsOf(opts).maxBytes)
    ensures q.Contents() == Recovered(crc, old(dir.state), LimitsOf(opts).maxBytes)
    ensures var d := old(dir.state);
      var log, e := RecoveredLog(crc, d), Excess(RecoveredSegments(crc, d), LimitsOf(opts).maxBytes);
      q.dropped == |Flatten(log[..e])| && q.dropped + q.count == |Flatten(log)|
    ensures |dir.trace| >= |old(dir.trace)| && dir.trace[..|old(dir.trace)|] == old(dir.trace)
    ensures HeadUsable(old(dir.state)) ==>
      Working(q, crc, opts) &&
      ReopensTo(crc, LimitsOf(opts).maxBytes, dir.trace[|old(dir.trace)|..], [q.Now()])
  {
    q := new Queue(crc, dir, opts);
    OpenConserves(crc, dir.state, LimitsOf(opts).maxBytes);
    hide HeadUsable, Recovered, Reopened, ReopensTo, Atomic, RecoveredLog, RecoveredSegments, Excess, Flatten;
    q.Recover();
  }

  /** Open on a directory left in state d, and the states it may be stopped in. */
  method OpenAt(crc: Crc, opts: Options, d: DirState) returns (q: Queue, states: seq<DirState>)
    requires HeadUsable(d)
    ensures fresh(q) && fresh(q.dir) && Working(q, crc, opts) && q.Now() == Reopened(crc, d, LimitsOf(opts).maxBytes)
    ensures states != [] && ReopensTo(crc, LimitsOf(opts).maxBytes, states, [q.Now()])
  {
    hide HeadUsable, Reopened, ReopensTo, Working;
    var dir := new Directory(d);
    q := Open(crc, dir, opts);
    ReopensOne(crc, LimitsOf(opts).maxBytes, d, [q.Now()]);
    ReopensConcat(crc, LimitsOf(opts).maxBytes, [d], dir.trace[1..], [q.Now()]);
    states := [d] + dir.trace[1..];
  }

  /** The process stops in one of these states; Open follows, and may be stopped
      again as often as there are further stops. */
  method Crash(crc: Crc, opts: Options, states: seq<DirState>, stops: seq<nat>, ghost outcomes: seq<Memory>)
    returns (q: Queue)
    requires states != [] && stops != [] && ReopensAs(crc, LimitsOf(opts).maxBytes, states, outcomes)
    ensures fresh(q) && fresh(q.dir) && Working(q, crc, opts)
    ensures |states| == |outcomes| && q.Now() == outcomes[stops[0] % |states|]
    ensures q.Now() == Reopened(crc, states[stops[0] % |states|], LimitsOf(opts).maxBytes)
    decreases |stops|
  {
    hide HeadUsable, Reopened, Working, ReopensTo;
    var d := states[stops[0] % |states|];
    var inside;
    q, inside := OpenAt(crc, opts, d);
    if |stops| > 1 {
      ReopensAlways(crc, LimitsOf(opts).maxBytes, inside, q.Now());
      q := Crash(crc, opts, inside, stops[1..], Repeat(q.Now(), |inside|));
    }
  }

  /** A queue at rest reopens to itself. */
  lemma AtRest(q: Queue, crc: Crc, opts: Options)
    requires Working(q, crc, opts)
    ensures Shaped(q.Now()) && HeadUsable(q.dir.state) && Reopened(crc, q.dir.state, LimitsOf(opts).maxBytes) == q.Now()
  {
    RestReopens(q);
  }

  lemma RestReopens(q: Queue)
    requires q.Valid() && q.Durable()
    ensures Shaped(q.Now()) && HeadUsable(q.dir.state) && Reopened(q.crc, q.dir.state, q.maxBytes) == q.Now()
  {
    ReadNothing(q.crc);
    q.RepShape();
    LayoutReopens(q.crc, q.dir.state, q.Now(), q.headOff, [], q.maxBytes);
    WithinBound(q.Now(), q.maxBytes);
  }

  lemma WithStart(crc: Crc, maxBytes: nat, start: DirState, states: seq<DirState>, before: Memory,
      outcomes: seq<Memory>)
    requires HeadUsable(start) && Reopened(crc, start, maxBytes) == before && ReopensAs(crc, maxBytes, states, outcomes)
    ensures ReopensAs(crc, maxBytes, [start] + states, [before] + outcomes)
  {
  }

  /** The states a call on q was in so far, from the one it began with. */
  twostate function Passed(q: Queue): seq<DirState>
    requires |q.dir.trace| >= |old(q.dir.trace)|
    reads q.dir
  {
    [old(q.dir.state)] + q.dir.trace[|old(q.dir.trace)|..]
  }

  /** Push, stopped or not; a stop is in one of the states it passes through. */
  method DoPush(crc: Crc, opts: Options, q: Queue, m: Message, stops: seq<nat>) returns (q': Queue)
    requires Working(q, crc, opts) && Readable(Body(m))
    modifies q, q.dir
    ensures Working(q', crc, opts) && (q' == q || (fresh(q') && fresh(q'.dir)))
    ensures Step(LimitsOf(opts), old(q.Now()), Push(m, stops), q'.Now())
    ensures |q.dir.trace| >= |old(q.dir.trace)|
    ensures stops != [] ==>
      var states := Passed(q);
      q'.Now() == Reopened(crc, states[stops[0] % |states|], LimitsOf(opts).maxBytes)
  {
    hide Atomic, HeadUsable, Reopened, ReopensAs, Readable, Body, Pushed, Small, Record, AfterPush, PushResults,
         Evicted, StoreStates, Queue.Rep, Queue.Contents, Queue.Durable, Queue.Valid;
    var start, n := q.dir.state, |q.dir.trace|;
    ghost var before := q.Now();
    AtRest(q, crc, opts);
    ReadableShort(Body(m));
    RecordLength(crc, m);
    var ok := q.Push(m);
    q' := q;
    if stops != [] {
      var l := LimitsOf(opts);
      ghost var results := PushResults(before, RecordLen(m), Body(m), l.segmentBytes, l.maxBytes);
      var states := [start] + q.dir.trace[n..];
      WithStart(crc, q.maxBytes, start, q.dir.trace[n..], before, results);
      q' := Crash(crc, opts, states, stops, [before] + results);
    }
  }

  lemma RecordLength(crc: Crc, m: Message)
    ensures |Record(crc, Body(m))| == RecordLen(m)
  {
  }

  lemma ReadableShort(body: bytes)
    requires Readable(body)
    ensures |body| < 0x1_0000_0000
  {
  }

  /** Ack, stopped or not. */
  method DoAck(crc: Crc, opts: Options, q: Queue, stops: seq<nat>) returns (q': Queue)
    requires Working(q, crc, opts)
    modifies q, q.dir
    ensures Working(q', crc, opts) && (q' == q || (fresh(q') && fresh(q'.dir)))
    ensures Step(LimitsOf(opts), old(q.Now()), Ack(stops), q'.Now())
    ensures |q.dir.trace| >= |old(q.dir.trace)|
    ensures stops != [] ==>
      var states := Passed(q);
      q'.Now() == Reopened(crc, states[stops[0] % |states|], LimitsOf(opts).maxBytes)
  {
    hide Atomic, HeadUsable, Reopened, ReopensAs, AfterAck, AckResults, PeekOutcome, Small,
         Queue.Rep, Queue.Contents, Queue.Durable, Queue.Valid;
    var start, n, off := q.dir.state, |q.dir.trace|, q.headOff;
    ghost var before := q.Now();
    AtRest(q, crc, opts);
    HeadInside(q);
    q.Ack();
    q' := q;
    if stops != [] {
      var states := [start] + q.dir.trace[n..];
      WithStart(crc, q.maxBytes, start, q.dir.trace[n..], before, AckResults(before, off));
      q' := Crash(crc, opts, states, stops, [before] + AckResults(before, off));
    }
  }

  lemma HeadInside(q: Queue)
    requires q.Valid()
    ensures Shaped(q.Now()) && q.headOff == HeadOffset(q.Now())
  {
    HeadRecords(q.crc, q.dir.state, q.Now(), q.headOff);
  }

  /** Close and Open, stopped or not: before the head write of Close, after it, or
      anywhere in Open. */
  method DoRestart(crc: Crc, opts: Options, q: Queue, stops: seq<nat>) returns (q': Queue)
    requires Working(q, crc, opts)
    modifies q, q.dir
    ensures Working(q', crc, opts) && fresh(q') && fresh(q'.dir)
    ensures Step(LimitsOf(opts), old(q.Now()), Restart(stops), q'.Now())
  {
    hide Atomic, HeadUsable, Reopened, ReopensTo, Working;
    ghost var before := q.Now();
    var start := q.dir.state;
    AtRest(q, crc, opts);
    WorkingParts(q, crc, opts);
    q.Close();
    RestReopens(q);
    var inside;
    q', inside := OpenAt(crc, opts, q.dir.state);
    if stops != [] {
      ReopensOne(crc, LimitsOf(opts).maxBytes, start, [before]);
      ReopensConcat(crc, LimitsOf(opts).maxBytes, [start], inside, [before]);
      ReopensAlways(crc, LimitsOf(opts).maxBytes, [start] + inside, before);
      q' := Crash(crc, opts, [start] + inside, stops, Repeat(before, |[start] + inside|));
    }
  }

  lemma WorkingParts(q: Queue, crc: Crc, opts: Options)
    requires Working(q, crc, opts)
    ensures q.Valid() && q.Durable() && !q.closed && q.crc == crc && q.maxBytes == LimitsOf(opts).maxBytes
  {
  }

  method Start(crc: Crc, opts: Options) returns (q: Queue)
    ensures fresh(q) && fresh(q.dir) && Working(q, crc, opts) && q.Now() == Fresh
  {
    var dir := new Directory(DirState(map[], None));
    StartEmpty(crc, LimitsOf(opts).maxBytes);
    q := Open(crc, dir, opts);
  }

  lemma StartEmpty(crc: Crc, maxBytes: nat)
    ensures HeadUsable(DirState(map[], None)) && Reopened(crc, DirState(map[], None), maxBytes) == Fresh
  {
    var d := DirState(map[], None);
    assert (set id | id in d.files && id >= HeadOf(d).id) == {};
  }

  lemma StepsKept(l: Limits, calls: seq<Call>, mems: seq<Memory>, next: Memory, i: nat)
    requires i < |calls| && |mems| == i + 1 && Step(l, mems[i], calls[i], next)
    requires forall j :: 0 <= j < i ==> StepAt(l, calls, mems, j)
    ensures forall j :: 0 <= j < i + 1 ==> StepAt(l, calls, mems + [next], j)
  {
    hide Step;
    forall j | 0 <= j < i + 1 ensures StepAt(l, calls, mems + [next], j) {
      if j < i {
        assert StepAt(l, calls, mems, j);
      }
    }
  }

  /** A whole life of the real queue, from an empty directory, is the run of its
      calls: each one, completed or stopped where it says, makes of the queue what
      QueueRuns.Outcome says, and at the end the queue works. */
  method Live(crc: Crc, opts: Options, calls: seq<Call>) returns (q: Queue, ghost mems: seq<Memory>)
    requires forall c <- calls :: c.Push? ==> Readable(Body(c.m))
    ensures fresh(q) && fresh(q.dir) && Working(q, crc, opts)
    ensures Run(LimitsOf(opts), calls, mems) && q.Now() == mems[|calls|]
  {
    q := Start(crc, opts);
    hide Working, Readable, Body, Step;
    mems := [Fresh];
    for i := 0 to |calls|
      invariant Working(q, crc, opts) && fresh(q) && fresh(q.dir)
      invariant |mems| == i + 1 && mems[0] == Fresh && q.Now() == mems[i]
      invariant forall j :: 0 <= j < i ==> StepAt(LimitsOf(opts), calls, mems, j)
    {
      var c := calls[i];
      assert c in calls;
      match c {
        case Push(m, stops) => q := DoPush(crc, opts, q, m, stops);
        case Ack(stops) => q := DoAck(crc, opts, q, stops);
        case Restart(stops) => q := DoRestart(crc, opts, q, stops);
      }
      StepsKept(LimitsOf(opts), calls, mems, q.Now(), i);
      mems := mems + [q.Now()];
    }
  }
}
