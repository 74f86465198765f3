/** What the node's messages say over whole runs: transitions only, and verdicts
    that are functions of each tag's history. */
module EdgeTheorems {
  import opened Messages
  import opened Sequences
  import opened QualityRules
  import opened EdgeNode

  /** One callback; each runs under the node's lock, so a run is a sequence. */
  datatype Event =
    | Readings(source: string, rs: seq<EdgeNode.Reading>, clock: Clock)
    | Failure(source: string, clock: Clock)
    | Tick(now: int)

  function Handle(p: Plant, st: State, ev: Event): (st': State)
    requires Fits(p, st)
    ensures Fits(p, st')
  {
    match ev
    case Readings(source, rs, clock) => if source in p.tags then AfterReadings(p, st, source, rs, |rs|, clock) else st
    case Failure(source, clock) => if source in p.tags then AfterError(p, st, source, |p.tags[source]|, clock) else st
    case Tick(now) => AfterTick(p, st, |p.order|, now)
  }

  function HandleAll(p: Plant, st: State, evs: seq<Event>): (st': State)
    requires Fits(p, st)
    ensures Fits(p, st')
  {
    if evs == [] then st else Handle(p, HandleAll(p, st, evs[..|evs| - 1]), evs[|evs| - 1])
  }

  /** The qualities of a topic's messages, in order. */
  function Sent(out: seq<Outgoing>, topic: Topic): seq<Quality> {
    if out == [] then [] else
    var o := out[|out| - 1];
    Sent(out[..|out| - 1], topic) + if o.topic == topic then [o.verdict.quality] else []
  }

  lemma SentSnoc(out: seq<Outgoing>, o: Outgoing, topic: Topic)
    ensures Sent(out + [o], topic) == Sent(out, topic) + if o.topic == topic then [o.verdict.quality] else []
  {
    assert (out + [o])[..|out|] == out;
  }

  // ----- Transitions only --------------------------------------------------------------

  /** A failure that was reported shows as BAD until the next sample. */
  predicate Marked(e: EvalState) {
    e.commDown ==> e.current.quality == BAD
  }

  /** What may still be published before the next sample. */
  function Allowed(e: EvalState): seq<Quality> {
    if e.commDown then [] else if e.current.quality == STALE then [BAD] else [STALE, BAD]
  }

  /** What was published for the topic followed by what still may be. */
  function Outlook(p: Plant, st: State, topic: Topic): seq<Quality>
    requires Fits(p, st) && topic in p.cfgs
  {
    Sent(st.out, topic) + Allowed(st.evals[topic])
  }

  /** From st to st' the topic's messages only use up what was allowed. */
  ghost predicate Keeps(p: Plant, st: State, st': State, topic: Topic)
    requires Fits(p, st) && Fits(p, st') && topic in p.cfgs
  {
    Marked(st'.evals[topic]) && st.out <= st'.out && Subsequence(Outlook(p, st', topic), Outlook(p, st, topic))
  }

  lemma KeepsNothing(p: Plant, st: State, topic: Topic)
    requires Fits(p, st) && topic in p.cfgs && Marked(st.evals[topic])
    ensures Keeps(p, st, st, topic)
  {
    SubsequenceReflexive(Outlook(p, st, topic));
  }

  lemma KeepsMarked(p: Plant, st: State, st': State, topic: Topic)
    requires Fits(p, st) && Fits(p, st') && topic in p.cfgs && Keeps(p, st, st', topic)
    ensures topic in st'.evals && Marked(st'.evals[topic])
  {
  }

  lemma KeepsBoth(p: Plant, a: State, b: State, c: State, topic: Topic)
    requires Fits(p, a) && Fits(p, b) && Fits(p, c) && topic in p.cfgs
    requires Keeps(p, a, b, topic) && Keeps(p, b, c, topic)
    ensures Keeps(p, a, c, topic)
  {
    SubsequenceTransitive(Outlook(p, c, topic), Outlook(p, b, topic), Outlook(p, a, topic));
  }

  /** A message that starts what is allowed and leaves the rest of it. */
  lemma PublishKeeps(p: Plant, st: State, source: string, u: Topic, e: EvalState, value: Option<Sample>, at: int,
      topic: Topic)
    requires Fits(p, st) && source in p.tags && u in p.cfgs && topic in p.cfgs && Marked(st.evals[topic])
    requires u == topic ==> Marked(e) && Subsequence([e.current.quality] + Allowed(e), Allowed(st.evals[topic]))
    ensures Keeps(p, st, Publish(p, st, source, u, e, value, at), topic)
  {
    var st' := Publish(p, st, source, u, e, value, at);
    var o := Outgoing(source, u, e.current, value, at, st.seqs[source]);
    SentSnoc(st.out, o, topic);
    SubsequenceReflexive(Outlook(p, st, topic));
    var sent := Sent(st.out, topic);
    if u == topic {
      SentOrDropped(sent, [e.current.quality], Allowed(e), Allowed(st.evals[topic]));
    } else {
      assert sent + [] == sent;
    }
    hide Subsequence, Sent, Allowed;
  }

  lemma SentOrDropped(sent: seq<Quality>, q: seq<Quality>, left: seq<Quality>, before: seq<Quality>)
    requires Subsequence(q + left, before)
    ensures Subsequence(sent + q + left, sent + before) && Subsequence(sent + left, sent + before)
  {
    SubsequenceReflexive(sent);
    SubsequenceConcat(sent, sent, q + left, before);
    assert sent + (q + left) == sent + q + left;
    DropInMiddle(sent, q, |q|, left, sent + before);
    assert sent + q[|q|..] + left == sent + left;
  }

  lemma Shrinks()
    ensures Subsequence([BAD], [STALE, BAD]) && Subsequence([BAD], [BAD]) && Subsequence([STALE, BAD], [STALE, BAD])
  {
    SubsequenceReflexive([BAD]);
    SubsequenceReflexive([STALE, BAD]);
    assert [STALE, BAD][1..] == [BAD];
  }

  lemma ErrorKeeps(p: Plant, st: State, source: string, t: TagRef, at: int, topic: Topic)
    requires Fits(p, st) && source in p.tags && t.topic in p.cfgs && topic in p.cfgs && Marked(st.evals[topic])
    ensures Keeps(p, st, TagError(p, st, source, t, at), topic)
  {
    var e := st.evals[t.topic];
    if e.current.quality == BAD {
      KeepsNothing(p, st, topic);
    } else {
      Shrinks();
      assert [BAD] + [] == [BAD];
      PublishKeeps(p, st, source, t.topic, AfterComm(e), LastValue(e), at, topic);
    }
  }

  lemma StaleKeeps(p: Plant, st: State, source: string, t: TagRef, now: int, topic: Topic)
    requires Fits(p, st) && source in p.tags && t.topic in p.cfgs && topic in p.cfgs && Marked(st.evals[topic])
    ensures Keeps(p, st, TagStale(p, st, source, t, now), topic)
  {
    var e := st.evals[t.topic];
    var cfg := p.cfgs[t.topic];
    if BecomesStale(cfg, e, now) {
      Shrinks();
      assert [STALE] + [BAD] == [STALE, BAD];
      PublishKeeps(p, st, source, t.topic, AfterCheck(cfg, e, now), LastValue(e), now, topic);
    } else {
      KeepsNothing(p, st, topic);
    }
  }

  /** The event brings no sample of the topic. */
  ghost predicate Silent(p: Plant, ev: Event, topic: Topic) {
    ev.Readings? && ev.source in p.tags ==>
      forall r <- ev.rs :: var t := Find(p.tags[ev.source], r.tag); t.Some? ==> t.value.topic != topic
  }

  lemma {:induction false} ReadingsKeep(p: Plant, st: State, source: string, rs: seq<EdgeNode.Reading>, n: nat,
      clock: Clock, topic: Topic)
    requires Fits(p, st) && source in p.tags && n <= |rs| && topic in p.cfgs && Marked(st.evals[topic])
    requires Silent(p, Readings(source, rs, clock), topic)
    ensures Keeps(p, st, AfterReadings(p, st, source, rs, n, clock), topic)
  {
    hide Keeps, Marked, Find;
    if n == 0 {
      KeepsNothing(p, st, topic);
    } else {
      var mid := AfterReadings(p, st, source, rs, n - 1, clock);
      var r := rs[n - 1];
      ReadingsKeep(p, st, source, rs, n - 1, clock, topic);
      KeepsMarked(p, st, mid, topic);
      assert r in rs;
      ReadingKeeps(p, mid, source, r, clock.now(n - 1), topic);
      KeepsBoth(p, st, mid, TagReading(p, mid, source, r, clock.now(n - 1)), topic);
    }
  }

  lemma ReadingKeeps(p: Plant, st: State, source: string, r: EdgeNode.Reading, now: int, topic: Topic)
    requires Fits(p, st) && source in p.tags && topic in p.cfgs && Marked(st.evals[topic])
    requires var t := Find(p.tags[source], r.tag); t.Some? ==> t.value.topic != topic
    ensures Keeps(p, st, TagReading(p, st, source, r, now), topic)
  {
    var found := Find(p.tags[source], r.tag);
    if found.None? {
      KeepsNothing(p, st, topic);
    } else {
      FoundIsTag(p.tags[source], r.tag);
      var t := found.value;
      var at := if r.at.Some? then r.at.value else now;
      var value := Apply(t.scale, r.value);
      PublishKeeps(p, st, source, t.topic, AfterObserve(p.cfgs[t.topic], st.evals[t.topic], value, at), Some(value), at,
        topic);
    }
  }

  lemma {:induction false} ErrorsKeep(p: Plant, st: State, source: string, n: nat, clock: Clock, topic: Topic)
    requires Fits(p, st) && source in p.tags && n <= |p.tags[source]| && topic in p.cfgs && Marked(st.evals[topic])
    ensures Keeps(p, st, AfterError(p, st, source, n, clock), topic)
  {
    hide Keeps, Marked;
    if n == 0 {
      KeepsNothing(p, st, topic);
    } else {
      var mid := AfterError(p, st, source, n - 1, clock);
      var t := p.tags[source][n - 1];
      assert t in p.tags[source];
      ErrorsKeep(p, st, source, n - 1, clock, topic);
      KeepsMarked(p, st, mid, topic);
      ErrorKeeps(p, mid, source, t, clock.now(n - 1), topic);
      KeepsBoth(p, st, mid, TagError(p, mid, source, t, clock.now(n - 1)), topic);
    }
  }

  lemma {:induction false} StalesKeep(p: Plant, st: State, source: string, n: nat, now: int, topic: Topic)
    requires Fits(p, st) && source in p.tags && n <= |p.tags[source]| && topic in p.cfgs && Marked(st.evals[topic])
    ensures Keeps(p, st, AfterStale(p, st, source, n, now), topic)
  {
    hide Keeps, Marked;
    if n == 0 {
      KeepsNothing(p, st, topic);
    } else {
      var mid := AfterStale(p, st, source, n - 1, now);
      var t := p.tags[source][n - 1];
      assert t in p.tags[source];
      StalesKeep(p, st, source, n - 1, now, topic);
      KeepsMarked(p, st, mid, topic);
      StaleKeeps(p, mid, source, t, now, topic);
      KeepsBoth(p, st, mid, TagStale(p, mid, source, t, now), topic);
    }
  }

  lemma {:induction false} TickKeeps(p: Plant, st: State, n: nat, now: int, topic: Topic)
    requires Fits(p, st) && n <= |p.order| && topic in p.cfgs && Marked(st.evals[topic])
    ensures Keeps(p, st, AfterTick(p, st, n, now), topic)
  {
    hide Keeps, Marked;
    if n == 0 {
      KeepsNothing(p, st, topic);
    } else {
      var mid := AfterTick(p, st, n - 1, now);
      var s := p.order[n - 1];
      assert s in p.order;
      TickKeeps(p, st, n - 1, now, topic);
      KeepsMarked(p, st, mid, topic);
      StalesKeep(p, mid, s, |p.tags[s]|, now, topic);
      KeepsBoth(p, st, mid, AfterStale(p, mid, s, |p.tags[s]|, now), topic);
    }
  }

  lemma {:induction false} RunKeeps(p: Plant, st: State, evs: seq<Event>, topic: Topic)
    requires Fits(p, st) && topic in p.cfgs && Marked(st.evals[topic])
    requires forall ev <- evs :: Silent(p, ev, topic)
    ensures Keeps(p, st, HandleAll(p, st, evs), topic)
  {
    if evs == [] {
      KeepsNothing(p, st, topic);
    } else {
      var before, ev := evs[..|evs| - 1], evs[|evs| - 1];
      assert ev in evs && forall x <- before :: x in evs;
      RunKeeps(p, st, before, topic);
      var mid := HandleAll(p, st, before);
      match ev {
        case Readings(source, rs, clock) =>
          if source in p.tags {
            ReadingsKeep(p, mid, source, rs, |rs|, clock, topic);
          } else {
            KeepsNothing(p, mid, topic);
          }
        case Failure(source, clock) =>
          if source in p.tags {
            ErrorsKeep(p, mid, source, |p.tags[source]|, clock, topic);
          } else {
            KeepsNothing(p, mid, topic);
          }
        case Tick(now) => TickKeeps(p, mid, |p.order|, now, topic);
      }
      KeepsBoth(p, st, mid, Handle(p, mid, ev), topic);
    }
  }

  lemma {:induction false} SentConcat(a: seq<Outgoing>, b: seq<Outgoing>, topic: Topic)
    ensures Sent(a + b, topic) == Sent(a, topic) + Sent(b, topic)
  {
    if b == [] {
      assert a + b == a;
    } else {
      var init := b[..|b| - 1];
      SentConcat(a, init, topic);
      assert (a + b)[..|a + b| - 1] == a + init;
    }
  }

  /** A common prefix can be taken off. */
  lemma {:induction false} CancelPrefix(a: seq<Quality>, b: seq<Quality>, c: seq<Quality>)
    requires Subsequence(a + b, a + c)
    ensures Subsequence(b, c)
  {
    if a == [] {
      assert a + b == b && a + c == c;
    } else {
      assert (a + b)[1..] == a[1..] + b && (a + c)[1..] == a[1..] + c;
      if !Subsequence(a[1..] + b, a[1..] + c) {
        SuffixSubsequence(a + b, 1);
        SubsequenceTransitive(a[1..] + b, a + b, a[1..] + c);
      }
      CancelPrefix(a[1..], b, c);
    }
  }

  /** Between two samples of a tag, whatever failures and staleness checks happen
      and whatever other tags do, the tag's messages are at most one STALE and
      then at most one BAD; after a reported failure there are none. */
  lemma TransitionsOnly(p: Plant, st: State, evs: seq<Event>, topic: Topic)
    requires Fits(p, st) && topic in p.cfgs && Marked(st.evals[topic])
    requires forall ev <- evs :: Silent(p, ev, topic)
    ensures var st' := HandleAll(p, st, evs);
      st.out <= st'.out && Marked(st'.evals[topic]) &&
      var sent := Sent(st'.out[|st.out|..], topic);
      (sent == [] || sent == [STALE] || sent == [BAD] || sent == [STALE, BAD]) &&
      (st.evals[topic].commDown ==> sent == []) &&
      (st.evals[topic].current.quality == STALE ==> sent == [] || sent == [BAD])
  {
    RunKeeps(p, st, evs, topic);
    hide HandleAll, Fits, Silent, Subsequence, Sent;
    var st' := HandleAll(p, st, evs);
    var more := st'.out[|st.out|..];
    assert st'.out == st.out + more;
    SentConcat(st.out, more, topic);
    SentWithin(Sent(st.out, topic), Sent(more, topic), Allowed(st'.evals[topic]), Allowed(st.evals[topic]));
  }

  lemma SentWithin(was: seq<Quality>, sent: seq<Quality>, left: seq<Quality>, all: seq<Quality>)
    requires Subsequence(was + sent + left, was + all) && (all == [] || all == [BAD] || all == [STALE, BAD])
    ensures sent == [] || sent == [STALE] || sent == [BAD] || sent == [STALE, BAD]
    ensures all == [BAD] ==> sent == [] || sent == [BAD]
    ensures all == [] ==> sent == []
  {
    assert was + (sent + left) == was + sent + left;
    CancelPrefix(was, sent + left, all);
    ShortSubsequence(sent + left, all);
    assert sent == (sent + left)[..|sent|];
    if sent != [] {
      assert sent[0] == (sent + left)[0];
    }
  }

  lemma ShortSubsequence(s: seq<Quality>, all: seq<Quality>)
    requires Subsequence(s, all) && (all == [] || all == [BAD] || all == [STALE, BAD])
    ensures s == [] || s == all || s == [BAD] || s == [STALE]
    ensures all == [BAD] ==> s != [STALE]
    ensures all == [] ==> s == []
  {
    if all == [STALE, BAD] {
      assert all[1..] == [BAD] && [BAD][1..] == [];
      if s != [] {
        assert s == [s[0]] + s[1..];
        if s[1..] != [] {
          assert s[1..] == [s[1]] + s[2..];
        }
      }
    } else if all == [BAD] {
      assert all[1..] == [];
      if s != [] {
        assert s == [s[0]] + s[1..];
      }
    }
  }

  // ----- What one event does to a tag ----------------------------------------------------

  ghost predicate HasTopic(tags: seq<TagRef>, n: nat, topic: Topic)
    requires n <= |tags|
  {
    exists k :: 0 <= k < n && tags[k].topic == topic
  }

  ghost predicate SourceHasTopic(p: Plant, source: string, topic: Topic) {
    source in p.tags && HasTopic(p.tags[source], |p.tags[source]|, topic)
  }

  ghost predicate Polled(p: Plant, n: nat, topic: Topic)
    requires n <= |p.order|
  {
    exists k :: 0 <= k < n && SourceHasTopic(p, p.order[k], topic)
  }

  /** The topic's evaluator and messages from st to st': e now, with these
      qualities sent, if every payload can be marshalled. */
  ghost predicate Effect(p: Plant, st: State, st': State, topic: Topic, e: EvalState, sent: seq<Quality>)
    requires Fits(p, st) && Fits(p, st') && topic in p.cfgs
  {
    st'.evals[topic] == e && ((forall o :: p.marshals(o)) ==> Sent(st'.out, topic) == Sent(st.out, topic) + sent)
  }

  lemma PublishEffect(p: Plant, st: State, source: string, u: Topic, e: EvalState, value: Option<Sample>, at: int,
      topic: Topic)
    requires Fits(p, st) && source in p.tags && u in p.cfgs && topic in p.cfgs
    ensures Effect(p, st, Publish(p, st, source, u, e, value, at), topic,
                   if u == topic then e else st.evals[topic], if u == topic then [e.current.quality] else [])
  {
    SentSnoc(st.out, Outgoing(source, u, e.current, value, at, st.seqs[source]), topic);
  }

  lemma EffectThen(p: Plant, a: State, b: State, c: State, topic: Topic, e: EvalState, first: seq<Quality>,
      e': EvalState, after: seq<Quality>)
    requires Fits(p, a) && Fits(p, b) && Fits(p, c) && topic in p.cfgs
    requires Effect(p, a, b, topic, e, first) && Effect(p, b, c, topic, e', after)
    ensures Effect(p, a, c, topic, e', first + after)
  {
    hide Fits;
    assert Sent(a.out, topic) + (first + after) == Sent(a.out, topic) + first + after;
  }

  lemma EffectEval(p: Plant, a: State, b: State, topic: Topic, e: EvalState, sent: seq<Quality>)
    requires Fits(p, a) && Fits(p, b) && topic in p.cfgs && Effect(p, a, b, topic, e, sent)
    ensures topic in b.evals && b.evals[topic] == e
  {
  }

  lemma NoEffect(p: Plant, st: State, topic: Topic)
    requires Fits(p, st) && topic in p.cfgs
    ensures Effect(p, st, st, topic, st.evals[topic], [])
  {
  }

  function AfterFailure(e: EvalState): EvalState {
    if e.current.quality == BAD then e else AfterComm(e)
  }

  function SentByFailure(e: EvalState): seq<Quality> {
    if e.current.quality == BAD then [] else [BAD]
  }

  function SentByCheck(cfg: Config, e: EvalState, now: int): seq<Quality> {
    if BecomesStale(cfg, e, now) then [STALE] else []
  }

  lemma TagErrorEffect(p: Plant, st: State, source: string, t: TagRef, at: int, topic: Topic)
    requires Fits(p, st) && source in p.tags && t.topic in p.cfgs && topic in p.cfgs
    ensures var e := st.evals[topic];
      Effect(p, st, TagError(p, st, source, t, at), topic,
             if t.topic == topic then AfterFailure(e) else e, if t.topic == topic then SentByFailure(e) else [])
  {
    var e := st.evals[t.topic];
    NoEffect(p, st, topic);
    PublishEffect(p, st, source, t.topic, AfterComm(e), LastValue(e), at, topic);
    hide Effect, Publish;
  }

  lemma TagStaleEffect(p: Plant, st: State, source: string, t: TagRef, now: int, topic: Topic)
    requires Fits(p, st) && source in p.tags && t.topic in p.cfgs && topic in p.cfgs
    ensures var e, cfg := st.evals[topic], p.cfgs[topic];
      Effect(p, st, TagStale(p, st, source, t, now), topic,
             if t.topic == topic then AfterCheck(cfg, e, now) else e,
             if t.topic == topic then SentByCheck(cfg, e, now) else [])
  {
    var e := st.evals[t.topic];
    NoEffect(p, st, topic);
    PublishEffect(p, st, source, t.topic, AfterCheck(p.cfgs[t.topic], e, now), LastValue(e), now, topic);
    hide Effect, Publish;
  }

  lemma HasTopicStep(tags: seq<TagRef>, n: nat, topic: Topic)
    requires 0 < n <= |tags|
    ensures HasTopic(tags, n, topic) <==> HasTopic(tags, n - 1, topic) || tags[n - 1].topic == topic
  {
  }

  /** A failure makes every tag of the source BAD that was not, with one message
      each, and does nothing to the others. */
  lemma {:induction false} ErrorEffect(p: Plant, st: State, source: string, n: nat, clock: Clock, topic: Topic)
    requires Fits(p, st) && source in p.tags && n <= |p.tags[source]| && topic in p.cfgs
    ensures var e, hit := st.evals[topic], HasTopic(p.tags[source], n, topic);
      Effect(p, st, AfterError(p, st, source, n, clock), topic, if hit then AfterFailure(e) else e,
        if hit then SentByFailure(e) else [])
  {
    if n == 0 {
      NoEffect(p, st, topic);
    } else {
      hide Effect, HasTopic, AfterFailure, SentByFailure;
      var mid, t := AfterError(p, st, source, n - 1, clock), p.tags[source][n - 1];
      var at := LastError(p, st, source, n, clock);
      ErrorEffect(p, st, source, n - 1, clock, topic);
      TagErrorEffect(p, mid, source, t, at, topic);
      HasTopicStep(p.tags[source], n, topic);
      hide AfterError, TagError;
      FailureThen(p, st, mid, TagError(p, mid, source, t, at), topic, st.evals[topic],
                  HasTopic(p.tags[source], n - 1, topic), t.topic == topic);
    }
  }

  lemma LastError(p: Plant, st: State, source: string, n: nat, clock: Clock) returns (at: int)
    requires Fits(p, st) && source in p.tags && 0 < n <= |p.tags[source]|
    ensures p.tags[source][n - 1].topic in p.cfgs
    ensures AfterError(p, st, source, n, clock) ==
      TagError(p, AfterError(p, st, source, n - 1, clock), source, p.tags[source][n - 1], at)
  {
    assert p.tags[source][n - 1] in p.tags[source];
    at := clock.now(n - 1);
  }

  lemma FailureThen(p: Plant, a: State, b: State, c: State, topic: Topic, e: EvalState, hit: bool, here: bool)
    requires Fits(p, a) && Fits(p, b) && Fits(p, c) && topic in p.cfgs
    requires Effect(p, a, b, topic, if hit then AfterFailure(e) else e, if hit then SentByFailure(e) else [])
    requires var e1 := b.evals[topic];
      Effect(p, b, c, topic, if here then AfterFailure(e1) else e1, if here then SentByFailure(e1) else [])
    ensures Effect(
      p, a, c, topic, if hit || here then AfterFailure(e) else e, if hit || here then SentByFailure(e) else [])
  {
    FailureTwice(e, hit, here);
    var e1 := if hit then AfterFailure(e) else e;
    EffectEval(p, a, b, topic, e1, if hit then SentByFailure(e) else []);
    hide Effect, AfterFailure, SentByFailure;
    EffectThen(p, a, b, c, topic, e1, if hit then SentByFailure(e) else [],
               if here then AfterFailure(e1) else e1, if here then SentByFailure(e1) else []);
  }

  /** A second failure adds nothing. */
  lemma FailureTwice(e: EvalState, hit: bool, here: bool)
    ensures var e1 := if hit then AfterFailure(e) else e;
      (if here then AfterFailure(e1) else e1) == (if hit || here then AfterFailure(e) else e) &&
      (if hit then SentByFailure(e) else []) + (if here then SentByFailure(e1) else []) ==
        (if hit || here then SentByFailure(e) else [])
  {
  }

  /** A check makes every tag stale that has just become so, with one message. */
  lemma {:induction false} StaleEffect(p: Plant, st: State, source: string, n: nat, now: int, topic: Topic)
    requires Fits(p, st) && source in p.tags && n <= |p.tags[source]| && topic in p.cfgs
    ensures var e, cfg, hit := st.evals[topic], p.cfgs[topic], HasTopic(p.tags[source], n, topic);
      Effect(p, st, AfterStale(p, st, source, n, now), topic,
             if hit then AfterCheck(cfg, e, now) else e, if hit then SentByCheck(cfg, e, now) else [])
  {
    if n == 0 {
      NoEffect(p, st, topic);
    } else {
      hide Effect, TagStale, HasTopic, AfterCheck, SentByCheck;
      var mid, t := AfterStale(p, st, source, n - 1, now), p.tags[source][n - 1];
      assert t in p.tags[source];
      StaleEffect(p, st, source, n - 1, now, topic);
      TagStaleEffect(p, mid, source, t, now, topic);
      CheckThen(p, st, mid, TagStale(p, mid, source, t, now), topic, st.evals[topic], now,
                HasTopic(p.tags[source], n - 1, topic), t.topic == topic);
      HasTopicStep(p.tags[source], n, topic);
    }
  }

  lemma CheckThen(p: Plant, a: State, b: State, c: State, topic: Topic, e: EvalState, now: int, hit: bool, here: bool)
    requires Fits(p, a) && Fits(p, b) && Fits(p, c) && topic in p.cfgs
    requires var cfg := p.cfgs[topic];
      Effect(p, a, b, topic, if hit then AfterCheck(cfg, e, now) else e, if hit then SentByCheck(cfg, e, now) else [])
    requires var e1, cfg := b.evals[topic], p.cfgs[topic];
      Effect(p, b, c, topic, if here then AfterCheck(cfg, e1, now) else e1,
        if here then SentByCheck(cfg, e1, now) else [])
    ensures var cfg := p.cfgs[topic];
      Effect(p, a, c, topic, if hit || here then AfterCheck(cfg, e, now) else e,
        if hit || here then SentByCheck(cfg, e, now) else [])
  {
    var cfg := p.cfgs[topic];
    CheckTwice(cfg, e, now, hit, here);
    var e1 := if hit then AfterCheck(cfg, e, now) else e;
    EffectEval(p, a, b, topic, e1, if hit then SentByCheck(cfg, e, now) else []);
    hide Effect, AfterCheck, SentByCheck;
    EffectThen(p, a, b, c, topic, e1, if hit then SentByCheck(cfg, e, now) else [],
               if here then AfterCheck(cfg, e1, now) else e1, if here then SentByCheck(cfg, e1, now) else []);
  }

  /** A second check at the same time adds nothing. */
  lemma CheckTwice(cfg: Config, e: EvalState, now: int, hit: bool, here: bool)
    ensures var e1 := if hit then AfterCheck(cfg, e, now) else e;
      (if here then AfterCheck(cfg, e1, now) else e1) == (if hit || here then AfterCheck(cfg, e, now) else e) &&
      (if hit then SentByCheck(cfg, e, now) else []) + (if here then SentByCheck(cfg, e1, now) else []) ==
      (if hit || here then SentByCheck(cfg, e, now) else [])
  {
  }

  lemma {:induction false} TickEffect(p: Plant, st: State, n: nat, now: int, topic: Topic)
    requires Fits(p, st) && n <= |p.order| && topic in p.cfgs
    ensures var e, cfg, hit := st.evals[topic], p.cfgs[topic], Polled(p, n, topic);
      Effect(p, st, AfterTick(p, st, n, now), topic,
             if hit then AfterCheck(cfg, e, now) else e, if hit then SentByCheck(cfg, e, now) else [])
  {
    if n == 0 {
      NoEffect(p, st, topic);
    } else {
      hide Effect, AfterStale, HasTopic, AfterCheck, SentByCheck;
      var mid, s := AfterTick(p, st, n - 1, now), p.order[n - 1];
      assert s in p.order;
      TickEffect(p, st, n - 1, now, topic);
      StaleEffect(p, mid, s, |p.tags[s]|, now, topic);
      CheckThen(p, st, mid, AfterStale(p, mid, s, |p.tags[s]|, now), topic, st.evals[topic], now,
                Polled(p, n - 1, topic), SourceHasTopic(p, s, topic));
      assert Polled(p, n, topic) <==> Polled(p, n - 1, topic) || SourceHasTopic(p, s, topic);
    }
  }

  // ----- Histories of the node's tags ------------------------------------------------------

  /** The value in engineering units. */
  function Scaled(scale: Scale, v: Sample): Sample {
    match v
    case NotFinite => NotFinite
    case Finite(raw) =>
      match scale
      case Identity => Finite(raw)
      case Linear(factor, offset) => Finite(factor * raw + offset)
  }

  function SampleCall(t: TagRef, r: EdgeNode.Reading, now: int): Call {
    Call.Observe(Scaled(t.scale, r.value), if r.at.Some? then r.at.value else now)
  }

  /** The samples of a topic among the first n readings. */
  function Samples(p: Plant, source: string, rs: seq<EdgeNode.Reading>, n: nat, clock: Clock, topic: Topic): seq<Call>
    requires source in p.tags && n <= |rs|
  {
    if n == 0 then [] else
    var before, r := Samples(p, source, rs, n - 1, clock, topic), rs[n - 1];
    var t := Find(p.tags[source], r.tag);
    if t.None? || t.value.topic != topic then before else
    before + [SampleCall(t.value, r, clock.now(n - 1))]
  }

  /** The calls an event makes to a topic's evaluator, which had the given calls
      before: failures are passed on only to a tag that is not BAD. */
  ghost function NextCalls(p: Plant, calls: seq<Call>, ev: Event, topic: Topic): seq<Call>
    requires topic in p.cfgs
  {
    match ev
    case Readings(source, rs, clock) =>
      if source in p.tags then calls + Samples(p, source, rs, |rs|, clock, topic) else calls
    case Failure(source, _) =>
      if SourceHasTopic(p, source, topic) && Run(p.cfgs[topic], calls).current.quality != BAD
      then calls + [Comm] else calls
    case Tick(now) => if Polled(p, |p.order|, topic) then calls + [Check(now)] else calls
  }

  ghost function Calls(p: Plant, evs: seq<Event>, topic: Topic): seq<Call>
    requires topic in p.cfgs
  {
    if evs == [] then [] else NextCalls(p, Calls(p, evs[..|evs| - 1], topic), evs[|evs| - 1], topic)
  }

  lemma {:induction false} SamplesObserved(p: Plant, st: State, source: string, rs: seq<EdgeNode.Reading>, n: nat,
      clock: Clock, topic: Topic, calls: seq<Call>)
    requires Fits(p, st) && source in p.tags && n <= |rs| && topic in p.cfgs
    requires st.evals[topic] == Run(p.cfgs[topic], calls)
    ensures AfterReadings(p, st, source, rs, n, clock).evals[topic] ==
            Run(p.cfgs[topic], calls + Samples(p, source, rs, n, clock, topic))
  {
    hide Run, Step, Find, TagReading, SampleCall, InByte, WellFormed;
    if n == 0 {
      assert calls + [] == calls;
    } else {
      SamplesObserved(p, st, source, rs, n - 1, clock, topic, calls);
      var mid := AfterReadings(p, st, source, rs, n - 1, clock);
      var before, r := Samples(p, source, rs, n - 1, clock, topic), rs[n - 1];
      ReadingObserved(p, mid, source, r, clock.now(n - 1), topic);
      var t := Find(p.tags[source], r.tag);
      hide Fits;
      if t.Some? && t.value.topic == topic {
        RunMore(p.cfgs[topic], calls, before, SampleCall(t.value, r, clock.now(n - 1)));
      }
    }
  }

  lemma RunMore(cfg: Config, calls: seq<Call>, more: seq<Call>, c: Call)
    ensures Run(cfg, calls + (more + [c])) == Step(cfg, Run(cfg, calls + more), c)
  {
    RunStep(cfg, calls + more, c);
    assert calls + (more + [c]) == calls + more + [c];
  }

  lemma ReadingObserved(p: Plant, st: State, source: string, r: EdgeNode.Reading, now: int, topic: Topic)
    requires Fits(p, st) && source in p.tags && topic in p.cfgs
    ensures var t := Find(p.tags[source], r.tag);
      TagReading(p, st, source, r, now).evals[topic] ==
      if t.Some? && t.value.topic == topic
      then Step(p.cfgs[topic], st.evals[topic], SampleCall(t.value, r, now)) else st.evals[topic]
  {
    FoundIsTag(p.tags[source], r.tag);
    hide AfterObserve, Apply, Find;
  }

  /** After any run of the node each tag's evaluator is in the state its own
      history of calls puts a fresh one in; what that state is, and what each
      verdict means, follows from the history alone. */
  lemma {:induction false} NodeHistory(p: Plant, evs: seq<Event>, topic: Topic)
    requires WellFormed(p) && topic in p.cfgs
    ensures Fits(p, Boot(p)) && HandleAll(p, Boot(p), evs).evals[topic] == Run(p.cfgs[topic], Calls(p, evs, topic))
  {
    assert Fits(p, Boot(p));
    if evs != [] {
      var before, ev := evs[..|evs| - 1], evs[|evs| - 1];
      NodeHistory(p, before, topic);
      var mid, calls := HandleAll(p, Boot(p), before), Calls(p, before, topic);
      EventHistory(p, mid, ev, topic, calls);
    }
  }

  lemma EventHistory(p: Plant, st: State, ev: Event, topic: Topic, calls: seq<Call>)
    requires Fits(p, st) && topic in p.cfgs && st.evals[topic] == Run(p.cfgs[topic], calls)
    ensures Handle(p, st, ev).evals[topic] == Run(p.cfgs[topic], NextCalls(p, calls, ev, topic))
  {
    match ev {
      case Readings(source, rs, clock) =>
        if source in p.tags { SamplesObserved(p, st, source, rs, |rs|, clock, topic, calls); }
      case Failure(source, clock) =>
        if source in p.tags {
          ErrorEffect(p, st, source, |p.tags[source]|, clock, topic);
          RunStep(p.cfgs[topic], calls, Comm);
        }
      case Tick(now) =>
        TickEffect(p, st, |p.order|, now, topic);
        RunStep(p.cfgs[topic], calls, Check(now));
    }
  }

  /** Every reachable state is marked, so TransitionsOnly applies after any run. */
  lemma {:induction false} RunMarked(cfg: Config, calls: seq<Call>)
    ensures Marked(Run(cfg, calls))
  {
    if calls != [] {
      RunMarked(cfg, calls[..|calls| - 1]);
    }
  }

  // ----- STALE during an outage --------------------------------------------------------------

  /** A tag becomes stale after a failure of its source exactly when its last
      report was a sample that is not a finite number, and old enough: BAD for
      that reason, it does not get the failure passed on. */
  lemma StaleInOutage(cfg: Config, calls: seq<Call>, now: int)
    ensures BecomesStale(cfg, AfterFailure(Run(cfg, calls)), now) <==>
      Points(calls) != [] &&
      exists i: nat :: LastReport(calls, i) && calls[i].Observe? && calls[i].s.NotFinite? &&
        !TimedOut(cfg, calls, i) && cfg.staleAfter > 0 && now - calls[i].at >= cfg.staleAfter
  {
    History(cfg, calls);
    hide Run, Points;
    if i: nat :| LastReport(calls, i) {
      CurrentVerdict(cfg, calls, i);
      forall k: nat | LastReport(calls, k) ensures k == i {
      }
    } else {
      NoReport(calls);
      NothingReported(cfg, calls);
    }
  }

  /** A run in which BAD is replaced by STALE while the source is down. */
  lemma StaleInOutageExample()
    ensures var cfg := Config(5, 0, 5, Everything, 0.0);
      var calls := [Call.Observe(Finite(1.0), 0), Call.Observe(NotFinite, 1)];
      var e := Run(cfg, calls);
      e.current == Bad && AfterFailure(e) == e && AfterCheck(cfg, e, 6).current == Stale
  {
    var cfg := Config(5, 0, 5, Everything, 0.0);
    RunStep(cfg, [], Call.Observe(Finite(1.0), 0));
    RunStep(cfg, [Call.Observe(Finite(1.0), 0)], Call.Observe(NotFinite, 1));
    assert [] + [Call.Observe(Finite(1.0), 0)] == [Call.Observe(Finite(1.0), 0)];
    assert [Call.Observe(Finite(1.0), 0)] + [Call.Observe(NotFinite, 1)] ==
           [Call.Observe(Finite(1.0), 0), Call.Observe(NotFinite, 1)];
  }
}
