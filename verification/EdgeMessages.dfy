/** What the node hands over, message by message: one for every reading of a known
    tag, every tag a failure makes BAD and every tag that becomes stale, with what
    is in it and how it is numbered. */
module EdgeMessages {
  import opened Messages
  import opened QualityRules
  import opened EdgeNode
  import opened EdgeTheorems

  /** The messages whose payload can be marshalled. */
  function Marshalled(marshals: Outgoing -> bool, offered: seq<Outgoing>): seq<Outgoing> {
    if offered == [] then [] else
    var o := offered[|offered| - 1];
    Marshalled(marshals, offered[..|offered| - 1]) + if marshals(o) then [o] else []
  }

  /** From st to st' these messages of a source were offered: they are numbered on
      from the source's number, modulo 256, and those that can be marshalled join
      the output in order. The others use up their numbers all the same. */
  ghost predicate HandedOver(p: Plant, st: State, st': State, source: string, offered: seq<Outgoing>)
    requires Fits(p, st) && Fits(p, st') && source in p.tags
  {
    (forall j :: 0 <= j < |offered| ==>
      offered[j].source == source && offered[j].seqNo == (st.seqs[source] + j) % 256) &&
    st'.out == st.out + Marshalled(p.marshals, offered) &&
    st'.seqs == st.seqs[source := (st.seqs[source] + |offered|) % 256]
  }

  /** When everything can be marshalled, nothing is missing. */
  lemma {:induction false} MarshalledAll(marshals: Outgoing -> bool, offered: seq<Outgoing>)
    requires forall o <- offered :: marshals(o)
    ensures Marshalled(marshals, offered) == offered
  {
    if offered != [] {
      var init, o := offered[..|offered| - 1], offered[|offered| - 1];
      assert o in offered && forall x <- init :: x in offered;
      MarshalledAll(marshals, init);
      assert offered == init + [o];
    }
  }

  lemma HandedNothing(p: Plant, st: State, source: string)
    requires Fits(p, st) && source in p.tags
    ensures HandedOver(p, st, st, source, [])
  {
    assert st.seqs[source := (st.seqs[source] + 0) % 256] == st.seqs;
  }

  /** One more message. */
  lemma HandedMore(p: Plant, st: State, mid: State, source: string, offered: seq<Outgoing>, topic: Topic,
      e: EvalState, value: Option<Sample>, at: int)
    requires Fits(p, st) && Fits(p, mid) && source in p.tags && topic in p.cfgs
    requires HandedOver(p, st, mid, source, offered)
    ensures var o := Outgoing(source, topic, e.current, value, at, (st.seqs[source] + |offered|) % 256);
      HandedOver(p, st, Publish(p, mid, source, topic, e, value, at), source, offered + [o])
  {
    var n := st.seqs[source] + |offered|;
    var o := Outgoing(source, topic, e.current, value, at, n % 256);
    NextNumber(n);
    MarshalledMore(p.marshals, st.out, offered, o);
    var next := Publish(p, mid, source, topic, e, value, at);
    assert next.out == st.out + Marshalled(p.marshals, offered + [o]);
    assert next.seqs == st.seqs[source := (n + 1) % 256];
    hide Marshalled, Publish, Fits;
  }

  lemma NextNumber(n: nat)
    ensures (n % 256 + 1) % 256 == (n + 1) % 256
  {
  }

  lemma MarshalledMore(marshals: Outgoing -> bool, before: seq<Outgoing>, offered: seq<Outgoing>, o: Outgoing)
    ensures before + Marshalled(marshals, offered + [o]) ==
      if marshals(o) then before + Marshalled(marshals, offered) + [o] else before + Marshalled(marshals, offered)
  {
    assert (offered + [o])[..|offered|] == offered;
  }

  /** t is the tag of that name, the first if there are several. */
  ghost predicate IsTag(tags: seq<TagRef>, name: string, t: TagRef) {
    exists k :: 0 <= k < |tags| && tags[k] == t && t.name == name && forall j :: 0 <= j < k ==> tags[j].name != name
  }

  lemma FindsTag(tags: seq<TagRef>, name: string)
    ensures Find(tags, name).Some? <==> exists t <- tags :: t.name == name
    ensures Find(tags, name).Some? ==> IsTag(tags, name, Find(tags, name).value) && Find(tags, name).value in tags
  {
    hide Find;
  }

  /** Each topic's evaluator is where these calls put a fresh one. */
  ghost predicate Followed(p: Plant, st: State, hist: map<Topic, seq<Call>>)
    requires Fits(p, st)
  {
    hist.Keys == p.cfgs.Keys && forall t <- p.cfgs :: st.evals[t] == Run(p.cfgs[t], hist[t])
  }

  // ----- Readings -----------------------------------------------------------------------

  /** What a reading of tag t at `now` publishes: the scaled value, the time of the
      reading or else now, and the verdict the rules give that sample after the
      samples before. */
  ghost predicate IsSample(p: Plant, t: TagRef, r: EdgeNode.Reading, now: int, before: seq<Point>, o: Outgoing)
    requires t.topic in p.cfgs
  {
    var at := if r.at.Some? then r.at.value else now;
    var value := Scaled(t.scale, r.value);
    o.topic == t.topic && o.at == at && o.value == Some(value) && Rules(p.cfgs[t.topic], before, value, at, o.verdict)
  }

  /** One message for each of the first n readings that name a tag of the source,
      in order. */
  ghost predicate Samplings(p: Plant, source: string, rs: seq<EdgeNode.Reading>, n: nat, clock: Clock,
      hist: map<Topic, seq<Call>>, offered: seq<Outgoing>)
    requires WellFormed(p) && source in p.tags && n <= |rs| && hist.Keys == p.cfgs.Keys
  {
    if n == 0 then offered == [] else
    var r := rs[n - 1];
    if forall t <- p.tags[source] :: t.name != r.tag then Samplings(p, source, rs, n - 1, clock, hist, offered)
    else
      offered != [] && Samplings(p, source, rs, n - 1, clock, hist, offered[..|offered| - 1]) &&
      exists t <- p.tags[source] ::
        IsTag(p.tags[source], r.tag, t) &&
        var before := Points(hist[t.topic] + Samples(p, source, rs, n - 1, clock, t.topic));
        IsSample(p, t, r, clock.now(n - 1), before, offered[|offered| - 1])
  }

  /** OnReadings publishes every reading of a known tag, whatever its verdict. */
  lemma {:induction false} ReadingsPublished(p: Plant, st: State, source: string, rs: seq<EdgeNode.Reading>, n: nat,
      clock: Clock, hist: map<Topic, seq<Call>>) returns (offered: seq<Outgoing>)
    requires Fits(p, st) && source in p.tags && n <= |rs| && Followed(p, st, hist)
    ensures Samplings(p, source, rs, n, clock, hist, offered)
    ensures HandedOver(p, st, AfterReadings(p, st, source, rs, n, clock), source, offered)
  {
    hide HandedOver, Followed, Find, IsTag, IsSample, Run, Points, Samples;
    if n == 0 {
      offered := [];
      HandedNothing(p, st, source);
    } else {
      offered := ReadingsPublished(p, st, source, rs, n - 1, clock, hist);
      var mid, r := AfterReadings(p, st, source, rs, n - 1, clock), rs[n - 1];
      FindsTag(p.tags[source], r.tag);
      var found := Find(p.tags[source], r.tag);
      if found.Some? {
        var t, init := found.value, offered;
        var calls := CallsSoFar(p, st, source, rs, n - 1, clock, hist, t.topic);
        var o := ReadingPublished(p, st, mid, source, t, r, clock.now(n - 1), calls, init);
        offered := init + [o];
        assert offered[..|init|] == init;
      }
    }
  }

  lemma CallsSoFar(p: Plant, st: State, source: string, rs: seq<EdgeNode.Reading>, n: nat, clock: Clock,
      hist: map<Topic, seq<Call>>, topic: Topic) returns (calls: seq<Call>)
    requires Fits(p, st) && source in p.tags && n <= |rs| && Followed(p, st, hist) && topic in p.cfgs
    ensures topic in hist && calls == hist[topic] + Samples(p, source, rs, n, clock, topic)
    ensures AfterReadings(p, st, source, rs, n, clock).evals[topic] == Run(p.cfgs[topic], calls)
  {
    SamplesObserved(p, st, source, rs, n, clock, topic, hist[topic]);
    calls := hist[topic] + Samples(p, source, rs, n, clock, topic);
  }

  lemma ReadingPublished(p: Plant, st: State, mid: State, source: string, t: TagRef, r: EdgeNode.Reading, now: int,
      calls: seq<Call>, offered: seq<Outgoing>) returns (o: Outgoing)
    requires Fits(p, st) && Fits(p, mid) && source in p.tags && HandedOver(p, st, mid, source, offered)
    requires Find(p.tags[source], r.tag) == Some(t) && t in p.tags[source]
    requires t.topic in p.cfgs && mid.evals[t.topic] == Run(p.cfgs[t.topic], calls)
    ensures IsSample(p, t, r, now, Points(calls), o)
    ensures HandedOver(p, st, TagReading(p, mid, source, r, now), source, offered + [o])
  {
    var value := Apply(t.scale, r.value);
    var at := if r.at.Some? then r.at.value else now;
    var e := AfterObserve(p.cfgs[t.topic], mid.evals[t.topic], value, at);
    o := Outgoing(source, t.topic, e.current, Some(value), at, (st.seqs[source] + |offered|) % 256);
    SampleMessage(p, mid, t, r, now, calls, o);
    HandedMore(p, st, mid, source, offered, t.topic, e, Some(value), at);
    ReadingIs(p, mid, source, t, r, now);
    hide HandedOver, Publish, Find, Run, Points, IsSample, TagReading, Apply, AfterObserve;
  }

  lemma SampleMessage(p: Plant, mid: State, t: TagRef, r: EdgeNode.Reading, now: int, calls: seq<Call>, o: Outgoing)
    requires Fits(p, mid) && t.topic in p.cfgs && mid.evals[t.topic] == Run(p.cfgs[t.topic], calls)
    requires var value, at := Apply(t.scale, r.value), if r.at.Some? then r.at.value else now;
      o.topic == t.topic && o.at == at && o.value == Some(value) &&
      o.verdict == AfterObserve(p.cfgs[t.topic], mid.evals[t.topic], value, at).current
    ensures IsSample(p, t, r, now, Points(calls), o)
  {
    var value, at := Apply(t.scale, r.value), if r.at.Some? then r.at.value else now;
    ObserveVerdict(p.cfgs[t.topic], calls, value, at);
    ApplyScales(t.scale, r.value);
    hide Run, Points, AfterObserve, Apply, Scaled, Rules;
  }

  lemma ApplyScales(scale: Scale, v: Sample)
    ensures Apply(scale, v) == Scaled(scale, v)
  {
  }

  lemma ReadingIs(p: Plant, mid: State, source: string, t: TagRef, r: EdgeNode.Reading, now: int)
    requires Fits(p, mid) && source in p.tags && t.topic in p.cfgs && Find(p.tags[source], r.tag) == Some(t)
    ensures var value, at := Apply(t.scale, r.value), if r.at.Some? then r.at.value else now;
      TagReading(p, mid, source, r, now) ==
      Publish(p, mid, source, t.topic, AfterObserve(p.cfgs[t.topic], mid.evals[t.topic], value, at), Some(value), at)
  {
    hide Publish, Find, Apply, AfterObserve;
  }

  // ----- Failures and staleness ------------------------------------------------------------

  /** The latest finite value, if there was one. */
  function Latest(calls: seq<Call>): Option<Sample> {
    var ps := Points(calls);
    if ps == [] then None else Some(Finite(ps[|ps| - 1].v))
  }

  lemma LatestKept(cfg: Config, calls: seq<Call>)
    ensures LastValue(Run(cfg, calls)) == Latest(calls)
  {
    History(cfg, calls);
    hide Run, Points, Longest;
  }

  /** The messages of a failure: one for each of the first n tags whose topic was
      not BAD and has not had one already, with the latest value. */
  ghost predicate Failures(p: Plant, source: string, n: nat, clock: Clock, hist: map<Topic, seq<Call>>,
      offered: seq<Outgoing>)
    requires WellFormed(p) && source in p.tags && n <= |p.tags[source]| && hist.Keys == p.cfgs.Keys
  {
    if n == 0 then offered == [] else
    var t := p.tags[source][n - 1];
    assert t in p.tags[source];
    if Run(p.cfgs[t.topic], hist[t.topic]).current.quality == BAD || HasTopic(p.tags[source], n - 1, t.topic) then
      Failures(p, source, n - 1, clock, hist, offered)
    else
      offered != [] && Failures(p, source, n - 1, clock, hist, offered[..|offered| - 1]) &&
      var o := offered[|offered| - 1];
      o.topic == t.topic && o.verdict == Verdict(BAD, CommRule) && o.value == Latest(hist[t.topic]) &&
      o.at == clock.now(n - 1)
  }

  lemma {:induction false} FailurePublished(p: Plant, st: State, source: string, n: nat, clock: Clock,
      hist: map<Topic, seq<Call>>) returns (offered: seq<Outgoing>)
    requires Fits(p, st) && source in p.tags && n <= |p.tags[source]| && Followed(p, st, hist)
    ensures Failures(p, source, n, clock, hist, offered)
    ensures HandedOver(p, st, AfterError(p, st, source, n, clock), source, offered)
  {
    hide HandedOver, Run, HasTopic, Latest, Publish;
    if n == 0 {
      offered := [];
      HandedNothing(p, st, source);
    } else {
      offered := FailurePublished(p, st, source, n - 1, clock, hist);
      var t, at := p.tags[source][n - 1], clock.now(n - 1);
      assert t in p.tags[source];
      var mid := AfterError(p, st, source, n - 1, clock);
      ErrorEffect(p, st, source, n - 1, clock, t.topic);
      LatestKept(p.cfgs[t.topic], hist[t.topic]);
      EffectSeen(p, st, mid, t.topic, HasTopic(p.tags[source], n - 1, t.topic));
      var e, init := mid.evals[t.topic], offered;
      if e.current.quality != BAD {
        HandedMore(p, st, mid, source, init, t.topic, AfterComm(e), LastValue(e), at);
        var o := Outgoing(source, t.topic, Bad, LastValue(e), at, (st.seqs[source] + |init|) % 256);
        offered := init + [o];
        assert offered[..|init|] == init;
      }
    }
  }

  lemma EffectSeen(p: Plant, st: State, mid: State, topic: Topic, hit: bool)
    requires Fits(p, st) && Fits(p, mid) && topic in p.cfgs
    requires var e := st.evals[topic];
      Effect(p, st, mid, topic, if hit then AfterFailure(e) else e, if hit then SentByFailure(e) else [])
    ensures var e, e' := st.evals[topic], mid.evals[topic];
      (e'.current.quality == BAD <==> e.current.quality == BAD || hit) && LastValue(e') == LastValue(e)
  {
  }

  /** The messages of a check: one for each of the first n tags whose topic has
      just become stale and has not had one already, with the latest value. */
  ghost predicate Timeouts(p: Plant, source: string, n: nat, now: int, hist: map<Topic, seq<Call>>,
      offered: seq<Outgoing>)
    requires WellFormed(p) && source in p.tags && n <= |p.tags[source]| && hist.Keys == p.cfgs.Keys
  {
    if n == 0 then offered == [] else
    var t := p.tags[source][n - 1];
    assert t in p.tags[source];
    if !BecomesStale(p.cfgs[t.topic], Run(p.cfgs[t.topic], hist[t.topic]), now) ||
       HasTopic(p.tags[source], n - 1, t.topic)
    then Timeouts(p, source, n - 1, now, hist, offered)
    else
      offered != [] && Timeouts(p, source, n - 1, now, hist, offered[..|offered| - 1]) &&
      var o := offered[|offered| - 1];
      o.topic == t.topic && o.verdict == Verdict(STALE, StaleRule) && o.value == Latest(hist[t.topic]) && o.at == now
  }

  lemma {:induction false} StalePublished(p: Plant, st: State, source: string, n: nat, now: int,
      hist: map<Topic, seq<Call>>) returns (offered: seq<Outgoing>)
    requires Fits(p, st) && source in p.tags && n <= |p.tags[source]| && Followed(p, st, hist)
    ensures Timeouts(p, source, n, now, hist, offered)
    ensures HandedOver(p, st, AfterStale(p, st, source, n, now), source, offered)
  {
    hide HandedOver, Run, HasTopic, Latest, Publish, BecomesStale;
    if n == 0 {
      offered := [];
      HandedNothing(p, st, source);
    } else {
      offered := StalePublished(p, st, source, n - 1, now, hist);
      var t := p.tags[source][n - 1];
      assert t in p.tags[source];
      var mid, cfg := AfterStale(p, st, source, n - 1, now), p.cfgs[t.topic];
      StaleEffect(p, st, source, n - 1, now, t.topic);
      LatestKept(cfg, hist[t.topic]);
      CheckSeen(p, st, mid, t.topic, now, HasTopic(p.tags[source], n - 1, t.topic));
      var e, init := mid.evals[t.topic], offered;
      if BecomesStale(cfg, e, now) {
        HandedMore(p, st, mid, source, init, t.topic, AfterCheck(cfg, e, now), LastValue(e), now);
        var o := Outgoing(source, t.topic, Stale, LastValue(e), now, (st.seqs[source] + |init|) % 256);
        offered := init + [o];
        assert offered[..|init|] == init;
      }
    }
  }

  lemma CheckSeen(p: Plant, st: State, mid: State, topic: Topic, now: int, hit: bool)
    requires Fits(p, st) && Fits(p, mid) && topic in p.cfgs
    requires var e, cfg := st.evals[topic], p.cfgs[topic];
      Effect(p, st, mid, topic, if hit then AfterCheck(cfg, e, now) else e,
        if hit then SentByCheck(cfg, e, now) else [])
    ensures var e, e', cfg := st.evals[topic], mid.evals[topic], p.cfgs[topic];
      (BecomesStale(cfg, e', now) <==> BecomesStale(cfg, e, now) && !hit) && LastValue(e') == LastValue(e)
  {
  }

  /** After any run of the node its evaluators have followed the calls of
      NodeHistory, so the three laws apply to every state it reaches. */
  lemma RunFollowed(p: Plant, evs: seq<Event>) returns (hist: map<Topic, seq<Call>>)
    requires WellFormed(p)
    ensures Fits(p, Boot(p)) && Followed(p, HandleAll(p, Boot(p), evs), hist)
    ensures hist == map t | t in p.cfgs :: Calls(p, evs, t)
  {
    hist := map t | t in p.cfgs :: Calls(p, evs, t);
    forall t | t in p.cfgs
      ensures Fits(p, Boot(p)) && HandleAll(p, Boot(p), evs).evals[t] == Run(p.cfgs[t], hist[t])
    {
      NodeHistory(p, evs, t);
    }
  }
}
