/** The edge node: readings and failures of the sources, evaluated per tag and
    published as messages. */
module EdgeNode {
  import opened Messages
  import opened QualityRules

  type Topic = string

  datatype Scale = Identity | Linear(factor: real, offset: real)

  datatype TagRef = TagRef(name: string, topic: Topic, scale: Scale)

  /** One sample from a source; a missing time means now. */
  datatype Reading = Reading(tag: string, value: Sample, at: Option<int>)

  datatype Outgoing = Outgoing(source: string, topic: Topic, verdict: Verdict, value: Option<Sample>, at: int,
    seqNo: nat)

  /** The configured sources in order, the tags of each by ascending name, and the
      rules of each topic; marshals says which payloads can be marshalled. */
  datatype Plant = Plant(order: seq<string>, tags: map<string, seq<TagRef>>, cfgs: map<Topic, Config>,
    marshals: Outgoing -> bool)

  ghost predicate WellFormed(p: Plant) {
    (forall s <- p.order :: s in p.tags) &&
    forall s <- p.tags :: forall t <- p.tags[s] :: t.topic in p.cfgs
  }

  /** What the node keeps, and the messages handed over for publishing so far. */
  datatype State = State(evals: map<Topic, EvalState>, seqs: map<string, nat>, out: seq<Outgoing>)

  ghost predicate Fits(p: Plant, st: State) {
    WellFormed(p) && st.evals.Keys == p.cfgs.Keys && st.seqs.Keys == p.tags.Keys && InByte(st.seqs)
  }

  ghost predicate InByte(seqs: map<string, nat>) {
    forall s <- seqs :: seqs[s] < 256
  }

  /** The node before its first callback. */
  function Boot(p: Plant): State {
    State(map t | t in p.cfgs :: Initial, map s | s in p.tags :: 0, [])
  }

  function Apply(scale: Scale, v: Sample): Sample {
    if scale.Linear? && v.Finite? then Finite(scale.factor * v.v + scale.offset) else v
  }

  /** The tag called name, if the source has one. */
  function Find(tags: seq<TagRef>, name: string): (r: Option<TagRef>)
    ensures r.None? ==> forall t <- tags :: t.name != name
    ensures r.Some? ==>
      exists k :: 0 <= k < |tags| && tags[k] == r.value && r.value.name == name &&
        forall j :: 0 <= j < k ==> tags[j].name != name
  {
    if tags == [] then None else if tags[0].name == name then Some(tags[0]) else Find(tags[1..], name)
  }

  lemma {:induction false} FoundIsTag(tags: seq<TagRef>, name: string)
    ensures Find(tags, name).Some? ==> Find(tags, name).value in tags
  {
    if tags != [] {
      FoundIsTag(tags[1..], name);
    }
  }

  function LastValue(e: EvalState): Option<Sample> {
    if e.seen then Some(Finite(e.last)) else None
  }

  /** A verdict for a tag: the sequence number is used up even when the payload
      cannot be marshalled. */
  function Publish(p: Plant, st: State, source: string, topic: Topic, e: EvalState, value: Option<Sample>,
      at: int): (r: State)
    requires Fits(p, st) && source in p.tags && topic in p.cfgs
    ensures Fits(p, r)
  {
    var o := Outgoing(source, topic, e.current, value, at, st.seqs[source]);
    State(st.evals[topic := e], st.seqs[source := (st.seqs[source] + 1) % 256],
          if p.marshals(o) then st.out + [o] else st.out)
  }

  function TagReading(p: Plant, st: State, source: string, r: Reading, now: int): (st': State)
    requires Fits(p, st) && source in p.tags
    ensures Fits(p, st')
  {
    var found := Find(p.tags[source], r.tag);
    if found.None? then st else
    FoundIsTag(p.tags[source], r.tag);
    var t := found.value;
    var at := if r.at.Some? then r.at.value else now;
    var value := Apply(t.scale, r.value);
    Publish(p, st, source, t.topic, AfterObserve(p.cfgs[t.topic], st.evals[t.topic], value, at), Some(value), at)
  }

  function TagError(p: Plant, st: State, source: string, t: TagRef, at: int): (st': State)
    requires Fits(p, st) && source in p.tags && t.topic in p.cfgs
    ensures Fits(p, st')
  {
    var e := st.evals[t.topic];
    if e.current.quality == BAD then st
    else Publish(p, st, source, t.topic, AfterComm(e), LastValue(e), at)
  }

  function TagStale(p: Plant, st: State, source: string, t: TagRef, now: int): (st': State)
    requires Fits(p, st) && source in p.tags && t.topic in p.cfgs
    ensures Fits(p, st')
  {
    var e := st.evals[t.topic];
    var cfg := p.cfgs[t.topic];
    if !BecomesStale(cfg, e, now) then st
    else Publish(p, st, source, t.topic, AfterCheck(cfg, e, now), LastValue(e), now)
  }

  // ----- The three callbacks, over the first n tags or readings ------------------------

  /** A clock: what now returns at each tag. */
  datatype Clock = Clock(now: nat -> int)

  function AfterReadings(p: Plant, st: State, source: string, rs: seq<Reading>, n: nat, clock: Clock): (st': State)
    requires Fits(p, st) && source in p.tags && n <= |rs|
    ensures Fits(p, st')
  {
    if n == 0 then st else
    TagReading(p, AfterReadings(p, st, source, rs, n - 1, clock), source, rs[n - 1], clock.now(n - 1))
  }

  function AfterError(p: Plant, st: State, source: string, n: nat, clock: Clock): (st': State)
    requires Fits(p, st) && source in p.tags && n <= |p.tags[source]|
    ensures Fits(p, st')
  {
    if n == 0 then st else
    var t := p.tags[source][n - 1];
    assert t in p.tags[source];
    TagError(p, AfterError(p, st, source, n - 1, clock), source, t, clock.now(n - 1))
  }

  function AfterStale(p: Plant, st: State, source: string, n: nat, now: int): (st': State)
    requires Fits(p, st) && source in p.tags && n <= |p.tags[source]|
    ensures Fits(p, st')
  {
    if n == 0 then st else
    var t := p.tags[source][n - 1];
    assert t in p.tags[source];
    TagStale(p, AfterStale(p, st, source, n - 1, now), source, t, now)
  }

  function AfterTick(p: Plant, st: State, n: nat, now: int): (st': State)
    requires Fits(p, st) && n <= |p.order|
    ensures Fits(p, st')
  {
    if n == 0 then st else
    var s := p.order[n - 1];
    assert s in p.order;
    AfterStale(p, AfterTick(p, st, n - 1, now), s, |p.tags[s]|, now)
  }

  /** A fresh evaluator for every topic. */
  method NewEvaluators(cfgs: map<Topic, Config>) returns (es: map<Topic, Evaluator>)
    ensures es.Keys == cfgs.Keys
    ensures forall t <- es :: fresh(es[t]) && es[t].cfg == Effective(cfgs[t]) && es[t].State() == Initial
    ensures forall t <- es, u <- es :: t != u ==> es[t] != es[u]
  {
    hide Effective;
    es := map[];
    var todo := cfgs.Keys;
    while todo != {}
      invariant todo <= cfgs.Keys && es.Keys == cfgs.Keys - todo
      invariant forall t <- es :: fresh(es[t]) && es[t].cfg == Effective(cfgs[t]) && es[t].State() == Initial
      invariant forall t <- es, u <- es :: t != u ==> es[t] != es[u]
      decreases |todo|
    {
      var t :| t in todo;
      var ev := new Evaluator(cfgs[t]);
      assert forall u <- es :: es[u] != ev;
      es := es[t := ev];
      todo := todo - {t};
    }
  }

  /** The node: one evaluator object per topic, updated in place. */
  class Node {
    const plant: Plant
    const evals: map<Topic, Evaluator>
    var seqs: map<string, nat>
    var out: seq<Outgoing>

    /** Every topic has an evaluator with its rules, and no two share one. */
    ghost predicate Wired() {
      WellFormed(plant) && evals.Keys == plant.cfgs.Keys &&
      (forall t <- evals :: evals[t].cfg == plant.cfgs[t]) &&
      forall t <- evals, u <- evals :: t != u ==> evals[t] != evals[u]
    }

    ghost predicate Valid()
      reads this
    {
      Wired() && seqs.Keys == plant.tags.Keys && InByte(seqs)
    }

    ghost function States(): (m: map<Topic, EvalState>)
      reads evals.Values
      ensures m.Keys == evals.Keys
    {
      map t | t in evals :: evals[t].State()
    }

    ghost function View(): (st: State)
      reads this, evals.Values
      requires Valid()
      ensures Fits(plant, st)
    {
      State(States(), seqs, out)
    }

    twostate lemma OneChanged(topic: Topic)
      requires topic in evals
      requires forall t <- evals :: t != topic ==> evals[t].State() == old(evals[t].State())
      ensures States() == old(States())[topic := evals[topic].State()]
    {
    }

    /** New: a fresh evaluator for every topic. */
    constructor (plant: Plant)
      requires WellFormed(plant) && forall t <- plant.cfgs :: plant.cfgs[t] == Effective(plant.cfgs[t])
      ensures this.plant == plant && Valid() && View() == Boot(plant)
      ensures forall t <- evals :: fresh(evals[t])
    {
      var es := NewEvaluators(plant.cfgs);
      this.plant, evals, seqs, out := plant, es, map s | s in plant.tags :: 0, [];
    }

    /** Number and hand over a message, if it can be marshalled. */
    method Hand(source: string, topic: Topic, verdict: Verdict, value: Option<Sample>, at: int)
      requires source in seqs
      modifies this
      ensures seqs == old(seqs[source := (seqs[source] + 1) % 256]) && (old(InByte(seqs)) ==> InByte(seqs))
      ensures var o := Outgoing(source, topic, verdict, value, at, old(seqs[source]));
        out == if plant.marshals(o) then old(out) + [o] else old(out)
    {
      var o := Outgoing(source, topic, verdict, value, at, seqs[source]);
      seqs := seqs[source := (seqs[source] + 1) % 256];
      if plant.marshals(o) {
        out := out + [o];
      }
    }

    /** One reading: of a known tag, evaluate and publish it. */
    method Observe(source: string, r: Reading, now: int)
      requires Valid() && source in plant.tags
      modifies this, evals.Values
      ensures Valid() && View() == TagReading(plant, old(View()), source, r, now)
    {
      hide AfterObserve, Apply, Find, InByte;
      var found := Find(plant.tags[source], r.tag);
      if found.None? {
        return;
      }
      FoundIsTag(plant.tags[source], r.tag);
      var t := found.value;
      var at := if r.at.Some? then r.at.value else now;
      var value := Apply(t.scale, r.value);
      var ev := evals[t.topic];
      var verdict := ev.Observe(value, at);
      OneChanged(t.topic);
      hide Wired, States;
      label observed:
      Hand(source, t.topic, verdict, Some(value), at);
      assert States() == old@observed(States());
    }

    method Flag(source: string, t: TagRef, at: int)
      requires Valid() && source in plant.tags && t.topic in plant.cfgs
      modifies this, evals.Values
      ensures Valid() && View() == TagError(plant, old(View()), source, t, at)
    {
      hide InByte;
      var ev := evals[t.topic];
      if ev.current.quality == BAD {
        return;
      }
      var verdict := ev.Comm();
      OneChanged(t.topic);
      hide Wired, States;
      label flagged:
      Hand(source, t.topic, verdict, if ev.seen then Some(Finite(ev.last)) else None, at);
      assert States() == old@flagged(States());
    }

    method CheckTag(source: string, t: TagRef, now: int)
      requires Valid() && source in plant.tags && t.topic in plant.cfgs
      modifies this, evals.Values
      ensures Valid() && View() == TagStale(plant, old(View()), source, t, now)
    {
      hide InByte;
      var ev := evals[t.topic];
      var verdict, changed := ev.Check(now);
      OneChanged(t.topic);
      hide Wired, States, BecomesStale;
      if !changed {
        assert old(States())[t.topic := old(ev.State())] == old(States());
        return;
      }
      label checked:
      Hand(source, t.topic, verdict, if ev.seen then Some(Finite(ev.last)) else None, now);
      assert States() == old@checked(States());
    }

    /** OnReadings: evaluate and publish every reading of a known tag. */
    method OnReadings(source: string, rs: seq<Reading>, clock: Clock)
      requires Valid()
      modifies this, evals.Values
      ensures Valid()
      ensures View() ==
        if source in plant.tags then AfterReadings(plant, old(View()), source, rs, |rs|, clock) else old(View())
    {
      hide Wired, TagReading;
      if source !in plant.tags {
        return;
      }
      for n := 0 to |rs|
        invariant Valid() && View() == AfterReadings(plant, old(View()), source, rs, n, clock)
      {
        Observe(source, rs[n], clock.now(n));
      }
    }

    /** OnError: flag every tag of the source that is not BAD already. */
    method OnError(source: string, clock: Clock)
      requires Valid()
      modifies this, evals.Values
      ensures Valid()
      ensures View() ==
        if source in plant.tags then AfterError(plant, old(View()), source, |plant.tags[source]|, clock)
        else old(View())
    {
      if source !in plant.tags {
        return;
      }
      var tags := plant.tags[source];
      assert forall t <- tags :: t.topic in plant.cfgs;
      hide Wired, TagError;
      for n := 0 to |tags|
        invariant Valid() && View() == AfterError(plant, old(View()), source, n, clock)
      {
        assert tags[n] in tags;
        Flag(source, tags[n], clock.now(n));
      }
    }

    /** checkStale: publish the tags that have just become stale. */
    method CheckStale(now: int)
      requires Valid()
      modifies this, evals.Values
      ensures Valid() && View() == AfterTick(plant, old(View()), |plant.order|, now)
    {
      assert forall s <- plant.order :: s in plant.tags;
      hide Wired, AfterStale;
      for n := 0 to |plant.order|
        invariant Valid() && View() == AfterTick(plant, old(View()), n, now)
      {
        assert plant.order[n] in plant.order;
        CheckSource(plant.order[n], now);
      }
    }

    method CheckSource(source: string, now: int)
      requires Valid() && source in plant.tags
      modifies this, evals.Values
      ensures Valid() && View() == AfterStale(plant, old(View()), source, |plant.tags[source]|, now)
    {
      var tags := plant.tags[source];
      assert forall t <- tags :: t.topic in plant.cfgs;
      hide Wired, TagStale;
      for n := 0 to |tags|
        invariant Valid() && View() == AfterStale(plant, old(View()), source, n, now)
      {
        assert tags[n] in tags;
        CheckTag(source, tags[n], now);
      }
    }
  }
}
