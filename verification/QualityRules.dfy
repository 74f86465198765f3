/** Deterministic data-quality rules for one tag: communication failure,
    out-of-range, flatline and staleness. */
module QualityRules {

  datatype Sample = Finite(v: real) | NotFinite

  datatype Quality = GOOD | BAD | OUT_OF_RANGE | FLATLINE | STALE

  datatype Rule = CommRule | RangeRule | FlatlineRule | StaleRule | GoodRule

  datatype Verdict = Verdict(quality: Quality, rule: Rule)

  const Good := Verdict(GOOD, GoodRule)
  const Bad := Verdict(BAD, CommRule)
  const OutOfRange := Verdict(OUT_OF_RANGE, RangeRule)
  const Flat := Verdict(FLATLINE, FlatlineRule)
  const Stale := Verdict(STALE, StaleRule)

  datatype Range = Everything | Within(min: real, max: real)

  /** Durations that are not positive switch a rule off. */
  datatype Config = Config(staleAfter: int, flatlineAfter: int, flatlineMinSamples: int, range: Range, epsilon: real)

  /** New: at least one sample must be required; the default is five. */
  function Effective(cfg: Config): (r: Config)
    ensures r.flatlineMinSamples > 0
  {
    if cfg.flatlineMinSamples <= 0 then cfg.(flatlineMinSamples := 5) else cfg
  }

  datatype EvalState = EvalState(
    seen: bool, last: real, lastAt: int, lastChange: int, steady: nat, current: Verdict, commDown: bool)

  const Initial := EvalState(false, 0.0, 0, 0, 0, Good, false)

  function Distance(a: real, b: real): real {
    if a >= b then a - b else b - a
  }

  predicate InRange(range: Range, v: real) {
    range.Within? ==> range.min <= v <= range.max
  }

  function AfterObserve(cfg: Config, e: EvalState, s: Sample, at: int): EvalState {
    if s.NotFinite? then e.(lastAt := at, commDown := false, current := Bad) else
    var same := e.seen && Distance(s.v, e.last) <= cfg.epsilon;
    var steady := if same then e.steady + 1 else 1;
    var lastChange := if same then e.lastChange else at;
    var verdict :=
      if !InRange(cfg.range, s.v) then OutOfRange
      else if cfg.flatlineAfter > 0 && steady >= cfg.flatlineMinSamples && at - lastChange >= cfg.flatlineAfter
      then Flat
      else Good;
    EvalState(true, s.v, at, lastChange, steady, verdict, false)
  }

  function AfterComm(e: EvalState): EvalState {
    e.(commDown := true, current := Bad)
  }

  predicate BecomesStale(cfg: Config, e: EvalState, now: int) {
    cfg.staleAfter > 0 && e.seen && !e.commDown && e.current.quality != STALE && now - e.lastAt >= cfg.staleAfter
  }

  function AfterCheck(cfg: Config, e: EvalState, now: int): EvalState {
    if BecomesStale(cfg, e, now) then e.(current := Stale) else e
  }

  /** Tracks one tag's history. */
  class Evaluator {
    const cfg: Config
    var seen: bool
    var last: real
    var lastAt: int
    var lastChange: int
    var steady: nat
    var current: Verdict
    var commDown: bool

    function State(): EvalState
      reads this
    {
      EvalState(seen, last, lastAt, lastChange, steady, current, commDown)
    }

    constructor (cfg: Config)
      ensures this.cfg == Effective(cfg) && State() == Initial
      ensures this.cfg == cfg.(flatlineMinSamples := if cfg.flatlineMinSamples >= 1 then cfg.flatlineMinSamples else 5)
    {
      this.cfg := if cfg.flatlineMinSamples <= 0 then cfg.(flatlineMinSamples := 5) else cfg;
      seen, last, lastAt, lastChange, steady, current, commDown := false, 0.0, 0, 0, 0, Good, false;
    }

    method Observe(s: Sample, at: int) returns (verdict: Verdict)
      modifies this
      ensures State() == AfterObserve(cfg, old(State()), s, at) && verdict == current
    {
      commDown := false;
      if s.NotFinite? {
        lastAt := at;
        current := Bad;
        return current;
      }
      if seen && Distance(s.v, last) <= cfg.epsilon {
        steady := steady + 1;
      } else {
        steady := 1;
        lastChange := at;
      }
      seen, last, lastAt := true, s.v, at;
      if cfg.range.Within? && (s.v < cfg.range.min || s.v > cfg.range.max) {
        current := OutOfRange;
        return current;
      }
      if cfg.flatlineAfter > 0 && steady >= cfg.flatlineMinSamples && at - lastChange >= cfg.flatlineAfter {
        current := Flat;
        return current;
      }
      current := Good;
      return current;
    }

    method Comm() returns (verdict: Verdict)
      modifies this
      ensures State() == AfterComm(old(State())) && verdict == current
    {
      commDown := true;
      current := Bad;
      return current;
    }

    /** The second result says that the tag has just become stale. */
    method Check(now: int) returns (verdict: Verdict, changed: bool)
      modifies this
      ensures State() == AfterCheck(cfg, old(State()), now) && verdict == current
      ensures changed == BecomesStale(cfg, old(State()), now)
    {
      if cfg.staleAfter <= 0 || !seen || commDown {
        return current, false;
      }
      if current.quality == STALE {
        return current, false;
      }
      var age := now - lastAt;
      if age < cfg.staleAfter {
        return current, false;
      }
      current := Stale;
      return current, true;
    }
  }

  // ----- Histories ------------------------------------------------------------------

  datatype Call = Observe(s: Sample, at: int) | Comm | Check(now: int)

  function Step(cfg: Config, e: EvalState, c: Call): EvalState {
    match c
    case Observe(s, at) => AfterObserve(cfg, e, s, at)
    case Comm => AfterComm(e)
    case Check(now) => AfterCheck(cfg, e, now)
  }

  /** A fresh evaluator after some calls. */
  function Run(cfg: Config, calls: seq<Call>): EvalState {
    if calls == [] then Initial else Step(cfg, Run(cfg, calls[..|calls| - 1]), calls[|calls| - 1])
  }

  lemma RunStep(cfg: Config, calls: seq<Call>, c: Call)
    ensures Run(cfg, calls + [c]) == Step(cfg, Run(cfg, calls), c)
  {
    assert (calls + [c])[..|calls|] == calls;
  }

  datatype Point = Point(v: real, at: int)

  /** The finite samples observed, in order. */
  function Points(calls: seq<Call>): (ps: seq<Point>) {
    if calls == [] then [] else
    var before, c := Points(calls[..|calls| - 1]), calls[|calls| - 1];
    if c.Observe? && c.s.Finite? then before + [Point(c.s.v, c.at)] else before
  }

  lemma PointsStep(calls: seq<Call>, c: Call)
    ensures Points(calls + [c]) == Points(calls) + (if c.Observe? && c.s.Finite? then [Point(c.s.v, c.at)] else [])
  {
    assert (calls + [c])[..|calls|] == calls;
  }

  /** Neighbours among the last k samples differ by at most epsilon, up or down. */
  ghost predicate Steady(ps: seq<Point>, epsilon: real, k: nat) {
    k <= |ps| && forall i :: |ps| - k < i < |ps| ==> -epsilon <= ps[i].v - ps[i - 1].v <= epsilon
  }

  /** n is the length of the longest steady suffix. */
  ghost predicate Longest(ps: seq<Point>, epsilon: real, n: nat) {
    Steady(ps, epsilon, n) && forall k: nat :: Steady(ps, epsilon, k) ==> k <= n
  }

  lemma SteadySnoc(ps: seq<Point>, p: Point, epsilon: real, k: nat)
    requires 1 <= k <= |ps| + 1
    ensures Steady(ps + [p], epsilon, k) <==>
            Steady(ps, epsilon, k - 1) && (k > 1 ==> Distance(p.v, ps[|ps| - 1].v) <= epsilon)
  {
    var qs := ps + [p];
    if k > 1 {
      assert qs[|ps|] == p && qs[|ps| - 1] == ps[|ps| - 1];
    }
    if Steady(qs, epsilon, k) {
      forall i | |ps| - (k - 1) < i < |ps| ensures -epsilon <= ps[i].v - ps[i - 1].v <= epsilon {
        assert qs[i] == ps[i] && qs[i - 1] == ps[i - 1];
      }
    }
  }

  lemma LongestSnoc(ps: seq<Point>, p: Point, epsilon: real, n: nat)
    requires Longest(ps, epsilon, n)
    ensures var same := ps != [] && Distance(p.v, ps[|ps| - 1].v) <= epsilon;
      Longest(ps + [p], epsilon, if same then n + 1 else 1)
  {
    var qs := ps + [p];
    forall k: nat | 1 <= k <= |qs|
      ensures Steady(qs, epsilon, k) <==>
        Steady(ps, epsilon, k - 1) && (k > 1 ==> Distance(p.v, ps[|ps| - 1].v) <= epsilon)
    {
      SteadySnoc(ps, p, epsilon, k);
    }
    assert Steady(ps, epsilon, 0);
  }

  /** The fields are functions of the whole history: steady (`unchanged` in the program) is the length of
      the longest steady suffix of the finite samples, lastChange the time of its
      first sample, last the latest finite sample. */
  lemma {:induction false} History(cfg: Config, calls: seq<Call>)
    ensures var e, ps := Run(cfg, calls), Points(calls);
      (e.seen <==> ps != []) &&
      Longest(ps, cfg.epsilon, e.steady) &&
      (ps != [] ==> e.last == ps[|ps| - 1].v && 1 <= e.steady && e.lastChange == ps[|ps| - e.steady].at)
  {
    LongestNone(cfg.epsilon);
    LongestWithin(Points(calls), cfg.epsilon, Run(cfg, calls).steady);
    hide Longest;
    if calls != [] {
      var before, c := calls[..|calls| - 1], calls[|calls| - 1];
      History(cfg, before);
      LongestWithin(Points(before), cfg.epsilon, Run(cfg, before).steady);
      if c.Observe? && c.s.Finite? {
        LongestSnoc(Points(before), Point(c.s.v, c.at), cfg.epsilon, Run(cfg, before).steady);
      }
    }
  }

  lemma LongestNone(epsilon: real)
    ensures Longest([], epsilon, 0)
  {
  }

  lemma LongestWithin(ps: seq<Point>, epsilon: real, n: nat)
    ensures Longest(ps, epsilon, n) ==> n <= |ps|
  {
  }

  /** The rule for a sample, in terms of the samples only: not a finite number,
      else out of range, else flat, else good. */
  ghost predicate Rules(cfg: Config, before: seq<Point>, s: Sample, at: int, verdict: Verdict) {
    if s.NotFinite? then verdict == Verdict(BAD, CommRule)
    else if cfg.range.Within? && !(cfg.range.min <= s.v && s.v <= cfg.range.max) then
      verdict == Verdict(OUT_OF_RANGE, RangeRule)
    else if FlatFor(cfg, before + [Point(s.v, at)]) then verdict == Verdict(FLATLINE, FlatlineRule)
    else verdict == Verdict(GOOD, GoodRule)
  }

  /** The longest steady suffix has enough samples and lasts long enough. */
  ghost predicate FlatFor(cfg: Config, ps: seq<Point>) {
    cfg.flatlineAfter > 0 &&
    exists n :: 1 <= n <= |ps| && Longest(ps, cfg.epsilon, n) && n >= cfg.flatlineMinSamples &&
      LastsAtLeast(ps, n, cfg.flatlineAfter)
  }

  ghost predicate LastsAtLeast(ps: seq<Point>, n: nat, d: int)
    requires 1 <= n <= |ps|
  {
    ps[|ps| - 1].at - ps[|ps| - n].at >= d
  }

  /** Every verdict of Observe is the one the rules give for the history. */
  lemma ObserveVerdict(cfg: Config, calls: seq<Call>, s: Sample, at: int)
    ensures Rules(cfg, Points(calls), s, at, AfterObserve(cfg, Run(cfg, calls), s, at).current)
  {
    if s.Finite? {
      var c := Call.Observe(s, at);
      RunStep(cfg, calls, c);
      PointsStep(calls, c);
      History(cfg, calls + [c]);
      var ps := Points(calls) + [Point(s.v, at)];
      var e := Run(cfg, calls + [c]);
      assert Longest(ps, cfg.epsilon, e.steady);
      forall n | Longest(ps, cfg.epsilon, n) ensures n == e.steady {
      }
    }
  }

  // ----- What the current verdict is --------------------------------------------------

  /** Call i is the last report: only checks follow it. */
  ghost predicate LastReport(calls: seq<Call>, i: nat) {
    i < |calls| && !calls[i].Check? && forall j :: i < j < |calls| ==> calls[j].Check?
  }

  /** Some check after report i found it too old. */
  ghost predicate TimedOut(cfg: Config, calls: seq<Call>, i: nat)
    requires i < |calls| && calls[i].Observe?
  {
    cfg.staleAfter > 0 && exists j :: i < j < |calls| && calls[j].Check? && calls[j].now - calls[i].at >= cfg.staleAfter
  }

  lemma TimedOutStep(cfg: Config, calls: seq<Call>, i: nat, c: Call)
    requires i < |calls| && calls[i].Observe? && c.Check?
    ensures TimedOut(cfg, calls + [c], i) <==>
      TimedOut(cfg, calls, i) || (cfg.staleAfter > 0 && c.now - calls[i].at >= cfg.staleAfter)
  {
    var more := calls + [c];
    assert forall j :: 0 <= j < |calls| ==> more[j] == calls[j];
    assert more[|calls|] == c;
  }

  /** The verdict in force: what the last sample deserved, overridden by STALE
      once a check finds it too old, whatever it deserved; after a communication
      failure BAD, which no check replaces. A tag without any finite sample
      never becomes stale. */
  lemma {:induction false} CurrentVerdict(cfg: Config, calls: seq<Call>, i: nat)
    requires LastReport(calls, i)
    ensures var e := Run(cfg, calls);
      match calls[i]
      case Comm => e.commDown && e.current == Verdict(BAD, CommRule)
      case Observe(s, at) =>
        !e.commDown && e.lastAt == at &&
        if TimedOut(cfg, calls, i) && Points(calls) != [] then e.current == Verdict(STALE, StaleRule)
        else e.current.quality != STALE && Rules(cfg, Points(calls[..i]), s, at, e.current)
    decreases |calls|
  {
    var before, c := calls[..|calls| - 1], calls[|calls| - 1];
    RunStep(cfg, before, c);
    PointsStep(before, c);
    assert calls == before + [c];
    hide Points, Run, Rules;
    if i == |calls| - 1 {
      if c.Observe? {
        ObserveVerdict(cfg, before, c.s, c.at);
        assert AfterObserve(cfg, Run(cfg, before), c.s, c.at).current.quality != STALE;
      }
    } else {
      CurrentVerdict(cfg, before, i);
      assert before[..i] == calls[..i] && before[i] == calls[i];
      History(cfg, before);
      if calls[i].Observe? {
        TimedOutStep(cfg, before, i, c);
        hide TimedOut;
        assert Points(calls) == Points(before);
        assert Run(cfg, calls) == AfterCheck(cfg, Run(cfg, before), c.now);
      }
    }
  }

  /** Before any report nothing is wrong. */
  lemma {:induction false} NothingReported(cfg: Config, calls: seq<Call>)
    requires forall c <- calls :: c.Check?
    ensures Run(cfg, calls) == Initial && Run(cfg, calls).current == Verdict(GOOD, GoodRule)
  {
    if calls != [] {
      var before, c := calls[..|calls| - 1], calls[|calls| - 1];
      assert c in calls;
      NothingReported(cfg, before);
    }
  }

  /** Check reports a transition exactly when it is the first check to find the
      last sample too old, if any finite sample was ever seen and no failure was
      reported since. */
  lemma CheckTransition(cfg: Config, calls: seq<Call>, now: int)
    ensures BecomesStale(cfg, Run(cfg, calls), now) <==>
      Points(calls) != [] &&
      exists i: nat :: LastReport(calls, i) && calls[i].Observe? && !TimedOut(cfg, calls, i) &&
        cfg.staleAfter > 0 && now - calls[i].at >= cfg.staleAfter
  {
    History(cfg, calls);
    if i: nat :| LastReport(calls, i) {
      CurrentVerdict(cfg, calls, i);
      forall k: nat | LastReport(calls, k) ensures k == i {
      }
    } else {
      NoReport(calls);
      NothingReported(cfg, calls);
    }
  }

  lemma {:induction false} NoReport(calls: seq<Call>)
    requires forall i: nat :: !LastReport(calls, i)
    ensures forall c <- calls :: c.Check?
  {
    if calls != [] {
      var before := calls[..|calls| - 1];
      assert !LastReport(calls, |calls| - 1);
      forall i: nat ensures !LastReport(before, i) {
        assert !LastReport(calls, i);
      }
      NoReport(before);
      assert calls == before + [calls[|calls| - 1]];
    }
  }
}
