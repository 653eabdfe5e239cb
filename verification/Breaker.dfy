/** The circuit breaker of `dealfinder/aggregate.py` under requests that overlap: the calls' bench tests,
    benchings and searches interleave in any order, on one clock. */
module Breaker {
  import opened Aggregate

  datatype Step =
    | Test(call: nat, name: string, at: real)
    | Bench(name: string, at: real)
    | Search(call: nat, name: string)

  datatype Weave = Nothing | Next(before: Weave, step: Step)

  function CooldownOf(w: Weave): map<string, real> {
    match w
    case Nothing => map[]
    case Next(before, Bench(name, at)) => CooldownOf(before)[name := at + COOLDOWN_S]
    case Next(before, _) => CooldownOf(before)
  }

  /** The sources each call has tested, and those it found awake. */
  function Tested(w: Weave): set<(nat, string)> {
    match w
    case Nothing => {}
    case Next(before, Test(call, name, _)) => Tested(before) + {(call, name)}
    case Next(before, _) => Tested(before)
  }

  function Awake(w: Weave): set<(nat, string)> {
    match w
    case Nothing => {}
    case Next(before, Test(call, name, at)) =>
      if Benched(CooldownOf(before), name, at) then Awake(before) else Awake(before) + {(call, name)}
    case Next(before, _) => Awake(before)
  }

  ghost predicate NoLaterThan(w: Weave, now: real) {
    match w
    case Nothing => true
    case Next(before, Test(_, _, at)) => at <= now && NoLaterThan(before, now)
    case Next(before, Bench(_, at)) => at <= now && NoLaterThan(before, now)
    case Next(before, Search(_, _)) => NoLaterThan(before, now)
  }

  /** A call tests a source at most once, searches only what it found awake, and the clock never goes
      back. */
  ghost predicate Allowed(past: Weave, step: Step) {
    match step
    case Test(call, name, at) => (call, name) !in Tested(past) && NoLaterThan(past, at)
    case Bench(_, at) => NoLaterThan(past, at)
    case Search(call, name) => (call, name) in Awake(past)
  }

  ghost predicate Woven(w: Weave) {
    match w
    case Nothing => true
    case Next(before, step) => Woven(before) && Allowed(before, step)
  }

  /** In this weave, the step came right after `past`. */
  ghost predicate Came(w: Weave, past: Weave, step: Step) {
    match w
    case Nothing => false
    case Next(before, last) => (before == past && last == step) || Came(before, past, step)
  }

  lemma {:induction false} EarlierStep(w: Weave, past: Weave, name: string, at: real, now: real)
    requires Came(w, past, Bench(name, at)) && NoLaterThan(w, now)
    ensures at <= now
  {
    if !(w.before == past && w.step == Bench(name, at)) { EarlierStep(w.before, past, name, at, now); }
  }

  /** Every benching stays on the books, or a later one takes its place. */
  lemma {:induction false} BenchingStays(w: Weave, past: Weave, name: string, at: real)
    requires Woven(w) && Came(w, past, Bench(name, at))
    ensures name in CooldownOf(w) && CooldownOf(w)[name] >= at + COOLDOWN_S
  {
    if !(w.before == past && w.step == Bench(name, at)) {
      BenchingStays(w.before, past, name, at);
      if w.step.Bench? { EarlierStep(w.before, past, name, at, w.step.at); }
    }
  }

  lemma {:induction false} AwakeWasTested(w: Weave)
    ensures Awake(w) <= Tested(w)
  {
    match w
    case Nothing =>
    case Next(before, _) => AwakeWasTested(before);
  }

  /** A call that found a source benched never has it among the awake ones. */
  lemma {:induction false} NeverAwake(w: Weave, past: Weave, call: nat, name: string, at: real)
    requires Woven(w) && Came(w, past, Test(call, name, at)) && Benched(CooldownOf(past), name, at)
    ensures (call, name) !in Awake(w) && (call, name) in Tested(w)
  {
    if w.before == past && w.step == Test(call, name, at) {
      AwakeWasTested(past);
    } else {
      NeverAwake(w.before, past, call, name, at);
    }
  }

  lemma {:induction false} SearchedWasAwake(w: Weave, past: Weave, call: nat, name: string)
    requires Woven(w) && Came(w, past, Search(call, name))
    ensures (call, name) in Awake(w)
  {
    if !(w.before == past && w.step == Search(call, name)) { SearchedWasAwake(w.before, past, call, name); }
  }

  lemma {:induction false} EarlierWeave(w: Weave, past: Weave, step: Step)
    requires Woven(w) && Came(w, past, step)
    ensures Woven(past)
  {
    if !(w.before == past && w.step == step) { EarlierWeave(w.before, past, step); }
  }

  /** However calls overlap, no call whose test of a source comes after a benching of it and before that
      cooldown ends searches the source, at any time. */
  lemma BenchedSourceIsNotSearched(w: Weave, tested: Weave, benched: Weave, call: nat, name: string,
                                   at: real, since: real)
    requires Woven(w) && Came(w, tested, Test(call, name, at)) && Came(tested, benched, Bench(name, since))
    requires at < since + COOLDOWN_S
    ensures forall past :: !Came(w, past, Search(call, name))
  {
    EarlierWeave(w, tested, Test(call, name, at));
    BenchingStays(tested, benched, name, since);
    NeverAwake(w, tested, call, name, at);
    forall past
      ensures !Came(w, past, Search(call, name))
    {
      if Came(w, past, Search(call, name)) { SearchedWasAwake(w, past, call, name); }
    }
  }

  /** What is on the books came from a benching. */
  lemma {:induction false} BenchedOnce(w: Weave, name: string) returns (past: Weave, since: real)
    requires name in CooldownOf(w)
    ensures Came(w, past, Bench(name, since)) && CooldownOf(w)[name] == since + 90.0
  {
    match w
    case Next(before, step) =>
      if step.Bench? && step.name == name {
        past, since := before, step.at;
      } else {
        past, since := BenchedOnce(before, name);
      }
  }

  lemma {:induction false} StaysAwake(w: Weave, past: Weave, call: nat, name: string, at: real)
    requires Came(w, past, Test(call, name, at)) && !Benched(CooldownOf(past), name, at)
    ensures (call, name) in Awake(w)
  {
    if !(w.before == past && w.step == Test(call, name, at)) { StaysAwake(w.before, past, call, name, at); }
  }

  /** And no source rests longer: a call whose test comes 90 seconds or more after every benching of the
      source recorded by then may search it, at any later time. */
  lemma RestedSourceMayBeSearched(w: Weave, tested: Weave, call: nat, name: string, at: real)
    requires Came(w, tested, Test(call, name, at))
    requires forall past, since :: Came(tested, past, Bench(name, since)) ==> at >= since + 90.0
    ensures Allowed(w, Search(call, name))
  {
    if Benched(CooldownOf(tested), name, at) {
      var past, since := BenchedOnce(tested, name);
      assert false;
    }
    StaysAwake(w, tested, call, name, at);
  }
}
