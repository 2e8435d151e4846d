/**
 * Penalties of a node under concurrent callers: `Penalize` loads the penalty, adds to it and
 * arms a timer in three separate atomic operations, and each timer takes its addition back.
 */
module Penalty {
  import opened Words

  /** At most `callers` goroutines are inside `Penalize` at once. */
  datatype Config = Config(size: u32, max: u32, callers: nat)

  /** `adding` callers saw a penalty below the maximum and have not added yet, `arming` callers
      have added and not armed their timer yet, `timers` timers have not fired yet. */
  datatype State = State(penalty: u32, adding: nat, arming: nat, timers: nat)

  datatype Event = Load | Add | Arm | Fire

  const INITIAL := State(0, 0, 0, 0)

  predicate Enabled(cfg: Config, s: State, e: Event) {
    match e
    case Load => s.adding + s.arming < cfg.callers
    case Add => s.adding > 0
    case Arm => s.arming > 0
    case Fire => s.timers > 0
  }

  function Apply(cfg: Config, s: State, e: Event): State
    requires Enabled(cfg, s, e)
  {
    match e
    case Load => if s.penalty >= cfg.max then s else s.(adding := s.adding + 1)
    case Add => s.(penalty := Add32(s.penalty, cfg.size), adding := s.adding - 1, arming := s.arming + 1)
    case Arm => s.(arming := s.arming - 1, timers := s.timers + 1)
    case Fire => s.(penalty := Add32(s.penalty, Not32(Wrap32(cfg.size - 1))), timers := s.timers - 1)
  }

  /** The state after the events, `None` if one of them is not enabled. */
  datatype Outcome = Stuck | At(s: State)

  function Run(cfg: Config, events: seq<Event>): Outcome {
    if events == [] then At(INITIAL)
    else
      var before := Run(cfg, events[..|events| - 1]);
      var e := events[|events| - 1];
      if before.At? && Enabled(cfg, before.s, e) then At(Apply(cfg, before.s, e)) else Stuck
  }

  /** How many additions stay below the maximum. */
  function Steps(cfg: Config): (n: nat)
    requires cfg.size > 0 && cfg.max > 0
    ensures n * cfg.size < cfg.max <= n * cfg.size + cfg.size
  {
    (cfg.max - 1) / cfg.size
  }

  /** The largest multiple of the size below the maximum, and one addition for each caller. */
  function Ceiling(cfg: Config): nat
    requires cfg.size > 0 && cfg.max > 0
  {
    Steps(cfg) * cfg.size + cfg.callers * cfg.size
  }

  predicate Fits(cfg: Config) {
    cfg.size > 0 && cfg.max > 0 && Ceiling(cfg) < TWO32
  }

  /** Additions that are still to be taken back. */
  function Owed(s: State): nat {
    s.arming + s.timers
  }

  predicate Inv(cfg: Config, s: State)
    requires Fits(cfg)
  {
    && s.penalty == Owed(s) * cfg.size
    && s.penalty + s.adding * cfg.size <= Ceiling(cfg)
    && s.adding + s.arming <= cfg.callers
  }

  lemma MulMonotone(a: nat, b: nat, size: nat)
    requires a <= b
    ensures a * size <= b * size
  {
  }

  lemma MulStep(n: nat, size: nat)
    ensures (n + 1) * size == n * size + size
  {
  }

  /** A multiple of the size below the maximum is at most the largest such multiple. */
  lemma BelowMax(cfg: Config, n: nat)
    requires cfg.size > 0 && cfg.max > 0 && n * cfg.size < cfg.max
    ensures n * cfg.size <= Steps(cfg) * cfg.size
  {
    if n <= Steps(cfg) {
      MulMonotone(n, Steps(cfg), cfg.size);
    } else {
      MulMonotone(Steps(cfg) + 1, n, cfg.size);
      MulStep(Steps(cfg), cfg.size);
      assert false;
    }
  }

  lemma LoadInv(cfg: Config, s: State)
    requires Fits(cfg) && Inv(cfg, s) && Enabled(cfg, s, Load)
    ensures Inv(cfg, Apply(cfg, s, Load))
  {
    if s.penalty < cfg.max {
      BelowMax(cfg, Owed(s));
      MulMonotone(s.adding + 1, cfg.callers, cfg.size);
    }
  }

  lemma AddInv(cfg: Config, s: State)
    requires Fits(cfg) && Inv(cfg, s) && Enabled(cfg, s, Add)
    ensures Inv(cfg, Apply(cfg, s, Add))
  {
    MulStep(s.adding - 1, cfg.size);
    MulStep(Owed(s), cfg.size);
    WordFollows(s.penalty, Add32(s.penalty, cfg.size), cfg.size);
  }

  /** A timer never takes back more than there is. */
  lemma FireInv(cfg: Config, s: State)
    requires Fits(cfg) && Inv(cfg, s) && Enabled(cfg, s, Fire)
    ensures Inv(cfg, Apply(cfg, s, Fire))
    ensures s.penalty >= cfg.size && Apply(cfg, s, Fire).penalty == s.penalty - cfg.size
  {
    MulStep(Owed(s) - 1, cfg.size);
    ComplementSubtracts(s.penalty, cfg.size);
    var size: int := cfg.size;
    WordFollows(s.penalty, Wrap32(s.penalty - size), -size);
  }

  lemma StepInv(cfg: Config, s: State, e: Event)
    requires Fits(cfg) && Inv(cfg, s) && Enabled(cfg, s, e)
    ensures Inv(cfg, Apply(cfg, s, e))
  {
    match e
    case Load => LoadInv(cfg, s);
    case Add => AddInv(cfg, s);
    case Arm =>
    case Fire => FireInv(cfg, s);
  }

  lemma {:induction false} RunInv(cfg: Config, events: seq<Event>)
    requires Fits(cfg) && Run(cfg, events).At?
    ensures Inv(cfg, Run(cfg, events).s)
  {
    if events != [] {
      var before := events[..|events| - 1];
      RunInv(cfg, before);
      StepInv(cfg, Run(cfg, before).s, events[|events| - 1]);
    }
  }

  /** In every run the penalty is the size times the additions not yet taken back, and stays
      at or below the ceiling. */
  lemma PenaltyExact(cfg: Config, events: seq<Event>)
    requires Fits(cfg) && Run(cfg, events).At?
    ensures Run(cfg, events).s.penalty == Owed(Run(cfg, events).s) * cfg.size
    ensures Run(cfg, events).s.penalty <= Ceiling(cfg)
  {
    RunInv(cfg, events);
    MulMonotone(0, Run(cfg, events).s.adding, cfg.size);
  }

  /** With the size dividing the maximum, the penalty exceeds it by one addition for each
      further concurrent caller, and not at all with a single caller. */
  lemma CeilingWhenDividing(cfg: Config, k: nat)
    requires cfg.size > 0 && k > 0 && cfg.max == k * cfg.size
    ensures Ceiling(cfg) == cfg.max + cfg.size * (cfg.callers - 1)
    ensures cfg.callers == 1 ==> Ceiling(cfg) == cfg.max
  {
    StepsWhenDividing(cfg, k);
    MulStep(k - 1, cfg.size);
  }

  lemma StepsWhenDividing(cfg: Config, k: nat)
    requires cfg.size > 0 && k > 0 && cfg.max == k * cfg.size
    ensures Steps(cfg) == k - 1
  {
    var n := Steps(cfg);
    MulStep(n, cfg.size);
    if n >= k {
      MulMonotone(k, n, cfg.size);
      assert false;
    } else if n + 1 < k {
      MulStep(n + 1, cfg.size);
      MulMonotone(n + 2, k, cfg.size);
      assert false;
    }
  }

  // ---------- The ceiling is reached ----------

  lemma RunStep(cfg: Config, events: seq<Event>, e: Event)
    requires Run(cfg, events).At? && Enabled(cfg, Run(cfg, events).s, e)
    ensures Run(cfg, events + [e]) == At(Apply(cfg, Run(cfg, events).s, e))
  {
    assert (events + [e])[..|events|] == events;
  }

  lemma OneMore(cfg: Config, base: seq<Event>, p: u32, timers: nat) returns (events: seq<Event>)
    requires Run(cfg, base) == At(State(p, 0, 0, timers)) && p + cfg.size < cfg.max && cfg.callers > 0
    ensures Run(cfg, events) == At(State(p + cfg.size, 0, 0, timers + 1))
  {
    RunStep(cfg, base, Load);
    RunStep(cfg, base + [Load], Add);
    RunStep(cfg, base + [Load] + [Add], Arm);
    events := base + [Load] + [Add] + [Arm];
  }

  /** `n` calls of `Penalize`, one after the other. */
  lemma {:induction false} OneByOne(cfg: Config, n: nat) returns (events: seq<Event>)
    requires cfg.callers > 0 && n * cfg.size < cfg.max
    ensures Run(cfg, events) == At(State(n * cfg.size, 0, 0, n))
  {
    if n == 0 {
      events := [];
    } else {
      MulStep(n - 1, cfg.size);
      events := OneByOne(cfg, n - 1);
      events := OneMore(cfg, events, (n - 1) * cfg.size, n - 1);
    }
  }

  lemma {:induction false} AllLoad(cfg: Config, base: seq<Event>, p: u32, timers: nat, n: nat) returns (events: seq<Event>)
    requires Run(cfg, base) == At(State(p, 0, 0, timers)) && p < cfg.max && n <= cfg.callers
    ensures Run(cfg, events) == At(State(p, n, 0, timers))
  {
    if n == 0 {
      events := base;
    } else {
      events := AllLoad(cfg, base, p, timers, n - 1);
      RunStep(cfg, events, Load);
      events := events + [Load];
    }
  }

  lemma {:induction false} AllAdd(cfg: Config, base: seq<Event>, p: u32, timers: nat, callers: nat, n: nat)
    returns (events: seq<Event>)
    requires Run(cfg, base) == At(State(p, callers, 0, timers)) && n <= callers && p + n * cfg.size < TWO32
    ensures Run(cfg, events) == At(State(p + n * cfg.size, callers - n, n, timers))
  {
    if n == 0 {
      events := base;
    } else {
      MulStep(n - 1, cfg.size);
      events := AllAdd(cfg, base, p, timers, callers, n - 1);
      RunStep(cfg, events, Add);
      events := events + [Add];
    }
  }

  /** The ceiling is tight: some run reaches it. */
  lemma CeilingReached(cfg: Config) returns (events: seq<Event>)
    requires Fits(cfg) && cfg.callers > 0
    ensures Run(cfg, events).At? && Run(cfg, events).s.penalty == Ceiling(cfg)
  {
    var k := Steps(cfg);
    events := OneByOne(cfg, k);
    events := AllLoad(cfg, events, k * cfg.size, k, cfg.callers);
    events := AllAdd(cfg, events, k * cfg.size, k, cfg.callers, cfg.callers);
  }

  // ---------- Penalties that do not fit ----------

  lemma AddWraps(n: nat, size: u32)
    ensures Add32(Wrap32(n * size), size) == Wrap32((n + 1) * size)
  {
    MulStep(n, size);
    WrapAdd(n * size, size);
  }

  /** Whatever the sizes: the penalty is the size times the additions not undone, modulo 2^32. */
  lemma {:induction false} PenaltyModulo(cfg: Config, events: seq<Event>)
    requires Run(cfg, events).At?
    ensures Run(cfg, events).s.penalty == Wrap32(Owed(Run(cfg, events).s) * cfg.size)
  {
    if events != [] {
      var before, e := events[..|events| - 1], events[|events| - 1];
      PenaltyModulo(cfg, before);
      var s := Run(cfg, before).s;
      if e == Add {
        AddWraps(Owed(s), cfg.size);
      } else if e == Fire {
        FireWraps(Owed(s) - 1, s.penalty, cfg.size);
      }
    }
  }

  lemma FireWraps(n: nat, penalty: u32, size: u32)
    requires penalty == Wrap32((n + 1) * size)
    ensures Add32(penalty, Not32(Wrap32(size - 1))) == Wrap32(n * size)
  {
    AddWraps(n, size);
    ComplementSubtracts(penalty, size);
    var p: int, q: int := Wrap32(n * size), size;
    WrapBack(p, q);
  }

  lemma WrapBack(p: u32, q: u32)
    ensures Wrap32(Add32(p, q) - q) == p
  {
    var x: int, y: int := p, q;
    WrapAdd(x + y, -y);
  }

  /** In every run the penalty is what is owed, without wrapping. */
  ghost predicate NeverWraps(cfg: Config) {
    forall events :: Run(cfg, events).At? ==> Run(cfg, events).s.penalty == Owed(Run(cfg, events).s) * cfg.size
  }

  /** A run in which the penalty wraps. */
  lemma Wraps(cfg: Config) returns (events: seq<Event>)
    requires cfg.size > 0 && cfg.max > 0 && Ceiling(cfg) >= TWO32
    ensures Run(cfg, events).At? && Run(cfg, events).s.penalty < Owed(Run(cfg, events).s) * cfg.size
  {
    var k := Steps(cfg);
    var p := k * cfg.size;
    var n := (MAX32 - p) / cfg.size;
    EnoughCallers(cfg, p, n);
    events := OneByOne(cfg, k);
    events := AllLoad(cfg, events, p, k, cfg.callers);
    events := AllAdd(cfg, events, p, k, cfg.callers, n);
    RunStep(cfg, events, Add);
    events := events + [Add];
    OneTooMany(p + n * cfg.size, cfg.size);
    SumOfSteps(k, n, cfg.size);
  }

  lemma OneTooMany(x: u32, size: u32)
    requires x + size >= TWO32
    ensures Add32(x, size) < x + size
  {
  }

  lemma SumOfSteps(k: nat, n: nat, size: nat)
    ensures (n + 1 + k) * size == k * size + n * size + size
  {
  }

  lemma EnoughCallers(cfg: Config, p: nat, n: nat)
    requires cfg.size > 0 && p < TWO32 && n == (MAX32 - p) / cfg.size && p + cfg.callers * cfg.size >= TWO32
    ensures p + n * cfg.size < TWO32 <= p + n * cfg.size + cfg.size && n < cfg.callers
  {
    assert MAX32 - p == n * cfg.size + (MAX32 - p) % cfg.size;
    MulAtLeast(cfg.callers - n, cfg.size);
    assert (cfg.callers - n) * cfg.size == cfg.callers * cfg.size - n * cfg.size;
  }

  /** The penalty is exact in all runs if and only if its ceiling fits 32 bits. */
  lemma PenaltyExactly(cfg: Config)
    requires cfg.size > 0 && cfg.max > 0
    ensures NeverWraps(cfg) <==> Ceiling(cfg) < TWO32
  {
    if Ceiling(cfg) < TWO32 {
      forall events | Run(cfg, events).At?
        ensures Run(cfg, events).s.penalty == Owed(Run(cfg, events).s) * cfg.size
      {
        PenaltyExact(cfg, events);
      }
    } else {
      var events := Wraps(cfg);
    }
  }
}
