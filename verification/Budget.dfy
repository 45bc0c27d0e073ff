/** The session's spending cap: one counter shared by an agent and everything it delegates to. */
module Budget {
  import opened Bytes

  /** A price card, and what a call comes to under it. Both are parameters; costs are exact reals. */
  datatype Card = Card(id: string)

  datatype Verdict = Admitted | Exhausted | Unenforceable

  /** `budget_preflight`: the cap first, whatever the model; then whether the cap can be enforced. */
  function Judge(maxCost: Option<real>, allowUnpriced: bool, total: real, priced: bool): Verdict {
    if maxCost.None? then Admitted
    else if total >= maxCost.value then Exhausted
    else if !allowUnpriced && !priced then Unenforceable
    else Admitted
  }

  function Charge(cost: Option<real>): real { if cost.Some? then cost.value else 0.0 }

  /** The counter and its flag, shared by reference. */
  class CostMeter {
    var total: real
    var partial: bool

    constructor () ensures total == 0.0 && !partial { total, partial := 0.0, false; }

    /** `set_session_cost`: seeds the total, and leaves the flag as it is. */
    method SetSessionCost(usd: real)
      modifies this`total
      ensures total == usd
    {
      total := usd;
    }

    /** `reset_session_cost`: the one thing that clears the flag. */
    method ResetSessionCost()
      modifies this
      ensures total == 0.0 && !partial
    {
      SetSessionCost(0.0);
      partial := false;
    }
  }

  /** An agent, as far as spending goes. */
  class Spender {
    const meter: CostMeter
    const maxCost: Option<real>
    const allowUnpriced: bool
    var reference: string
    var costRates: Option<(string, Option<Card>)>

    constructor (meter: CostMeter, maxCost: Option<real>, allowUnpriced: bool, reference: string)
      ensures this.meter == meter && this.maxCost == maxCost && this.allowUnpriced == allowUnpriced
      ensures this.reference == reference && costRates == None
    {
      this.meter, this.maxCost, this.allowUnpriced, this.reference, costRates := meter, maxCost, allowUnpriced, reference, None;
    }

    /** The memo holds what the catalog said, for the reference it was asked about. */
    predicate Memoized(catalog: string -> Option<Card>)
      reads this`costRates
    {
      costRates.Some? ==> costRates.value.1 == catalog(costRates.value.0)
    }

    /** `current_cost_rates` */
    method CurrentCostRates(catalog: string -> Option<Card>) returns (card: Option<Card>)
      requires Memoized(catalog)
      modifies this`costRates
      ensures Memoized(catalog) && card == catalog(reference)
      ensures costRates == Some((reference, card))
    {
      if costRates.None? || costRates.value.0 != reference {
        costRates := Some((reference, catalog(reference)));
      }
      card := costRates.value.1;
    }

    /** `budget_preflight`. The catalog is not asked unless its answer matters. */
    method Preflight(catalog: string -> Option<Card>) returns (v: Verdict)
      requires Memoized(catalog)
      modifies this`costRates
      ensures Memoized(catalog)
      ensures v == Judge(maxCost, allowUnpriced, meter.total, catalog(reference).Some?)
      ensures v.Exhausted? <==> maxCost.Some? && meter.total >= maxCost.value
      ensures v.Unenforceable? <==> maxCost.Some? && meter.total < maxCost.value && !allowUnpriced && catalog(reference).None?
      ensures maxCost.None? || v.Exhausted? || allowUnpriced ==> costRates == old(costRates)
    {
      if maxCost.None? { return Admitted; }
      if meter.total >= maxCost.value { return Exhausted; }
      if !allowUnpriced {
        var card := CurrentCostRates(catalog);
        if card.None? { return Unenforceable; }
      }
      v := Admitted;
    }

    /** `account_usage`, after the tokens are counted: `bill` prices them under a card. */
    method AccountUsage(catalog: string -> Option<Card>, bill: Card -> real) returns (cost: Option<real>, session: Option<real>)
      requires Memoized(catalog)
      modifies this`costRates, meter
      ensures Memoized(catalog)
      ensures cost == (if catalog(reference).Some? then Some(bill(catalog(reference).value)) else None)
      ensures meter.total == old(meter.total) + Charge(cost) == old(meter.total) + (if cost.Some? then cost.value else 0.0)
      ensures meter.partial == (old(meter.partial) || cost.None?)
      ensures session == if meter.total > 0.0 then Some(meter.total) else None
    {
      var card := CurrentCostRates(catalog);
      cost := if card.Some? then Some(bill(card.value)) else None;
      if cost.None? { meter.partial := true; }
      meter.total := meter.total + (if cost.Some? then cost.value else 0.0);
      session := if meter.total > 0.0 then Some(meter.total) else None;
    }
  }

  // ---- many agents at once ----

  /** The agents that share the counter, their cap, and the most one call can cost. */
  datatype Env = Env(agents: set<nat>, cap: real, dearest: real)

  /** A round preflights once and is accounted once, however often its request is sent. A request that
      overflows is recovered from by a compaction, at most once a turn: that compaction preflights and
      accounts calls of its own while the round's call is still to be accounted. */
  datatype State = State(
    total: real,
    partial: bool,
    calling: set<nat>,          // agents between a preflight and its accounting
    recovering: set<nat>,       // those of them compacting after an overflow
    summarizing: set<nat>,      // those of them between a recovery call's preflight and its accounting
    summarized: set<nat>,       // agents whose recovery had a call accounted
    spent: set<nat>,            // agents that have recovered once this turn
    recoverers: set<nat>,       // every agent that was ever let through for a recovery call
    base: real,                 // what the counter was last seeded or reset to
    since: seq<Option<real>>,   // the calls accounted since
    conversation: seq<Option<real>>)  // the calls accounted since the last reset

  datatype Step =
    | BeginTurn(a: nat)
    | Preflight(a: nat, allowUnpriced: bool, priced: bool)
    | Account(a: nat, cost: Option<real>)
    | Overflow(a: nat)
    | RecoveryPreflight(a: nat, allowUnpriced: bool, priced: bool)
    | RecoveryAccount(a: nat, cost: Option<real>)
    | RecoveryFails(a: nat)     // a summarization request that is not accounted: it may be sent again
    | Recovered(a: nat)         // the smaller request goes out without another preflight
    | Abandon(a: nat)           // a call that fails is not accounted
    | Seed(usd: real)
    | Reset

  predicate Enabled(e: Env, s: State, step: Step) {
    match step
    case BeginTurn(a) => a !in s.calling
    case Preflight(a, allow, priced) => a in e.agents && a !in s.calling && Judge(Some(e.cap), allow, s.total, priced).Admitted?
    case Account(a, cost) => a in s.calling && a !in s.recovering && 0.0 <= Charge(cost) <= e.dearest
    case Overflow(a) => a in s.calling && a !in s.recovering && a !in s.spent
    case RecoveryPreflight(a, allow, priced) =>
      a in s.recovering && a !in s.summarizing && Judge(Some(e.cap), allow, s.total, priced).Admitted?
    case RecoveryAccount(a, cost) => a in s.summarizing && 0.0 <= Charge(cost) <= e.dearest
    case RecoveryFails(a) => a in s.summarizing
    case Recovered(a) => a in s.recovering && a !in s.summarizing && a in s.summarized
    case Abandon(a) => a in s.calling
    case Seed(_) => true
    case Reset => true
  }

  function Accounted(s: State, cost: Option<real>): State {
    s.(total := s.total + Charge(cost), partial := s.partial || cost.None?,
       since := s.since + [cost], conversation := s.conversation + [cost])
  }

  function After(s: State, step: Step): State {
    match step
    case BeginTurn(a) => s.(spent := s.spent - {a})
    case Preflight(a, _, _) => s.(calling := s.calling + {a})
    case Account(a, cost) => Accounted(s, cost).(calling := s.calling - {a})
    case Overflow(a) => s.(recovering := s.recovering + {a}, summarized := s.summarized - {a})
    case RecoveryPreflight(a, _, _) => s.(summarizing := s.summarizing + {a}, recoverers := s.recoverers + {a})
    case RecoveryAccount(a, cost) => Accounted(s, cost).(summarizing := s.summarizing - {a}, summarized := s.summarized + {a})
    case RecoveryFails(a) => s.(summarizing := s.summarizing - {a})
    case Recovered(a) => s.(recovering := s.recovering - {a}, spent := s.spent + {a})
    case Abandon(a) => s.(calling := s.calling - {a}, recovering := s.recovering - {a}, summarizing := s.summarizing - {a})
    case Seed(usd) => s.(total := usd, base := usd, since := [])
    case Reset => s.(total := 0.0, partial := false, base := 0.0, since := [], conversation := [])
  }

  function Start(): State { State(0.0, false, {}, {}, {}, {}, {}, {}, 0.0, [], []) }

  function Sum(costs: seq<Option<real>>): real {
    if costs == [] then 0.0 else Sum(costs[..|costs| - 1]) + Charge(costs[|costs| - 1])
  }

  /** `n` calls at the dearest. */
  function Times(n: nat, m: real): (r: real)
    ensures m >= 0.0 ==> r >= 0.0
  {
    if n == 0 then 0.0 else Times(n - 1, m) + m
  }

  /** That is, their product. */
  lemma {:induction false} TimesIsProduct(n: nat, m: real)
    ensures Times(n, m) == n as real * m
  {
    if n > 0 { TimesIsProduct(n - 1, m); }
  }

  lemma {:induction false} TimesMonotone(k: nat, n: nat, m: real)
    requires k <= n && m >= 0.0
    ensures Times(k, m) <= Times(n, m)
  {
    if k < n { TimesMonotone(k, n - 1, m); }
  }

  lemma {:induction false} SubsetIsSmaller(a: set<nat>, b: set<nat>)
    requires a <= b
    ensures |a| <= |b|
  {
    if a != {} {
      var x :| x in a;
      SubsetIsSmaller(a - {x}, b - {x});
    }
  }

  function Ceiling(cap: real, base: real): real { if base < cap then cap else base }

  /** The calls let through and not yet accounted. */
  function Outstanding(s: State): nat { |s.calling| + |s.summarizing| }

  /** The most that can ever be outstanding: a round an agent, and a recovery call each of those that
      recover. */
  function Slots(e: Env, s: State): nat { |e.agents| + |s.recoverers| }

  predicate Shaped(e: Env, s: State) {
    s.calling <= e.agents && s.summarizing <= s.recovering <= s.calling && s.summarizing <= s.recoverers <= e.agents
  }

  /** Every call outstanding can still be accounted without passing the bound. */
  predicate WithinBound(e: Env, s: State) {
    && s.total + Times(Outstanding(s), e.dearest) <= Ceiling(e.cap, s.base) + Times(Slots(e, s), e.dearest)
    && (s.base < e.cap ==> s.total + Times(Outstanding(s), e.dearest) < e.cap + Times(Slots(e, s), e.dearest))
  }

  predicate Ledger(s: State) {
    s.total == s.base + Sum(s.since) && (s.partial <==> None in s.conversation)
  }

  predicate Inv(e: Env, s: State) { Shaped(e, s) && WithinBound(e, s) && Ledger(s) }

  lemma LedgerKept(e: Env, s: State, step: Step)
    requires Ledger(s) && Enabled(e, s, step)
    ensures Ledger(After(s, step))
  {
    if step.Account? || step.RecoveryAccount? { assert (s.since + [step.cost])[..|s.since|] == s.since; }
  }

  lemma ShapeKept(e: Env, s: State, step: Step)
    requires Shaped(e, s) && Enabled(e, s, step)
    ensures Shaped(e, After(s, step))
  {
  }

  /** There is a slot for every call outstanding. */
  lemma SlotsSuffice(e: Env, s: State)
    requires Shaped(e, s) && e.dearest >= 0.0
    ensures Outstanding(s) <= Slots(e, s) && Times(Outstanding(s), e.dearest) <= Times(Slots(e, s), e.dearest)
  {
    SubsetIsSmaller(s.calling, e.agents);
    SubsetIsSmaller(s.summarizing, s.recoverers);
    TimesMonotone(Outstanding(s), Slots(e, s), e.dearest);
  }

  /** Accounting a call, or giving it up, frees what it held. */
  lemma FreeingKeepsBound(e: Env, s: State, t: State, cost: real)
    requires e.dearest >= 0.0 && WithinBound(e, s) && t.base == s.base && Slots(e, t) == Slots(e, s)
    requires t.total == s.total + cost
    requires Outstanding(t) < Outstanding(s) && cost <= e.dearest
    ensures WithinBound(e, t)
  {
    TimesMonotone(Outstanding(t), Outstanding(s) - 1, e.dearest);
  }

  lemma OneFewer<T>(s: set<T>, x: T)
    requires x in s
    ensures |s - {x}| == |s| - 1
  {
  }

  lemma AccountKeepsBound(e: Env, s: State, step: Step)
    requires e.dearest >= 0.0 && WithinBound(e, s) && Enabled(e, s, step) && (step.Account? || step.RecoveryAccount?)
    ensures WithinBound(e, After(s, step))
  {
    hide WithinBound, Times, Sum;
    if step.Account? { OneFewer(s.calling, step.a); } else { OneFewer(s.summarizing, step.a); }
    FreeingKeepsBound(e, s, After(s, step), Charge(step.cost));
  }

  lemma FailureKeepsBound(e: Env, s: State, step: Step)
    requires e.dearest >= 0.0 && WithinBound(e, s) && Enabled(e, s, step) && (step.Abandon? || step.RecoveryFails?)
    ensures WithinBound(e, After(s, step))
  {
    hide WithinBound, Times, Sum;
    if step.Abandon? {
      OneFewer(s.calling, step.a);
      SubsetIsSmaller(s.summarizing - {step.a}, s.summarizing);
    } else {
      OneFewer(s.summarizing, step.a);
    }
    FreeingKeepsBound(e, s, After(s, step), 0.0);
  }

  /** Below the cap, with a slot for every call outstanding, the bound holds whatever happened before. */
  lemma AdmissionKeepsBound(e: Env, s: State, step: Step)
    requires e.dearest >= 0.0 && Enabled(e, s, step) && Shaped(e, After(s, step)) && WithinBound(e, s)
    requires step.Preflight? || step.RecoveryPreflight? || step.Seed? || step.Reset?
    ensures WithinBound(e, After(s, step))
  {
    hide Times, Sum, Shaped;
    SlotsSuffice(e, After(s, step));
  }

  lemma OtherKeepsBound(e: Env, s: State, step: Step)
    requires e.dearest >= 0.0 && Enabled(e, s, step) && WithinBound(e, s)
    requires step.BeginTurn? || step.Overflow? || step.Recovered?
    ensures WithinBound(e, After(s, step))
  {
    hide Times, Sum;
  }

  lemma StepKeepsInv(e: Env, s: State, step: Step)
    requires e.dearest >= 0.0 && Inv(e, s) && Enabled(e, s, step)
    ensures Inv(e, After(s, step))
  {
    hide Ledger, Shaped, WithinBound, Enabled, After;
    LedgerKept(e, s, step);
    ShapeKept(e, s, step);
    match step {
      case Account(_, _) => AccountKeepsBound(e, s, step);
      case RecoveryAccount(_, _) => AccountKeepsBound(e, s, step);
      case RecoveryFails(_) => FailureKeepsBound(e, s, step);
      case Abandon(_) => FailureKeepsBound(e, s, step);
      case BeginTurn(_) => OtherKeepsBound(e, s, step);
      case Overflow(_) => OtherKeepsBound(e, s, step);
      case Recovered(_) => OtherKeepsBound(e, s, step);
      case _ => AdmissionKeepsBound(e, s, step);
    }
  }

  predicate Runs(e: Env, steps: seq<Step>)
    decreases |steps|
  {
    steps == [] || (Runs(e, steps[..|steps| - 1]) && Enabled(e, Reached(steps[..|steps| - 1]), steps[|steps| - 1]))
  }

  function Reached(steps: seq<Step>): State {
    if steps == [] then Start() else After(Reached(steps[..|steps| - 1]), steps[|steps| - 1])
  }

  lemma {:induction false} RunKeepsInv(e: Env, steps: seq<Step>)
    requires e.dearest >= 0.0 && e.cap >= 0.0 && Runs(e, steps)
    ensures Inv(e, Reached(steps))
  {
    if steps == [] {
      SlotsSuffice(e, Start());
    } else {
      RunKeepsInv(e, steps[..|steps| - 1]);
      StepKeepsInv(e, Reached(steps[..|steps| - 1]), steps[|steps| - 1]);
    }
  }

  /** The overshoot: in every interleaving the total stays below the cap plus one dearest call for each
      agent and another for each that made a recovery call, unless the conversation was seeded at or past
      the cap already; then it never passes the seed by more than that. */
  lemma OvershootBounded(e: Env, steps: seq<Step>)
    requires e.dearest >= 0.0 && e.cap >= 0.0 && Runs(e, steps)
    ensures var s := Reached(steps);
            && (s.base < e.cap ==> s.total < e.cap + Times(|e.agents| + |s.recoverers|, e.dearest))
            && (s.base >= e.cap ==> s.total <= s.base + Times(|e.agents| + |s.recoverers|, e.dearest))
  {
    RunKeepsInv(e, steps);
  }

  /** So two dearest calls an agent always suffice, and one each when no round recovers. */
  lemma OvershootPerAgent(e: Env, steps: seq<Step>)
    requires e.dearest >= 0.0 && e.cap >= 0.0 && Runs(e, steps) && Reached(steps).base < e.cap
    ensures Reached(steps).total < e.cap + Times(2 * |e.agents|, e.dearest)
    ensures Reached(steps).recoverers == {} ==> Reached(steps).total < e.cap + Times(|e.agents|, e.dearest)
  {
    hide *;
    RunKeepsInv(e, steps);
    RecoverersAreAgents(e, Reached(steps));
    OvershootBounded(e, steps);
    SubsetIsSmaller(Reached(steps).recoverers, e.agents);
    TimesMonotone(|e.agents| + |Reached(steps).recoverers|, 2 * |e.agents|, e.dearest);
  }

  lemma RecoverersAreAgents(e: Env, s: State)
    requires Inv(e, s)
    ensures s.recoverers <= e.agents
  {
  }

  /** The counter is what it was last set to plus every priced call since; the flag says exactly whether
      an unpriced call was made in this conversation. */
  lemma {:induction false} CounterIsTheLedger(e: Env, steps: seq<Step>)
    requires e.dearest >= 0.0 && e.cap >= 0.0 && Runs(e, steps)
    ensures var s := Reached(steps); s.total == s.base + Sum(s.since) && (s.partial <==> None in s.conversation)
  {
    RunKeepsInv(e, steps);
  }

  // ---- and it is the best bound ----

  lemma Extend(e: Env, steps: seq<Step>, step: Step)
    requires Runs(e, steps) && Enabled(e, Reached(steps), step)
    ensures Runs(e, steps + [step]) && Reached(steps + [step]) == After(Reached(steps), step)
  {
    assert (steps + [step])[..|steps|] == steps;
  }

  /** What everyone in `waiting` being let through makes of a state. */
  function LetThrough(s: State, waiting: set<nat>): State { s.(calling := s.calling + waiting) }

  lemma LetThroughOne(e: Env, a: nat, steps: seq<Step>)
    requires Runs(e, steps) && Reached(steps).total < e.cap && a in e.agents && a !in Reached(steps).calling
    ensures var r := steps + [Preflight(a, true, true)];
            Runs(e, r) && Reached(r) == LetThrough(Reached(steps), {a})
  {
    Extend(e, steps, Preflight(a, true, true));
  }

  lemma LetThroughSets(s: State, a: nat, waiting: set<nat>)
    requires a in waiting && waiting !! s.calling
    ensures LetThrough(s, {}) == s
    ensures var t := LetThrough(s, {a});
            t.total == s.total && waiting - {a} !! t.calling && LetThrough(t, waiting - {a}) == LetThrough(s, waiting)
  {
    assert s.calling + {} == s.calling;
    assert s.calling + {a} + (waiting - {a}) == s.calling + waiting;
  }

  /** Everyone is admitted before anyone is accounted. */
  lemma {:induction false} AdmitAll(e: Env, waiting: set<nat>, steps: seq<Step>) returns (r: seq<Step>)
    requires Runs(e, steps) && Reached(steps).total < e.cap && waiting <= e.agents && waiting !! Reached(steps).calling
    ensures Runs(e, r) && Reached(r) == LetThrough(Reached(steps), waiting)
    decreases |waiting|
  {
    r := steps;
    if waiting == {} {
      assert Reached(steps).calling + waiting == Reached(steps).calling;
    } else {
      hide *;
      var a :| a in waiting;
      LetThroughOne(e, a, steps);
      LetThroughSets(Reached(steps), a, waiting);
      r := AdmitAll(e, waiting - {a}, steps + [Preflight(a, true, true)]);
    }
  }

  /** What everyone in `waiting` overflowing, and being let through for the summary, makes of a state. */
  function Overflowing(s: State, waiting: set<nat>): State {
    s.(recovering := s.recovering + waiting, summarized := s.summarized - waiting,
       summarizing := s.summarizing + waiting, recoverers := s.recoverers + waiting)
  }

  lemma OverflowOne(e: Env, a: nat, steps: seq<Step>)
    requires Runs(e, steps) && Reached(steps).total < e.cap && a in Reached(steps).calling
    requires a !in Reached(steps).recovering && a !in Reached(steps).summarizing && a !in Reached(steps).spent
    ensures var r := steps + [Overflow(a)] + [RecoveryPreflight(a, true, true)];
            Runs(e, r) && Reached(r) == Overflowing(Reached(steps), {a})
  {
    Extend(e, steps, Overflow(a));
    Extend(e, steps + [Overflow(a)], RecoveryPreflight(a, true, true));
  }

  lemma {:induction false} OverflowAll(e: Env, waiting: set<nat>, steps: seq<Step>) returns (r: seq<Step>)
    requires Runs(e, steps) && Reached(steps).total < e.cap && waiting <= Reached(steps).calling
    requires waiting !! Reached(steps).recovering && waiting !! Reached(steps).summarizing && waiting !! Reached(steps).spent
    ensures Runs(e, r) && Reached(r) == Overflowing(Reached(steps), waiting)
    decreases |waiting|
  {
    hide *;
    r := steps;
    var s := Reached(steps);
    if waiting == {} {
      OverflowingNone(s);
    } else {
      var a :| a in waiting;
      OverflowOne(e, a, steps);
      OverflowingLeaves(s, a, waiting);
      r := OverflowAll(e, waiting - {a}, steps + [Overflow(a)] + [RecoveryPreflight(a, true, true)]);
      OverflowingTwice(s, {a}, waiting - {a});
      assert {a} + (waiting - {a}) == waiting;
    }
  }

  lemma OverflowingNone(s: State)
    ensures Overflowing(s, {}) == s
  {
    assert s.recovering + {} == s.recovering && s.summarized - {} == s.summarized;
    assert s.summarizing + {} == s.summarizing && s.recoverers + {} == s.recoverers;
  }

  lemma OverflowingLeaves(s: State, a: nat, waiting: set<nat>)
    requires waiting !! s.recovering && waiting !! s.summarizing && waiting !! s.spent && waiting <= s.calling
    ensures var t, rest := Overflowing(s, {a}), waiting - {a};
            && t.total == s.total && rest <= t.calling
            && rest !! t.recovering && rest !! t.summarizing && rest !! t.spent
  {
  }

  lemma OverflowingTwice(s: State, x: set<nat>, y: set<nat>)
    ensures Overflowing(Overflowing(s, x), y) == Overflowing(s, x + y)
  {
    var one, two := Overflowing(Overflowing(s, x), y), Overflowing(s, x + y);
    assert one.recovering == two.recovering && one.summarized == two.summarized;
    assert one.summarizing == two.summarizing && one.recoverers == two.recoverers;
  }

  /** Every recovery call is billed at the dearest, and its round's request goes out again. */
  lemma {:induction false} RecoverAll(e: Env, steps: seq<Step>) returns (r: seq<Step>)
    requires Runs(e, steps) && e.dearest >= 0.0 && Reached(steps).summarizing == Reached(steps).recovering
    ensures Runs(e, r) && Reached(r).total == Reached(steps).total + Times(|Reached(steps).summarizing|, e.dearest)
    ensures Reached(r).calling == Reached(steps).calling && Reached(r).recovering == {} && Reached(r).base == Reached(steps).base
    ensures Reached(r).recoverers == Reached(steps).recoverers
    decreases |Reached(steps).summarizing|
  {
    r := steps;
    var summarizing := Reached(steps).summarizing;
    if summarizing != {} {
      var a :| a in summarizing;
      Extend(e, steps, RecoveryAccount(a, Some(e.dearest)));
      var billed := steps + [RecoveryAccount(a, Some(e.dearest))];
      Extend(e, billed, Recovered(a));
      assert |summarizing - {a}| == |summarizing| - 1;
      r := RecoverAll(e, billed + [Recovered(a)]);
    }
  }

  lemma {:induction false} AccountAll(e: Env, steps: seq<Step>) returns (r: seq<Step>)
    requires Runs(e, steps) && e.dearest >= 0.0 && Reached(steps).recovering == {}
    ensures Runs(e, r) && Reached(r).total == Reached(steps).total + Times(|Reached(steps).calling|, e.dearest)
    ensures Reached(r).recoverers == Reached(steps).recoverers && Reached(r).base == Reached(steps).base
    decreases |Reached(steps).calling|
  {
    r := steps;
    var calling := Reached(steps).calling;
    if calling != {} {
      var a :| a in calling;
      Extend(e, steps, Account(a, Some(e.dearest)));
      assert |calling - {a}| == |calling| - 1;
      r := AccountAll(e, steps + [Account(a, Some(e.dearest))]);
    }
  }

  lemma {:induction false} TimesAdd(j: nat, k: nat, m: real)
    ensures Times(j, m) + Times(k, m) == Times(j + k, m)
  {
    if k > 0 { TimesAdd(j, k - 1, m); }
  }

  /** A conversation resumed just below the cap, with every agent through and those overflowed. */
  lemma AllThrough(e: Env, recoverers: set<nat>, short: real) returns (steps: seq<Step>)
    requires 0.0 < short <= e.cap && recoverers <= e.agents
    ensures Runs(e, steps)
    ensures Reached(steps).total == Reached(steps).base == e.cap - short
    ensures Reached(steps).calling == e.agents && Reached(steps).recoverers == recoverers
    ensures Reached(steps).recovering == Reached(steps).summarizing == recoverers
  {
    assert Runs(e, []);
    Extend(e, [], Seed(e.cap - short));
    var seeded := [] + [Seed(e.cap - short)];
    assert Reached(seeded) == Start().(total := e.cap - short, base := e.cap - short);
    hide Runs, Reached, Enabled, After;
    var admitted := AdmitAll(e, e.agents, seeded);
    assert {} + e.agents == e.agents && {} + recoverers == recoverers;
    steps := OverflowAll(e, recoverers, admitted);
  }

  /** Every total below the bound is reached, whichever agents recover: resume a conversation just below
      the cap, let every agent through, let those overflow and be let through again, then bill all of it. */
  lemma OvershootReached(e: Env, recoverers: set<nat>, short: real) returns (steps: seq<Step>)
    requires e.dearest >= 0.0 && 0.0 < short <= e.cap && recoverers <= e.agents
    ensures Runs(e, steps) && Reached(steps).base < e.cap && Reached(steps).recoverers == recoverers
    ensures Reached(steps).total == e.cap + Times(|e.agents| + |recoverers|, e.dearest) - short
  {
    hide *;
    var through := AllThrough(e, recoverers, short);
    var recovered := RecoverAll(e, through);
    steps := AccountAll(e, recovered);
    TimesAdd(|e.agents|, |recoverers|, e.dearest);
  }

  /** One call an agent is enough exactly when nobody recovers: of the agents allowed to. */
  lemma OneCallEachExactly(e: Env, allowed: set<nat>)
    requires e.dearest > 0.0 && e.cap > 0.0 && allowed <= e.agents
    ensures (forall steps :: Runs(e, steps) && Reached(steps).base < e.cap && Reached(steps).recoverers <= allowed ==>
               Reached(steps).total < e.cap + Times(|e.agents|, e.dearest))
       <==> allowed == {}
  {
    if allowed == {} {
      forall steps | Runs(e, steps) && Reached(steps).base < e.cap && Reached(steps).recoverers <= allowed
        ensures Reached(steps).total < e.cap + Times(|e.agents|, e.dearest)
      {
        assert Reached(steps).recoverers == {};
        OvershootPerAgent(e, steps);
      }
    } else {
      var short := if e.dearest < e.cap then e.dearest else e.cap;
      var steps := OvershootReached(e, allowed, short);
      TimesAdd(|e.agents|, |allowed|, e.dearest);
      TimesMonotone(1, |allowed|, e.dearest);
      assert Times(1, e.dearest) == Times(0, e.dearest) + e.dearest;
      assert Reached(steps).total >= e.cap + Times(|e.agents|, e.dearest);
    }
  }

  /** A single agent, `short` below its cap, that recovers from one overflow is billed two calls past it. */
  lemma OneAgentTwoCalls(cap: real, dearest: real, short: real)
    requires dearest >= 0.0 && 0.0 < short <= cap
    ensures exists steps :: Runs(Env({0}, cap, dearest), steps) && Reached(steps).total == cap - short + 2.0 * dearest
  {
    var steps := OvershootReached(Env({0}, cap, dearest), {0}, short);
    assert Times(2, dearest) == Times(1, dearest) + dearest && Times(1, dearest) == Times(0, dearest) + dearest;
  }
}
