/** When the supervisor restarts a failed task and when it stops the runtime. */
module Supervision {
  import opened Rows

  const MAX_COUNT: nat := 0xFFFF_FFFF

  datatype FailureKind = Transient | Fault | Panic

  /** A task failed at `now` after it ran for `ranFor`. */
  datatype TaskFailure = TaskFailure(now: int, ranFor: nat, kind: FailureKind)
  {
    predicate Spends() { !kind.Transient? }
  }

  datatype RestartPolicy = RestartPolicy(initialBackoff: nat, maxBackoff: nat, healthyAfter: nat, maxRestarts: nat,
                                         window: nat, maxOutage: nat)
  {
    /** The cap is never below the first delay, and the budget is a 32-bit count. */
    predicate Valid() { initialBackoff <= maxBackoff && maxRestarts <= MAX_COUNT }
  }

  /** The policy of a configuration: a cap below the first delay counts as that delay. */
  function PolicyOf(restartBackoff: nat, maxRestartBackoff: nat, healthyAfter: nat, maxRestarts: nat, window: nat,
                    maxOutage: nat): (policy: RestartPolicy)
    ensures policy.initialBackoff == restartBackoff && policy.initialBackoff <= policy.maxBackoff
    ensures policy.maxBackoff == maxRestartBackoff || maxRestartBackoff < policy.maxBackoff == restartBackoff
  {
    RestartPolicy(restartBackoff, if maxRestartBackoff < restartBackoff then restartBackoff else maxRestartBackoff,
                  healthyAfter, maxRestarts, window, maxOutage)
  }

  datatype StopReason = BudgetExhausted | TransientOutage(lasted: nat)

  datatype Decision = Restarted(delay: nat) | Stopped(reason: StopReason)

  function Elapsed(now: int, earlier: int): nat { if now > earlier then now - earlier else 0 }

  function Min(a: nat, b: nat): nat { if a < b then a else b }

  // ---- The policy as a function --------------------------------------------------------------

  datatype Budget = Budget(count: nat, windowStarted: int)

  function Spend(b: Budget, now: int, policy: RestartPolicy): Budget {
    var current := if Elapsed(now, b.windowStarted) > policy.window then Budget(0, now) else b;
    current.(count := if current.count < MAX_COUNT then current.count + 1 else current.count)
  }

  datatype State = State(budget: Budget, next: nat, outage: Option<int>)

  function Rested(s: State, f: TaskFailure, policy: RestartPolicy): State {
    if f.ranFor >= policy.healthyAfter then s.(next := policy.initialBackoff, outage := None) else s
  }

  function Backed(s: State, policy: RestartPolicy): (State, Decision) {
    (s.(next := Min(s.next + s.next, policy.maxBackoff)), Restarted(s.next))
  }

  /** What follows a failure. */
  function Decide(s: State, f: TaskFailure, policy: RestartPolicy): (State, Decision) {
    var r := Rested(s, f, policy);
    if f.kind.Transient? then
      var started := if r.outage.Some? then r.outage.value else f.now;
      var lasted := Elapsed(f.now, started);
      var r' := r.(outage := Some(started));
      if lasted > policy.maxOutage then (r', Stopped(TransientOutage(lasted))) else Backed(r', policy)
    else
      var r' := r.(budget := Spend(r.budget, f.now, policy));
      if r'.budget.count > policy.maxRestarts then (r', Stopped(BudgetExhausted)) else Backed(r', policy)
  }

  function Initially(start: int, policy: RestartPolicy): State {
    State(Budget(0, start), policy.initialBackoff, None)
  }

  // ---- The policy as it is written -------------------------------------------------------------

  class RestartBudget {
    var count: nat
    var windowStarted: int

    constructor (now: int)
      ensures count == 0 && windowStarted == now
    {
      count, windowStarted := 0, now;
    }

    /** Counts one restart; false once the window holds more than the budget. */
    method Record(now: int, policy: RestartPolicy) returns (within: bool)
      modifies this
      ensures Budget(count, windowStarted) == Spend(Budget(old(count), old(windowStarted)), now, policy)
      ensures within <==> count <= policy.maxRestarts
    {
      if Elapsed(now, windowStarted) > policy.window {
        count := 0;
        windowStarted := now;
      }
      if count < MAX_COUNT { count := count + 1; }
      return count <= policy.maxRestarts;
    }
  }

  class RestartBackoff {
    var next: nat

    constructor (initial: nat)
      ensures next == initial
    {
      next := initial;
    }

    /** Returns the delay of this restart and doubles the next one, up to the cap. */
    method Advance(cap: nat) returns (delay: nat)
      modifies this
      ensures delay == old(next) && next == Min(2 * old(next), cap)
    {
      delay := next;
      next := next + next;
      if next > cap { next := cap; }
    }
  }

  class TaskRestarts {
    const budget: RestartBudget
    var backoff: RestartBackoff
    var outageStarted: Option<int>

    constructor (now: int, policy: RestartPolicy)
      ensures Abstract() == Initially(now, policy) && fresh(budget) && fresh(backoff)
    {
      budget := new RestartBudget(now);
      backoff := new RestartBackoff(policy.initialBackoff);
      outageStarted := None;
    }

    ghost function Abstract(): State
      reads this, budget, backoff
    {
      State(Budget(budget.count, budget.windowStarted), backoff.next, outageStarted)
    }

    /** Decides what follows a failure. */
    method OnFailure(f: TaskFailure, policy: RestartPolicy) returns (decision: Decision)
      modifies this, budget, backoff
      ensures (Abstract(), decision) == Decide(old(Abstract()), f, policy)
      ensures backoff == old(backoff) || fresh(backoff)
    {
      if f.ranFor >= policy.healthyAfter {
        backoff := new RestartBackoff(policy.initialBackoff);
        outageStarted := None;
      }
      if f.kind.Transient? {
        if outageStarted.None? { outageStarted := Some(f.now); }
        var lasted := Elapsed(f.now, outageStarted.value);
        if lasted > policy.maxOutage { return Stopped(TransientOutage(lasted)); }
      } else {
        var within := budget.Record(f.now, policy);
        if !within { return Stopped(BudgetExhausted); }
      }
      var delay := backoff.Advance(policy.maxBackoff);
      return Restarted(delay);
    }
  }

  // ---- Runs -------------------------------------------------------------------------------------------

  /** The state after the failures `fs`. */
  function After(start: int, fs: seq<TaskFailure>, policy: RestartPolicy): State {
    if fs == [] then Initially(start, policy)
    else Decide(After(start, fs[..|fs| - 1], policy), fs[|fs| - 1], policy).0
  }

  /** The decision on the failure at `i`. */
  function DecisionAt(start: int, fs: seq<TaskFailure>, policy: RestartPolicy, i: nat): Decision
    requires i < |fs|
  {
    Decide(After(start, fs[..i], policy), fs[i], policy).1
  }

  /** Time does not go back. */
  ghost predicate InTime(start: int, fs: seq<TaskFailure>) {
    && (forall i :: 0 <= i < |fs| ==> start <= fs[i].now)
    && (forall i, j :: 0 <= i < j < |fs| ==> fs[i].now <= fs[j].now)
  }

  lemma PrefixInTime(start: int, fs: seq<TaskFailure>)
    requires InTime(start, fs) && fs != []
    ensures InTime(start, fs[..|fs| - 1])
  {
  }

  /** The failures that spend the budget. */
  function Faults(fs: seq<TaskFailure>): seq<TaskFailure> {
    if fs == [] then []
    else Faults(fs[..|fs| - 1]) + (if fs[|fs| - 1].Spends() then [fs[|fs| - 1]] else [])
  }

  lemma BudgetStep(s: State, t: State, f: TaskFailure, policy: RestartPolicy)
    requires s.budget == t.budget
    ensures Decide(s, f, policy).0.budget == Decide(t, f, policy).0.budget
    ensures !f.Spends() ==> Decide(s, f, policy).0.budget == s.budget
  {
  }

  /** Transient failures never change the budget: it is what the faults alone would make it. */
  lemma {:induction false} TransientsAreFree(start: int, fs: seq<TaskFailure>, policy: RestartPolicy)
    ensures After(start, fs, policy).budget == After(start, Faults(fs), policy).budget
  {
    if fs != [] {
      var before, last := fs[..|fs| - 1], fs[|fs| - 1];
      TransientsAreFree(start, before, policy);
      BudgetStep(After(start, before, policy), After(start, Faults(before), policy), last, policy);
      if last.Spends() {
        assert Faults(fs) == Faults(before) + [last];
        OneMore(start, Faults(before), last, policy, 0, 0);
      } else {
        assert Faults(fs) == Faults(before);
      }
    }
  }

  /** How many faults of `fs` fall in `[lo, hi)`. */
  function CountFaults(fs: seq<TaskFailure>, lo: int, hi: int): nat {
    if fs == [] then 0
    else
      CountFaults(fs[..|fs| - 1], lo, hi)
      + (if fs[|fs| - 1].Spends() && lo <= fs[|fs| - 1].now < hi then 1 else 0)
  }

  /** The count is covered by faults of the current window. */
  lemma {:induction false} CountIsCovered(start: int, fs: seq<TaskFailure>, policy: RestartPolicy)
    requires InTime(start, fs)
    ensures var b := After(start, fs, policy).budget;
      && b.count <= CountFaults(fs, b.windowStarted, b.windowStarted + policy.window + 1)
      && (fs != [] ==> b.windowStarted <= fs[|fs| - 1].now)
  {
    if fs != [] {
      PrefixInTime(start, fs);
      CountIsCovered(start, fs[..|fs| - 1], policy);
      WindowStartsBefore(start, fs[..|fs| - 1], policy, fs[|fs| - 1].now);
    }
  }

  lemma {:induction false} WindowStartsBefore(start: int, fs: seq<TaskFailure>, policy: RestartPolicy, now: int)
    requires start <= now && (forall i :: 0 <= i < |fs| ==> fs[i].now <= now)
    ensures After(start, fs, policy).budget.windowStarted <= now
  {
    if fs != [] { WindowStartsBefore(start, fs[..|fs| - 1], policy, now); }
  }

  /** The window from `lo` on holds more faults than the budget. */
  ghost predicate Overspent(fs: seq<TaskFailure>, lo: int, policy: RestartPolicy) {
    CountFaults(fs, lo, lo + policy.window + 1) > policy.maxRestarts
  }

  /** A budget stop means more faults than the budget within one window. */
  lemma BudgetStopMeansFaults(start: int, fs: seq<TaskFailure>, policy: RestartPolicy, i: nat)
    requires InTime(start, fs) && i < |fs| && DecisionAt(start, fs, policy, i) == Stopped(BudgetExhausted)
    ensures Overspent(fs[..i + 1], After(start, fs[..i + 1], policy).budget.windowStarted, policy)
  {
    var upTo := fs[..i + 1];
    assert upTo[..|upTo| - 1] == fs[..i];
    CountIsCovered(start, upTo, policy);
    var b := After(start, upTo, policy).budget;
    assert Overspent(upTo, b.windowStarted, policy);
  }

  /** How many faults of `fs` come at position `k` or later. */
  function FaultsFrom(fs: seq<TaskFailure>, k: nat): nat {
    if |fs| <= k then 0 else FaultsFrom(fs[..|fs| - 1], k) + (if fs[|fs| - 1].Spends() then 1 else 0)
  }

  /** The current window began with the failure at `k`, a fault more than a window after the start of the one
      before, or at `start`; all faults since then fall in it, and it counts them. */
  ghost predicate WindowFrom(start: int, fs: seq<TaskFailure>, policy: RestartPolicy, k: nat, b: Budget) {
    && k <= |fs|
    && (|| (k == 0 && b.windowStarted == start)
        || (&& k < |fs| && fs[k].Spends() && b.windowStarted == fs[k].now
            && fs[k].now > After(start, fs[..k], policy).budget.windowStarted + policy.window))
    && (forall j :: k <= j < |fs| && fs[j].Spends() ==> fs[j].now <= b.windowStarted + policy.window)
    && b.count == Min(FaultsFrom(fs, k), MAX_COUNT)
  }

  lemma {:induction false} WindowTracked(start: int, fs: seq<TaskFailure>, policy: RestartPolicy) returns (k: nat)
    requires InTime(start, fs)
    ensures WindowFrom(start, fs, policy, k, After(start, fs, policy).budget)
  {
    if fs == [] {
      k := 0;
    } else {
      var before, last := fs[..|fs| - 1], fs[|fs| - 1];
      PrefixInTime(start, fs);
      k := WindowTracked(start, before, policy);
      WindowStartsBefore(start, before, policy, last.now);
      assert fs == before + [last];
      OneMore(start, before, last, policy, 0, 0);
      k := WindowStep(start, before, last, policy, k, After(start, before, policy));
    }
  }

  lemma WindowStep(start: int, before: seq<TaskFailure>, last: TaskFailure, policy: RestartPolicy, k: nat, s: State)
    returns (k': nat)
    requires s == After(start, before, policy) && WindowFrom(start, before, policy, k, s.budget)
    requires s.budget.windowStarted <= last.now
    ensures WindowFrom(start, before + [last], policy, k', Decide(s, last, policy).0.budget)
  {
    if last.Spends() && last.now > s.budget.windowStarted + policy.window {
      WindowOpens(start, before, last, policy);
      k' := |before|;
    } else {
      WindowGoesOn(start, before, last, policy, k, s.budget, Decide(s, last, policy).0.budget);
      k' := k;
    }
  }

  lemma FaultsFromMore(before: seq<TaskFailure>, last: TaskFailure, k: nat)
    requires k <= |before|
    ensures FaultsFrom(before + [last], k) == FaultsFrom(before, k) + (if last.Spends() then 1 else 0)
  {
    assert (before + [last])[..|before|] == before;
  }

  lemma WindowOpens(start: int, before: seq<TaskFailure>, last: TaskFailure, policy: RestartPolicy)
    requires last.Spends() && last.now > After(start, before, policy).budget.windowStarted + policy.window
    ensures WindowFrom(start, before + [last], policy, |before|, Budget(1, last.now))
  {
    FaultsFromMore(before, last, |before|);
    assert (before + [last])[..|before|] == before;
  }

  lemma WindowGoesOn(start: int, before: seq<TaskFailure>, last: TaskFailure, policy: RestartPolicy, k: nat, b: Budget,
                     b': Budget)
    requires WindowFrom(start, before, policy, k, b) && b'.windowStarted == b.windowStarted
    requires last.Spends() ==> last.now <= b.windowStarted + policy.window
    requires b'.count == if last.Spends() then Min(b.count + 1, MAX_COUNT) else b.count
    ensures WindowFrom(start, before + [last], policy, k, b')
  {
    var fs := before + [last];
    FaultsFromMore(before, last, k);
    assert fs[..k] == before[..k];
    forall j | k <= j < |fs| && fs[j].Spends() ensures fs[j].now <= b'.windowStarted + policy.window {
      if j < |before| { assert fs[j] == before[j]; }
    }
  }

  /** The decision on the failure that ends `fs` is a stop exactly if it is a fault and makes more of them in
      the window from `k` on than the budget allows. The largest 32-bit budget allows any number. */
  ghost predicate StopsOverBudget(start: int, fs: seq<TaskFailure>, policy: RestartPolicy, k: nat, d: Decision) {
    && WindowFrom(start, fs, policy, k, After(start, fs, policy).budget)
    && fs != []
    && (d == Stopped(BudgetExhausted) <==>
          fs[|fs| - 1].Spends() && policy.maxRestarts < MAX_COUNT && FaultsFrom(fs, k) > policy.maxRestarts)
  }

  /** The runtime stops for its budget exactly at a fault that exceeds it in its window. */
  lemma BudgetStopsExactly(start: int, fs: seq<TaskFailure>, policy: RestartPolicy, i: nat)
    requires InTime(start, fs) && i < |fs| && policy.Valid()
    ensures var upTo, decision := fs[..i + 1], DecisionAt(start, fs, policy, i);
      exists k: nat :: StopsOverBudget(start, upTo, policy, k, decision)
  {
    var upTo := fs[..i + 1];
    assert upTo[..|upTo| - 1] == fs[..i];
    var k := WindowTracked(start, upTo, policy);
    assert StopsOverBudget(start, upTo, policy, k, DecisionAt(start, fs, policy, i));
  }

  // ---- Accepted restarts ----------------------------------------------------------------------------

  /** How many faults of `fs` that fall in `[lo, hi)` were restarted. */
  function Accepted(start: int, fs: seq<TaskFailure>, policy: RestartPolicy, lo: int, hi: int): nat {
    if fs == [] then 0
    else
      var before, last := fs[..|fs| - 1], fs[|fs| - 1];
      Accepted(start, before, policy, lo, hi)
      + (if last.Spends() && lo <= last.now < hi && Decide(After(start, before, policy), last, policy).1.Restarted?
         then 1 else 0)
  }

  lemma {:induction false} AcceptedSplits(start: int, fs: seq<TaskFailure>, policy: RestartPolicy, lo: int, mid: int,
                                          hi: int)
    requires lo <= mid <= hi
    ensures Accepted(start, fs, policy, lo, hi)
         == Accepted(start, fs, policy, lo, mid) + Accepted(start, fs, policy, mid, hi)
  {
    if fs != [] { AcceptedSplits(start, fs[..|fs| - 1], policy, lo, mid, hi); }
  }

  lemma {:induction false} AcceptedMonotone(start: int, fs: seq<TaskFailure>, policy: RestartPolicy, lo: int, hi: int,
                                            lo': int, hi': int)
    requires lo' <= lo && hi <= hi'
    ensures Accepted(start, fs, policy, lo, hi) <= Accepted(start, fs, policy, lo', hi')
  {
    if fs != [] { AcceptedMonotone(start, fs[..|fs| - 1], policy, lo, hi, lo', hi'); }
  }

  /** In the current window. */
  lemma {:induction false} AcceptedInWindow(start: int, fs: seq<TaskFailure>, policy: RestartPolicy, hi: int)
    requires InTime(start, fs) && policy.maxRestarts < MAX_COUNT
    ensures var b := After(start, fs, policy).budget;
      Accepted(start, fs, policy, b.windowStarted, hi) <= Min(b.count, policy.maxRestarts)
    ensures fs != [] ==> After(start, fs, policy).budget.windowStarted <= fs[|fs| - 1].now
  {
    if fs != [] {
      var before, last := fs[..|fs| - 1], fs[|fs| - 1];
      PrefixInTime(start, fs);
      AcceptedInWindow(start, before, policy, hi);
      WindowStartsBefore(start, before, policy, last.now);
      if After(start, fs, policy).budget.windowStarted != After(start, before, policy).budget.windowStarted {
        NoneAfter(start, before, policy, last.now, hi);
      }
    }
  }

  /** Faults beyond the current window would have started a new one. */
  lemma {:induction false} NoneAfter(start: int, fs: seq<TaskFailure>, policy: RestartPolicy, lo: int, hi: int)
    requires InTime(start, fs) && lo > After(start, fs, policy).budget.windowStarted + policy.window
    ensures Accepted(start, fs, policy, lo, hi) == 0
  {
    if fs != [] {
      var before, last := fs[..|fs| - 1], fs[|fs| - 1];
      PrefixInTime(start, fs);
      WindowStartsBefore(start, before, policy, last.now);
      NoneAfter(start, before, policy, lo, hi);
    }
  }

  /** What `[a, a + window]` holds, as the windows go by. */
  lemma {:induction false} AcceptedBefore(start: int, fs: seq<TaskFailure>, policy: RestartPolicy, a: int)
    requires InTime(start, fs) && policy.maxRestarts < MAX_COUNT
    ensures var ws := After(start, fs, policy).budget.windowStarted;
      if a + policy.window >= ws
      then a <= ws ==> Accepted(start, fs, policy, a, ws) <= policy.maxRestarts
      else Accepted(start, fs, policy, a, a + policy.window + 1) <= 2 * policy.maxRestarts
  {
    if fs != [] {
      var before, last := fs[..|fs| - 1], fs[|fs| - 1];
      PrefixInTime(start, fs);
      AcceptedBefore(start, before, policy, a);
      WindowStartsBefore(start, before, policy, last.now);
      var ws, ws' := After(start, before, policy).budget.windowStarted, After(start, fs, policy).budget.windowStarted;
      if ws' != ws {
        assert ws' == last.now > ws + policy.window;
        BeforeNewWindow(start, before, policy, a, ws, ws');
      }
      assert fs == before + [last];
      OneMore(start, before, last, policy, a, ws');
      OneMore(start, before, last, policy, a, a + policy.window + 1);
    }
  }

  /** When a window opens at `ws'`, the faults before it are those of the windows before. */
  lemma BeforeNewWindow(start: int, before: seq<TaskFailure>, policy: RestartPolicy, a: int, ws: int, ws': int)
    requires InTime(start, before) && policy.maxRestarts < MAX_COUNT
    requires ws == After(start, before, policy).budget.windowStarted && ws' > ws + policy.window
    requires if a + policy.window >= ws
      then a <= ws ==> Accepted(start, before, policy, a, ws) <= policy.maxRestarts
      else Accepted(start, before, policy, a, a + policy.window + 1) <= 2 * policy.maxRestarts
    ensures if a + policy.window >= ws'
      then a <= ws' ==> Accepted(start, before, policy, a, ws') <= policy.maxRestarts
      else Accepted(start, before, policy, a, a + policy.window + 1) <= 2 * policy.maxRestarts
  {
    AcceptedInWindow(start, before, policy, ws');
    if a > ws {
      if a <= ws' { AcceptedMonotone(start, before, policy, a, ws', ws, ws'); }
      AcceptedInWindow(start, before, policy, a + policy.window + 1);
      AcceptedMonotone(start, before, policy, a, a + policy.window + 1, ws, a + policy.window + 1);
    } else if a + policy.window >= ws {
      AcceptedInWindow(start, before, policy, a + policy.window + 1);
      AcceptedSplits(start, before, policy, a, ws, a + policy.window + 1);
    }
  }

  /** Any interval as long as the window holds at most twice the budget of restarted faults. */
  lemma TwiceTheBudget(start: int, fs: seq<TaskFailure>, policy: RestartPolicy, a: int)
    requires InTime(start, fs) && policy.maxRestarts < MAX_COUNT
    ensures Accepted(start, fs, policy, a, a + policy.window + 1) <= 2 * policy.maxRestarts
  {
    var ws := After(start, fs, policy).budget.windowStarted;
    var hi := a + policy.window + 1;
    AcceptedBefore(start, fs, policy, a);
    AcceptedInWindow(start, fs, policy, hi);
    if a > ws {
      AcceptedMonotone(start, fs, policy, a, hi, ws, hi);
    } else if a + policy.window >= ws {
      AcceptedSplits(start, fs, policy, a, ws, hi);
    }
  }

  /** `n` faults at time zero. */
  function Storm(n: nat): seq<TaskFailure> {
    if n == 0 then [] else Storm(n - 1) + [TaskFailure(0, 0, Fault)]
  }

  lemma {:induction false} StormShape(n: nat)
    ensures |Storm(n)| == n && InTime(0, Storm(n))
    ensures forall i :: 0 <= i < n ==> Storm(n)[i] == TaskFailure(0, 0, Fault)
  {
    if n > 0 { StormShape(n - 1); }
  }

  /** With the largest 32-bit budget the saturating count never exceeds it, and every fault is restarted. */
  lemma {:induction false} LargestBudgetNeverStops(n: nat, policy: RestartPolicy)
    requires policy.maxRestarts == MAX_COUNT
    ensures After(0, Storm(n), policy).budget.count <= MAX_COUNT
    ensures After(0, Storm(n), policy).budget.windowStarted == 0
    ensures Accepted(0, Storm(n), policy, 0, policy.window + 1) == n
  {
    if n > 0 {
      LargestBudgetNeverStops(n - 1, policy);
      OneMore(0, Storm(n - 1), TaskFailure(0, 0, Fault), policy, 0, policy.window + 1);
      NeverOver(After(0, Storm(n - 1), policy), TaskFailure(0, 0, Fault), policy);
    }
  }

  lemma OneMore(start: int, before: seq<TaskFailure>, last: TaskFailure, policy: RestartPolicy, lo: int, hi: int)
    ensures After(start, before + [last], policy) == Decide(After(start, before, policy), last, policy).0
    ensures Accepted(start, before + [last], policy, lo, hi) == Accepted(start, before, policy, lo, hi)
      + (if last.Spends() && lo <= last.now < hi && Decide(After(start, before, policy), last, policy).1.Restarted?
         then 1 else 0)
  {
    var fs := before + [last];
    assert fs[..|fs| - 1] == before && fs[|fs| - 1] == last;
  }

  lemma NeverOver(s: State, f: TaskFailure, policy: RestartPolicy)
    requires policy.maxRestarts == MAX_COUNT && s.budget.count <= MAX_COUNT && f.Spends()
    requires s.budget.windowStarted == f.now
    ensures Decide(s, f, policy).1.Restarted?
    ensures Decide(s, f, policy).0.budget.count <= MAX_COUNT && Decide(s, f, policy).0.budget.windowStarted == f.now
  {
  }

  /** The bound holds for every run exactly when the budget is below the largest count. */
  lemma BudgetBoundIff(policy: RestartPolicy)
    requires policy.Valid()
    ensures policy.maxRestarts < MAX_COUNT <==> Bounded(policy)
  {
    if policy.maxRestarts < MAX_COUNT {
      forall start, fs, a | InTime(start, fs) ensures WithinTwice(start, fs, policy, a) {
        TwiceTheBudget(start, fs, policy, a);
      }
    } else {
      StormShape(2 * MAX_COUNT + 1);
      LargestBudgetNeverStops(2 * MAX_COUNT + 1, policy);
      assert !WithinTwice(0, Storm(2 * MAX_COUNT + 1), policy, 0);
    }
  }

  ghost predicate WithinTwice(start: int, fs: seq<TaskFailure>, policy: RestartPolicy, a: int) {
    Accepted(start, fs, policy, a, a + policy.window + 1) <= 2 * policy.maxRestarts
  }

  ghost predicate Bounded(policy: RestartPolicy) {
    forall start, fs, a {:trigger WithinTwice(start, fs, policy, a)} ::
      InTime(start, fs) ==> WithinTwice(start, fs, policy, a)
  }

  // ---- Delays and outages -------------------------------------------------------------------------------

  function Pow2(k: nat): nat { if k == 0 then 1 else 2 * Pow2(k - 1) }

  /** How many restarts came before the failure at `i` since the last healthy run. */
  function Since(start: int, fs: seq<TaskFailure>, policy: RestartPolicy, i: nat): nat
    requires i < |fs|
  {
    if fs[i].ranFor >= policy.healthyAfter || i == 0 then 0
    else Since(start, fs, policy, i - 1) + (if DecisionAt(start, fs, policy, i - 1).Restarted? then 1 else 0)
  }

  lemma DoubleCapped(initial: nat, cap: nat, k: nat)
    requires initial <= cap
    ensures Min(2 * Min(initial * Pow2(k), cap), cap) == Min(initial * Pow2(k + 1), cap)
  {
    assert initial * Pow2(k + 1) == 2 * (initial * Pow2(k));
  }

  /** The delay that a restart at `i` waits: the first delay doubled once per restart since the last
      healthy run, up to the cap. */
  lemma {:induction false} DelayDoubles(start: int, fs: seq<TaskFailure>, policy: RestartPolicy, i: nat)
    requires policy.Valid() && i < |fs|
    ensures Rested(After(start, fs[..i], policy), fs[i], policy).next
         == Min(policy.initialBackoff * Pow2(Since(start, fs, policy, i)), policy.maxBackoff)
    ensures DecisionAt(start, fs, policy, i).Restarted? ==>
      DecisionAt(start, fs, policy, i).delay
      == Min(policy.initialBackoff * Pow2(Since(start, fs, policy, i)), policy.maxBackoff)
  {
    if i > 0 && fs[i].ranFor < policy.healthyAfter {
      DelayDoubles(start, fs, policy, i - 1);
      DoubleCapped(policy.initialBackoff, policy.maxBackoff, Since(start, fs, policy, i - 1));
      assert fs[..i][..|fs[..i]| - 1] == fs[..i - 1];
      NextDelay(After(start, fs[..i - 1], policy), fs[i - 1], policy);
    }
    NextDelay(After(start, fs[..i], policy), fs[i], policy);
  }

  /** Under a configured cap that is not above the first delay, every delay is the first one. */
  lemma LowCapKeepsDelay(start: int, fs: seq<TaskFailure>, i: nat, restartBackoff: nat, maxRestartBackoff: nat,
                         healthyAfter: nat, maxRestarts: nat, window: nat, maxOutage: nat)
    requires i < |fs| && maxRestartBackoff <= restartBackoff && maxRestarts <= MAX_COUNT
    ensures var policy := PolicyOf(restartBackoff, maxRestartBackoff, healthyAfter, maxRestarts, window, maxOutage);
      var decision := DecisionAt(start, fs, policy, i);
      decision.Restarted? ==> decision.delay == restartBackoff
  {
    var policy := PolicyOf(restartBackoff, maxRestartBackoff, healthyAfter, maxRestarts, window, maxOutage);
    DelayDoubles(start, fs, policy, i);
    PowerIsPositive(Since(start, fs, policy, i));
    TimesIsNoLess(restartBackoff, Pow2(Since(start, fs, policy, i)));
  }

  lemma {:induction false} TimesIsNoLess(x: nat, p: nat)
    requires p >= 1
    ensures x * p >= x
  {
    if p > 1 { TimesIsNoLess(x, p - 1); }
  }

  lemma {:induction false} PowerIsPositive(k: nat)
    ensures Pow2(k) >= 1
  {
    if k > 0 { PowerIsPositive(k - 1); }
  }

  lemma NextDelay(s: State, f: TaskFailure, policy: RestartPolicy)
    ensures var (s', decision) := Decide(s, f, policy);
      var next := Rested(s, f, policy).next;
      if decision.Restarted? then decision.delay == next && s'.next == Min(2 * next, policy.maxBackoff)
      else s'.next == next
  {
  }

  /** The first transient failure up to `i` since the last healthy run. */
  function OutageStart(fs: seq<TaskFailure>, policy: RestartPolicy, i: nat): Option<int>
    requires i < |fs|
  {
    var earlier := if fs[i].ranFor >= policy.healthyAfter || i == 0 then None else OutageStart(fs, policy, i - 1);
    if earlier.Some? then earlier else if fs[i].kind.Transient? then Some(fs[i].now) else None
  }

  lemma {:induction false} OutageTracked(start: int, fs: seq<TaskFailure>, policy: RestartPolicy, i: nat)
    requires i < |fs|
    ensures After(start, fs[..i + 1], policy).outage == OutageStart(fs, policy, i)
  {
    assert fs[..i + 1][..|fs[..i + 1]| - 1] == fs[..i];
    if i > 0 { OutageTracked(start, fs, policy, i - 1); }
  }

  /** A run stops for an outage exactly when a transient failure comes more than the limit after the
      first one since the last healthy run. */
  lemma OutageStops(start: int, fs: seq<TaskFailure>, policy: RestartPolicy, i: nat)
    requires i < |fs|
    ensures (DecisionAt(start, fs, policy, i).Stopped? && DecisionAt(start, fs, policy, i).reason.TransientOutage?) <==>
      && fs[i].kind.Transient?
      && OutageStart(fs, policy, i).Some? && Elapsed(fs[i].now, OutageStart(fs, policy, i).value) > policy.maxOutage
    ensures var decision := DecisionAt(start, fs, policy, i);
      decision.Stopped? && decision.reason.TransientOutage? ==>
        && OutageStart(fs, policy, i).Some?
        && decision.reason.lasted == Elapsed(fs[i].now, OutageStart(fs, policy, i).value)
  {
    OutageTracked(start, fs, policy, i);
    assert fs[..i + 1][..|fs[..i + 1]| - 1] == fs[..i];
  }
}
