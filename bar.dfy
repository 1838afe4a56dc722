/**
 * The Bar entity's rules: its companion BarSettings, the overdraft-fee ("agios") decision for one
 * account on one day, and the count of a bar's active accounts.
 */
module BarModel {
  import opened Types
  import opened AccountModel

  /** A row of the settings table; `last_modified` is not modelled. */
  datatype BarSettings = BarSettings(
    nextScheduledAppro: Option<Day>,
    moneyWarningThreshold: real,
    transactionCancelThreshold: real,  // in hours
    defaultTax: real,
    agiosEnabled: bool,
    agiosThreshold: real,              // in days
    agiosFactor: real)

  /** The settings get-or-create makes for a new bar: the field defaults. */
  const DEFAULT_SETTINGS: BarSettings := BarSettings(None, 15.0, 48.0, 0.2, true, 2.0, 0.05)

  /** An agios transaction as handed to the transaction serializer: bar, account and amount. */
  datatype AgiosTransaction = AgiosTransaction(bar: BarId, account: Pk, amount: real)

  function Abs(x: real): (r: real)
    ensures r >= 0.0 && (r == x || r == -x)
  {
    if x < 0.0 then -x else x
  }

  /** The fee on balance `money`: the overdrawn amount times the factor. */
  function AgiosFee(money: real, factor: real): (r: real)
    ensures money <= 0.0 ==> r == -money * factor
    ensures factor >= 0.0 ==> r >= 0.0
  {
    Abs(money) * factor
  }

  /**
   * The grace test: the whole days elapsed from `since` to `today`, as a time delta, are at
   * least a time delta of `threshold` days.
   */
  predicate ThresholdPassed(today: Day, since: Day, threshold: real)
  {
    (today - since) as real >= threshold
  }

  /**
   * Whether a time delta of `days` days can be built: Python's `timedelta` holds at most
   * 999999999 days (plus part of a day) either way, and raises OverflowError beyond that.
   */
  predicate TimedeltaInRange(days: real)
  {
    -999999999.0 <= days < 1000000000.0
  }

  /** What one run decides about the fee. */
  datatype Charge =
    | NoFee
    | Fee(amount: real)
    | NoSettings         // the fee test read the settings of a bar that has none
    | ThresholdOverflow  // the fee test built a time delta from a threshold out of its range

  /** The account's `overdrawn_since` after one run, and the run's fee decision. */
  datatype Step = Step(since: Option<Day>, charge: Charge)

  /**
   * One run of the agios engine on an account with balance `money` and overdraft start `since`,
   * in a bar with `settings` (None when the bar has no settings row), on day `today`.
   */
  function AgiosStep(money: real, since: Option<Day>, settings: Option<BarSettings>, today: Day): (r: Step)
    // a balance that is not negative clears the overdraft start and is never charged
    ensures money >= 0.0 ==> r == Step(None, NoFee)
    // a negative balance stamps today if no start is recorded, and never overwrites one
    ensures money < 0.0 ==> r.since == Some(if since.Some? then since.value else today)
    // the settings are consulted only for a negative balance
    ensures r.charge.NoSettings? <==> money < 0.0 && settings.None?
    // the threshold becomes a time delta only when agios are enabled, and fails when out of range
    ensures r.charge.ThresholdOverflow? <==>
      money < 0.0 && settings.Some? && settings.value.agiosEnabled
      && !TimedeltaInRange(settings.value.agiosThreshold)
    // a fee is due iff the balance is negative, agios are enabled and the grace period has passed
    ensures r.charge.Fee? <==>
      money < 0.0 && settings.Some? && settings.value.agiosEnabled
      && TimedeltaInRange(settings.value.agiosThreshold)
      && ThresholdPassed(today, r.since.value, settings.value.agiosThreshold)
    // the fee is the overdrawn amount times the factor
    ensures r.charge.Fee? ==> r.charge.amount == AgiosFee(money, settings.value.agiosFactor)
  {
    if money >= 0.0 && since.Some? then
      Step(None, NoFee)
    else if money < 0.0 then
      var stamped := if since.None? then today else since.value;
      if settings.None? then
        Step(Some(stamped), NoSettings)
      else if !settings.value.agiosEnabled then
        Step(Some(stamped), NoFee)
      else if !TimedeltaInRange(settings.value.agiosThreshold) then
        Step(Some(stamped), ThresholdOverflow)
      else if ThresholdPassed(today, stamped, settings.value.agiosThreshold) then
        Step(Some(stamped), Fee(AgiosFee(money, settings.value.agiosFactor)))
      else
        Step(Some(stamped), NoFee)
    else
      Step(since, NoFee)
  }

  /** The fee a run returns: the amount charged, or 0 when none is. */
  function Returned(c: Charge): (r: real)
  {
    if c.Fee? then c.amount else 0.0
  }

  /**
   * With a threshold of 0 or less, the run that first records an overdraft already charges,
   * because the fee test follows the stamping instead of being its alternative.
   */
  lemma NoGraceChargesOnFirstRun(money: real, s: BarSettings, today: Day)
    requires money < 0.0 && s.agiosEnabled && -999999999.0 <= s.agiosThreshold <= 0.0
    ensures AgiosStep(money, None, Some(s), today) == Step(Some(today), Fee(-money * s.agiosFactor))
  {
  }

  /**
   * A threshold too large for a time delta fails the run only after the overdraft start has been
   * stamped, and only when agios are enabled.
   */
  lemma HugeThresholdFailsAfterStamp(money: real, s: BarSettings, today: Day)
    requires money < 0.0 && s.agiosThreshold >= 1000000000.0
    ensures AgiosStep(money, None, Some(s), today)
         == Step(Some(today), if s.agiosEnabled then ThresholdOverflow else NoFee)
  {
  }

  /** The default two-day grace period, overdrawn from day 0 with balance -10. */
  lemma DefaultGracePeriod()
    ensures AgiosStep(-10.0, None, Some(DEFAULT_SETTINGS), 0) == Step(Some(0), NoFee)
    ensures AgiosStep(-10.0, Some(0), Some(DEFAULT_SETTINGS), 1) == Step(Some(0), NoFee)
    ensures AgiosStep(-10.0, Some(0), Some(DEFAULT_SETTINGS), 2) == Step(Some(0), Fee(0.5))
  {
  }

  /** One evaluation of the engine: the day it runs and the balance it finds. */
  datatype Run = Run(day: Day, money: real)

  /** The fee a step charged, if any. */
  function FeeOf(step: Step): (r: Option<real>)
  {
    if step.charge.Fee? then Some(step.charge.amount) else None
  }

  /**
   * Successive runs on one account of a bar with settings `s`, starting from overdraft start
   * `since`: the final overdraft start and the fee (if any) of each run. The balance each run
   * finds is part of the run, since the effect of a fee transaction on the balance is not modelled.
   */
  function Replay(since: Option<Day>, s: BarSettings, runs: seq<Run>): (r: (Option<Day>, seq<Option<real>>))
    ensures |r.1| == |runs|
    ensures runs != [] && runs[|runs| - 1].money >= 0.0 ==> r.0 == None
    decreases |runs|
  {
    if runs == [] then (since, [])
    else
      var step := AgiosStep(runs[0].money, since, Some(s), runs[0].day);
      var rest := Replay(step.since, s, runs[1..]);
      (rest.0, [FeeOf(step)] + rest.1)
  }

  /** Running `pre` and then `post` is running them as one sequence. */
  lemma {:induction false} ReplayAppend(since: Option<Day>, s: BarSettings, pre: seq<Run>, post: seq<Run>)
    ensures var first := Replay(since, s, pre);
            var second := Replay(first.0, s, post);
            Replay(since, s, pre + post) == (second.0, first.1 + second.1)
    decreases |pre|
  {
    if pre == [] {
      assert pre + post == post;
      assert [] + Replay(since, s, post).1 == Replay(since, s, post).1;
    } else {
      var step := AgiosStep(pre[0].money, since, Some(s), pre[0].day);
      assert (pre + post)[0] == pre[0];
      assert (pre + post)[1..] == pre[1..] + post;
      ReplayAppend(step.since, s, pre[1..], post);
      assert [FeeOf(step)] + (Replay(step.since, s, pre[1..]).1 + Replay(Replay(since, s, pre).0, s, post).1)
          == ([FeeOf(step)] + Replay(step.since, s, pre[1..]).1) + Replay(Replay(since, s, pre).0, s, post).1;
    }
  }

  /** Whether a run on `day` with balance `money`, in an episode that started on `start`, charges. */
  function EpisodeFee(s: BarSettings, start: Day, run: Run): (r: Option<real>)
  {
    if s.agiosEnabled && TimedeltaInRange(s.agiosThreshold) && ThresholdPassed(run.day, start, s.agiosThreshold) then Some(AgiosFee(run.money, s.agiosFactor)) else None
  }

  /**
   * Within one overdrawn episode that started on `start`, fees never move the clock: the start
   * stays put, and every run charges exactly when the grace period counted from `start` has passed.
   */
  lemma {:induction false} EpisodeKeepsClock(start: Day, s: BarSettings, runs: seq<Run>)
    requires forall i :: 0 <= i < |runs| ==> runs[i].money < 0.0
    ensures Replay(Some(start), s, runs).0 == Some(start)
    ensures forall i :: 0 <= i < |runs| ==> Replay(Some(start), s, runs).1[i] == EpisodeFee(s, start, runs[i])
  {
    if runs != [] {
      var step := AgiosStep(runs[0].money, Some(start), Some(s), runs[0].day);
      assert step.since == Some(start);
      EpisodeKeepsClock(start, s, runs[1..]);
      var rest := Replay(Some(start), s, runs[1..]).1;
      assert Replay(Some(start), s, runs).1 == [FeeOf(step)] + rest;
      forall i | 0 <= i < |runs|
        ensures Replay(Some(start), s, runs).1[i] == EpisodeFee(s, start, runs[i])
      {
        if i == 0 {
          assert Replay(Some(start), s, runs).1[0] == FeeOf(step);
          assert FeeOf(step) == EpisodeFee(s, start, runs[0]);
        } else {
          assert runs[1..][i - 1] == runs[i];
          assert Replay(Some(start), s, runs).1[i] == rest[i - 1];
        }
      }
    }
  }

  /**
   * An account that goes negative while no overdraft is recorded starts its episode on the day of
   * that run, and the episode's later runs are charged from that day.
   */
  lemma EpisodeStartsOnFirstRun(s: BarSettings, runs: seq<Run>)
    requires runs != []
    requires forall i :: 0 <= i < |runs| ==> runs[i].money < 0.0
    ensures Replay(None, s, runs).0 == Some(runs[0].day)
    ensures forall i :: 0 <= i < |runs| ==> Replay(None, s, runs).1[i] == EpisodeFee(s, runs[0].day, runs[i])
  {
    assert Replay(None, s, runs) == Replay(Some(runs[0].day), s, runs);
    EpisodeKeepsClock(runs[0].day, s, runs);
  }

  /**
   * The clock restarts only on recovery: after a run that finds a balance that is not negative,
   * the next overdrawn episode counts from its own first run, whatever came before.
   */
  lemma RecoveryRestartsClock(since: Option<Day>, s: BarSettings, pre: seq<Run>, post: seq<Run>)
    requires pre != [] && pre[|pre| - 1].money >= 0.0
    requires post != [] && forall i :: 0 <= i < |post| ==> post[i].money < 0.0
    ensures Replay(since, s, pre + post).0 == Some(post[0].day)
    ensures forall i :: 0 <= i < |post| ==>
      Replay(since, s, pre + post).1[|pre| + i] == EpisodeFee(s, post[0].day, post[i])
  {
    ReplayAppend(since, s, pre, post);
    EpisodeStartsOnFirstRun(s, post);
  }

  /** The account rows that `count_accounts` counts for `bar`: its rows not flagged deleted. */
  function ActiveAccounts(accounts: map<Pk, Account>, bar: BarId): (r: set<Pk>)
  {
    set k | k in accounts && accounts[k].bar == bar && !accounts[k].deleted
  }

  /** A bar never counts more accounts than the table has rows. */
  lemma CountAtMostRows(accounts: map<Pk, Account>, bar: BarId)
    ensures |ActiveAccounts(accounts, bar)| <= |accounts|
  {
    SubsetCardinality(ActiveAccounts(accounts, bar), accounts.Keys);
    assert |accounts.Keys| == |accounts|;
  }

  lemma {:induction false} SubsetCardinality<T>(a: set<T>, b: set<T>)
    requires a <= b
    ensures |a| <= |b|
    decreases b
  {
    if a != {} {
      var x :| x in a;
      SubsetCardinality(a - {x}, b - {x});
    }
  }

  /** Whether account `a` is counted for `bar`, as 0 or 1. */
  function Counted(a: Account, bar: BarId): (r: nat)
  {
    if a.bar == bar && !a.deleted then 1 else 0
  }

  /** Writing one row changes a bar's count by what that row counted before and counts now. */
  lemma CountAfterWrite(accounts: map<Pk, Account>, pk: Pk, a: Account, bar: BarId)
    ensures |ActiveAccounts(accounts[pk := a], bar)| + (if pk in accounts then Counted(accounts[pk], bar) else 0)
         == |ActiveAccounts(accounts, bar)| + Counted(a, bar)
  {
    var before, after := ActiveAccounts(accounts, bar), ActiveAccounts(accounts[pk := a], bar);
    var others := before - {pk};
    assert after - {pk} == others;
    if Counted(a, bar) == 1 { assert after == others + {pk}; } else { assert after == others; }
    if pk in accounts && Counted(accounts[pk], bar) == 1 { assert before == others + {pk}; } else { assert before == others; }
  }
}
