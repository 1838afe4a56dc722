# Overdraft fees ("agios") and account bookkeeping of a bar ledger

This project models the core of a bar-tab ledger server: the per-bar account table, the
per-bar settings, and the overdraft-fee engine `Bar.apply_agios`. That engine looks at one
account on one day. It clears the account's overdraft start once the balance is no longer
negative. It stamps the start on the first run that finds a negative balance. It creates one
agios transaction of `abs(money) * agios_factor` once the grace threshold has passed.

Files and modules:

- `types.dfy` (`Types`): optional values, the three errors the code can raise
  (`IntegrityError`, `SettingsDoesNotExist`, `OverflowError`), keys, and days.
- `account.dfy` (`AccountModel`): the `Account` and `Role` rows, the field defaults, and the
  `unique_together ("bar", "owner")` constraint.
- `bar.dfy` (`BarModel`): `BarSettings` and its defaults, and one agios run as the pure function
  `AgiosStep`. It also holds `Replay`, which folds successive runs, the episode lemmas about it,
  and the set of accounts that `count_accounts` counts.
- `ledger.dfy` (`Ledger`): the class `Store`. Its fields are the tables (bars, settings,
  accounts by primary key, roles, agios transactions). Its methods are the operations that
  change them: `Bar.save`, `Account.save`, `get_default_account`, `apply_agios` and
  `makeAgiosTransaction`. `Valid()` is the store's invariant: every bar has exactly one settings
  row, account keys stay below the auto-increment counter, no two accounts share a (bar, owner)
  pair, and no role row appears twice.

Modelling choices:

- Money and factors are `real`. A date is an integer day number. `date.today()` is the
  parameter `today`.
- The grace test compares the whole days elapsed, as a real number, with the threshold in days.
- `get_default_user()` is the parameter `defaultUser`, because the user table is not part of
  this model.
- A primary key is a positive integer, so `not self.pk` holds exactly for a missing key.
  Saving an account without a key first runs get-or-create of its `customer` role, then inserts
  the row. Saving with a key writes that row (update or insert).
- A write that would give a second row the same (bar, owner) fails with `IntegrityError`.
  Because the role is created before the insert, a failed first save still leaves the role, as
  the code is written under autocommit.
- Django's `get_or_create` creates through `save()`. So `get_default_account` also gives the
  default user the `customer` role in that bar.
- `apply_agios` reads `self.settings` only on the negative-balance path, and only after the
  overdraft start has been saved. A bar without settings therefore gets the stamp and then
  `SettingsDoesNotExist`. Under `Valid()` this cannot happen for a saved bar.
- When agios are enabled, the fee test builds `timedelta(agios_threshold)`. Python's `timedelta`
  holds at most 999999999 days either way, so a threshold below -999999999 days or of 10^9 days
  or more raises `OverflowError`, again after the stamp has been saved. The model returns
  `OverflowError` there (`ThresholdOverflow` in `AgiosStep`). The `and` short-circuits, so a bar
  with agios disabled never builds the delta (`HugeThresholdFailsAfterStamp`).
- The fee check at bar.py:41 follows the stamping branch; it is not its `else`. With a threshold
  of 0 or less, the run that stamps the overdraft also charges. One might expect the stamping
  run to start a grace period; the code charges at once (`NoGraceChargesOnFirstRun`).
- A fee never resets the clock. Only a run that finds a non-negative balance does
  (`EpisodeKeepsClock`, `RecoveryRestartsClock`).

## Model

| member | source | states |
|---|---|---|
| `AccountModel.NewAccount` | bars_core/models/account.py:21-26 | a new account of (bar, owner) has money 0, no overdraft start and is not deleted |
| `AccountModel.WriteKeepsUniqueIff` | bars_core/models/account.py:18 | writing a row under a key keeps (bar, owner) unique if and only if no other row already holds its pair, so the integrity check refuses exactly the writes that break the constraint |
| `AccountModel.WithRole` | bars_core/models/account.py:34 | get-or-create of a role: afterwards the role is present, nothing else is added, and a table without duplicates stays without duplicates |
| `BarModel.AgiosFee` | bars_core/models/bar.py:42 | on an overdrawn balance the fee is minus the balance times the factor; it is never negative for a non-negative factor |
| `BarModel.AgiosStep` | bars_core/models/bar.py:32-46 | a non-negative balance clears the overdraft start and is never charged; a negative one stamps `today` only when no start is recorded and never overwrites one; a fee is due iff the balance is negative, agios are enabled and the elapsed days reach the threshold; its amount is `abs(money) * agios_factor`; settings are read only on the negative path; with agios enabled, a threshold outside `timedelta`'s range fails after the stamp and charges nothing |
| `BarModel.HugeThresholdFailsAfterStamp` | bars_core/models/bar.py:37-41 | a threshold of 10^9 days or more stamps the overdraft start and then fails with an overflow when agios are enabled, and charges nothing when they are disabled |
| `BarModel.NoGraceChargesOnFirstRun` | bars_core/models/bar.py:37-42 | with threshold at most 0 (and within `timedelta`'s range), the run that first records the overdraft already charges the fee and stamps today |
| `BarModel.DefaultGracePeriod` | bars_core/models/bar.py:193-195 | with the default settings (enabled, 2 days, 0.05), an account with balance -10 overdrawn on day 0 is not charged on days 0 and 1 and is charged 0.5 on day 2, its start staying day 0 |
| `BarModel.Replay` | bars_core/models/bar.py:32-46 | successive runs yield exactly one fee decision per run (at most one transaction per call), and a last run on a non-negative balance leaves no overdraft start |
| `BarModel.ReplayAppend` | bars_core/models/bar.py:32-46 | running two batches of runs one after the other is the same as running them as one sequence |
| `BarModel.EpisodeKeepsClock` | bars_core/models/bar.py:36-44 | while the balance stays negative, the recorded start never moves, and each run charges exactly when the grace period counted from that start has passed |
| `BarModel.EpisodeStartsOnFirstRun` | bars_core/models/bar.py:37-44 | an episode with no recorded start counts from the day of its first run, and its later runs are charged from that day |
| `BarModel.RecoveryRestartsClock` | bars_core/models/bar.py:32-39 | after a run on a non-negative balance, the next overdrawn episode counts from its own first run, whatever happened before |
| `BarModel.CountAtMostRows` | bars_core/models/bar.py:48-52 | a bar never counts more active accounts than the table has rows |
| `BarModel.CountAfterWrite` | bars_core/models/bar.py:48-52 | writing one account row changes a bar's active-account count by what the old row counted and what the new row counts |
| `Ledger.Store.CountAccounts` | bars_core/models/bar.py:48-52 | the number of the bar's accounts not flagged deleted (a sanity bound: at most the number of rows) |
| `Ledger.Store.SaveBar` | bars_core/models/bar.py:22-25 | after saving a bar it has exactly one settings row; the defaults `BarModel.DEFAULT_SETTINGS` (the field defaults of bars_core/models/bar.py:188-195: no scheduled appro, warning 15, cancel threshold 48 hours, tax 0.2, agios enabled, threshold 2 days, factor 0.05) are used only if it had none, and an existing row is kept as it is |
| `Ledger.Store.GetOrCreateRole` | bars_core/models/account.py:34 | a role is inserted iff absent, so an existing role is never duplicated |
| `Ledger.Store.SaveAccount` | bars_core/models/account.py:32-35 | a save without a key gets or creates the `customer` role of (bar, owner) and inserts under a fresh key; a save with a key leaves the role table unchanged and writes that key; a write that clashes with another row's (bar, owner) fails with an integrity error and leaves the accounts unchanged; the store invariant, uniqueness included, is kept |
| `Ledger.Store.FindAccount` | bars_core/models/account.py:98 | the lookup of get-or-create: finds an account of (bar, owner) iff one exists |
| `Ledger.Store.GetDefaultAccount` | bars_core/models/account.py:93-99 | returns the only account of the default user in the bar; if one existed nothing changes, otherwise one new default account is inserted under the next key, the key counter advances by one, the default user gets the `customer` role, and the bar's count grows by one |
| `Ledger.Store.GetDefaultAccountTwice` | bars_core/models/account.py:93-99 | both calls return the account of the default user in the bar; a second call returns the same account as the first and changes no table; together they create at most the one account and role the first call would |
| `Ledger.Store.MakeAgiosTransaction` | bars_core/models/bar.py:55-68 | appends one agios transaction with the bar, the account and the amount, and changes no other table |
| `Ledger.Store.ApplyAgios` | bars_core/models/bar.py:27-46 | the account's overdraft start becomes what `AgiosStep` decides and nothing else in the row changes; at most one agios transaction is appended, exactly when a fee is due, and its amount is returned (0 otherwise); a bar without settings fails after the stamp, which a saved bar never does; a threshold outside `timedelta`'s range fails with an overflow after the stamp; a saved bar with a threshold in range never fails; no count changes |

## Left out

- The ranking and statistics routes of both files (the sell-item, punishment and item rankings, and the account stats, total spent, ranking and `me` routes): they are database aggregations through a statistics helper that is not part of this model.
- The serializers and view sets of both files: request and response plumbing.
- `Ledger.Store.MakeAgiosTransaction`: only the append of (bar, account, amount) to a log is modelled. The agios transaction serializer that validates and applies it is not part of this model, so its effect on the balance is not modelled, and neither is the permission bypass for the default user.
- `BarModel.Replay`: the balance each run finds is an input, because the fee transaction's effect on the balance is not modelled.
- `Ledger.Store.ApplyAgios`: it works on an account row already stored, as its caller (a periodic script that is not part of this model) passes accounts loaded from the table. An unsaved in-memory account is not modelled.
- `last_modified` (`auto_now`) fields and `next_scheduled_appro`'s time of day: clocks. `next_scheduled_appro` is kept as an optional day number.
- Floating-point rounding of the `FloatField` money, threshold and factor, and the microsecond rounding of `timedelta` with fractional days (which decides the overflow for a threshold within a microsecond of 10^9 days): real arithmetic is used instead.
- Foreign-key checks (an account or settings row whose bar row does not exist) and the user table: not modelled.
- Database locking and concurrent updates: the model is sequential.
- Django's treatment of a primary key of 0 as missing: keys are positive here, so a key of 0 cannot occur.
