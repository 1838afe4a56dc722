/**
 * The persisted tables the bar and account models read and write, as one store, and the
 * operations on them: saving a bar or an account, get-or-create of the default account,
 * the agios run on one account, and the count of a bar's active accounts.
 */
module Ledger {
  import opened Types
  import opened AccountModel
  import opened BarModel

  class Store {
    var bars: map<BarId, string>            // the bar table: id to name
    var settings: map<BarId, BarSettings>   // the settings table, keyed by its one-to-one bar
    var accounts: map<Pk, Account>          // the account table, by primary key
    var nextPk: Pk                          // the next auto-increment account key
    var roles: seq<Role>                    // the role table, in insertion order
    var agios: seq<AgiosTransaction>        // the agios transactions created, in order

    /** Every bar has exactly its one settings row; account keys stay below the counter; the tables' uniqueness. */
    ghost predicate Valid()
      reads this
    {
      && settings.Keys == bars.Keys
      && (forall k :: k in accounts ==> k < nextPk)
      && UniqueOwners(accounts)
      && NoDuplicates(roles)
    }

    /** An empty database. */
    constructor ()
      ensures Valid()
      ensures bars == map[] && settings == map[] && accounts == map[] && roles == [] && agios == []
    {
      bars, settings, accounts, nextPk, roles, agios := map[], map[], map[], 1, [], [];
    }

    /** `Bar.count_accounts`: the number of the bar's accounts that are not flagged deleted. */
    function CountAccounts(bar: BarId): (n: nat)
      reads this
      ensures n <= |accounts|
    {
      CountAtMostRows(accounts, bar);
      |ActiveAccounts(accounts, bar)|
    }

    /** `Bar.save`: write the bar row, then get-or-create its settings. */
    method SaveBar(id: BarId, name: string)
      requires Valid()
      modifies this
      ensures Valid()
      ensures bars == old(bars)[id := name]
      // exactly one settings row for the bar; an existing one is kept as it is, not reset
      ensures id in settings
      ensures settings == if id in old(settings) then old(settings) else old(settings)[id := DEFAULT_SETTINGS]
      ensures accounts == old(accounts) && nextPk == old(nextPk) && roles == old(roles) && agios == old(agios)
    {
      bars := bars[id := name];
      if id !in settings {
        settings := settings[id := DEFAULT_SETTINGS];
      }
    }

    /** `Role.objects.get_or_create(name, bar, user)`. */
    method GetOrCreateRole(name: string, bar: BarId, user: UserId) returns (created: bool)
      requires Valid()
      modifies this
      ensures Valid()
      ensures created <==> Role(name, bar, user) !in old(roles)
      ensures roles == WithRole(old(roles), Role(name, bar, user))
      ensures bars == old(bars) && settings == old(settings) && accounts == old(accounts)
      ensures nextPk == old(nextPk) && agios == old(agios)
    {
      var role := Role(name, bar, user);
      created := role !in roles;
      if created {
        roles := roles + [role];
      }
    }

    /**
     * `Account.save` of in-memory account `a` whose primary key is `pk`. An account without a key
     * first gets its customer role (get-or-create), then is inserted under a fresh key; one with a
     * key is written under it. A write another row's (bar, owner) already holds is refused, but a
     * role created before a refused insert stays.
     */
    method SaveAccount(a: Account, pk: Option<Pk>) returns (r: Result<Pk>)
      requires Valid()
      modifies this
      ensures Valid()
      ensures roles == if pk.None? then WithRole(old(roles), Role(CUSTOMER, a.bar, a.owner)) else old(roles)
      ensures r.Err? <==> Clashes(old(accounts), pk, a.bar, a.owner)
      ensures r.Err? ==> r.error == IntegrityError && accounts == old(accounts) && nextPk == old(nextPk)
      ensures r.Ok? ==> accounts == old(accounts)[r.value := a]
      ensures r.Ok? && pk.Some? ==> r.value == pk.value
      ensures r.Ok? && pk.None? ==> r.value == old(nextPk) && r.value !in old(accounts)
      ensures r.Ok? ==> nextPk == if old(nextPk) <= r.value then r.value + 1 else old(nextPk)
      ensures bars == old(bars) && settings == old(settings) && agios == old(agios)
    {
      if pk.None? {
        var _ := GetOrCreateRole(CUSTOMER, a.bar, a.owner);
      }
      if Clashes(accounts, pk, a.bar, a.owner) {
        return Err(IntegrityError);
      }
      var key := if pk.None? then nextPk else pk.value;
      WriteKeepsUniqueIff(accounts, key, a);
      accounts := accounts[key := a];
      if nextPk <= key {
        nextPk := key + 1;
      }
      r := Ok(key);
    }

    /** Look up the account of (bar, owner). */
    method FindAccount(bar: BarId, owner: UserId) returns (r: Option<Pk>)
      ensures r.Some? ==> r.value in accounts && accounts[r.value].bar == bar && accounts[r.value].owner == owner
      ensures r.None? <==> !HasAccount(accounts, bar, owner)
    {
      if HasAccount(accounts, bar, owner) {
        var k :| k in accounts && accounts[k].bar == bar && accounts[k].owner == owner;
        r := Some(k);
      } else {
        r := None;
      }
    }

    /**
     * `get_default_account(bar)`: get-or-create of the account of the default user (given, since
     * it comes from the user table) in `bar`. Creating goes through `Account.save` without a key,
     * so the default user also gets the customer role.
     */
    method GetDefaultAccount(bar: BarId, defaultUser: UserId) returns (pk: Pk)
      requires Valid()
      modifies this
      ensures Valid()
      ensures pk in accounts && accounts[pk].bar == bar && accounts[pk].owner == defaultUser
      // the only account of that pair
      ensures forall k :: k in accounts && accounts[k].bar == bar && accounts[k].owner == defaultUser ==> k == pk
      ensures HasAccount(old(accounts), bar, defaultUser) ==>
        accounts == old(accounts) && roles == old(roles) && nextPk == old(nextPk)
      ensures !HasAccount(old(accounts), bar, defaultUser) ==>
        pk == old(nextPk) && pk !in old(accounts) && accounts == old(accounts)[pk := NewAccount(bar, defaultUser)]
        && nextPk == old(nextPk) + 1
        && roles == WithRole(old(roles), Role(CUSTOMER, bar, defaultUser))
        && CountAccounts(bar) == old(CountAccounts(bar)) + 1
      ensures bars == old(bars) && settings == old(settings) && agios == old(agios)
    {
      var found := FindAccount(bar, defaultUser);
      if found.Some? {
        return found.value;
      }
      ghost var before := accounts;
      var saved := SaveAccount(NewAccount(bar, defaultUser), None);
      pk := saved.value;
      CountAfterWrite(before, pk, NewAccount(bar, defaultUser), bar);
    }

    /** A second `get_default_account` returns the account the first one did and changes nothing. */
    method GetDefaultAccountTwice(bar: BarId, defaultUser: UserId) returns (first: Pk, second: Pk)
      requires Valid()
      modifies this
      ensures Valid()
      ensures first == second
      ensures first in accounts && accounts[first].bar == bar && accounts[first].owner == defaultUser
      ensures HasAccount(old(accounts), bar, defaultUser) ==>
        first in old(accounts) && accounts == old(accounts) && roles == old(roles) && nextPk == old(nextPk)
      ensures !HasAccount(old(accounts), bar, defaultUser) ==>
        first == old(nextPk) && first !in old(accounts) && accounts == old(accounts)[first := NewAccount(bar, defaultUser)]
        && nextPk == old(nextPk) + 1
        && roles == WithRole(old(roles), Role(CUSTOMER, bar, defaultUser))
      ensures bars == old(bars) && settings == old(settings) && agios == old(agios)
    {
      first := GetDefaultAccount(bar, defaultUser);
      ghost var accountsBetween, rolesBetween, nextPkBetween := accounts, roles, nextPk;
      second := GetDefaultAccount(bar, defaultUser);
      assert accounts == accountsBetween && roles == rolesBetween && nextPk == nextPkBetween;
    }

    /** `makeAgiosTransaction`: record an agios transaction of `amount` on account `pk` in `bar`. */
    method MakeAgiosTransaction(bar: BarId, pk: Pk, amount: real)
      modifies this
      ensures agios == old(agios) + [AgiosTransaction(bar, pk, amount)]
      ensures bars == old(bars) && settings == old(settings) && accounts == old(accounts)
      ensures nextPk == old(nextPk) && roles == old(roles)
    {
      agios := agios + [AgiosTransaction(bar, pk, amount)];
    }

    /** The settings row of `bar`, if it has one. */
    function SettingsOf(bar: BarId): (r: Option<BarSettings>)
      reads this
    {
      if bar in settings then Some(settings[bar]) else None
    }

    /**
     * `Bar.apply_agios` of `bar` on the persisted account `pk`, run on day `today`: clear or stamp
     * the overdraft start as `AgiosStep` decides, creating the step's agios transaction if any and
     * returning its amount (0 when none is charged).
     */
    method ApplyAgios(bar: BarId, pk: Pk, today: Day) returns (r: Result<real>)
      requires Valid() && pk in accounts
      modifies this
      ensures Valid()
      ensures
        var a := old(accounts[pk]);
        var step := AgiosStep(a.money, a.overdrawnSince, old(SettingsOf(bar)), today);
        && accounts == old(accounts)[pk := a.(overdrawnSince := step.since)]
        && agios == old(agios) + (if step.charge.Fee? then [AgiosTransaction(bar, pk, step.charge.amount)] else [])
        && r == (if step.charge.NoSettings? then Err(SettingsDoesNotExist)
                 else if step.charge.ThresholdOverflow? then Err(OverflowError)
                 else Ok(Returned(step.charge)))
      // a saved bar always has its settings, so it fails only on a threshold out of range
      ensures bar in bars ==> r != Err(SettingsDoesNotExist)
      ensures bar in old(bars) && TimedeltaInRange(old(settings)[bar].agiosThreshold) ==> r.Ok?
      ensures forall b :: CountAccounts(b) == old(CountAccounts(b))
      ensures bars == old(bars) && settings == old(settings) && roles == old(roles) && nextPk == old(nextPk)
    {
      var account := accounts[pk];
      ghost var before := accounts;
      r := Ok(0.0);
      if account.money >= 0.0 && account.overdrawnSince.Some? {
        account := account.(overdrawnSince := None);
        var _ := SaveAccount(account, Some(pk));
      } else if account.money < 0.0 {
        if account.overdrawnSince.None? {
          account := account.(overdrawnSince := Some(today));
          var _ := SaveAccount(account, Some(pk));
        }
        if bar !in settings {
          r := Err(SettingsDoesNotExist);
        } else if settings[bar].agiosEnabled {
          if !TimedeltaInRange(settings[bar].agiosThreshold) {
            r := Err(OverflowError);
          } else if ThresholdPassed(today, account.overdrawnSince.value, settings[bar].agiosThreshold) {
            var delta := AgiosFee(account.money, settings[bar].agiosFactor);
            MakeAgiosTransaction(bar, pk, delta);
            r := Ok(delta);
          }
        }
      }
      forall b ensures CountAccounts(b) == |ActiveAccounts(before, b)| {
        CountAfterWrite(before, pk, account, b);
      }
    }
  }
}
