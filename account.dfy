/** The Account entity: one user's balance in one bar, and the Role rows its first save creates. */
module AccountModel {
  import opened Types

  /** A row of the account table; `last_modified` is not modelled. */
  datatype Account = Account(
    bar: BarId,
    owner: UserId,
    money: real,
    overdrawnSince: Option<Day>,
    deleted: bool)

  /** A row of the role table. */
  datatype Role = Role(name: string, bar: BarId, user: UserId)

  const CUSTOMER: string := "customer"

  /** An account as the model's field defaults make it. */
  function NewAccount(bar: BarId, owner: UserId): (a: Account)
    ensures a.bar == bar && a.owner == owner
    ensures a.money == 0.0 && a.overdrawnSince == None && !a.deleted
  {
    Account(bar, owner, 0.0, None, false)
  }

  /** The unique_together ("bar", "owner") constraint of the account table. */
  ghost predicate UniqueOwners(accounts: map<Pk, Account>)
  {
    forall i, j ::
      i in accounts && j in accounts && accounts[i].bar == accounts[j].bar && accounts[i].owner == accounts[j].owner
      ==> i == j
  }

  /** Some row other than the one keyed `pk` already belongs to (bar, owner). */
  predicate Clashes(accounts: map<Pk, Account>, pk: Option<Pk>, bar: BarId, owner: UserId)
  {
    exists k :: k in accounts && (pk.None? || k != pk.value)
      && accounts[k].bar == bar && accounts[k].owner == owner
  }

  /** Some row belongs to (bar, owner). */
  predicate HasAccount(accounts: map<Pk, Account>, bar: BarId, owner: UserId)
  {
    exists k :: k in accounts && accounts[k].bar == bar && accounts[k].owner == owner
  }

  /**
   * The database refuses a write exactly when it would break the constraint: writing `a`
   * under key `pk` keeps (bar, owner) unique iff no other row already holds a's pair.
   */
  lemma WriteKeepsUniqueIff(accounts: map<Pk, Account>, pk: Pk, a: Account)
    requires UniqueOwners(accounts)
    ensures UniqueOwners(accounts[pk := a]) <==> !Clashes(accounts, Some(pk), a.bar, a.owner)
  {
    var m := accounts[pk := a];
    if Clashes(accounts, Some(pk), a.bar, a.owner) {
      var k :| k in accounts && k != pk && accounts[k].bar == a.bar && accounts[k].owner == a.owner;
      assert k in m && m[k] == accounts[k] && pk in m && m[pk] == a;
    }
  }

  /** The role table holds no row twice. */
  ghost predicate NoDuplicates(roles: seq<Role>)
  {
    forall i, j :: 0 <= i < j < |roles| ==> roles[i] != roles[j]
  }

  /** The role table after get-or-create of `role`. */
  function WithRole(roles: seq<Role>, role: Role): (r: seq<Role>)
    ensures role in r
    ensures forall x :: x in r <==> x in roles || x == role
    ensures NoDuplicates(roles) ==> NoDuplicates(r)
  {
    if role in roles then roles else roles + [role]
  }
}
