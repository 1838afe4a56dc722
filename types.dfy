/** Identifiers, optional values and the errors shared by the account and bar models. */
module Types {

  datatype Option<T> = None | Some(value: T)

  /** The database errors the modelled code can raise. */
  datatype Error =
    | IntegrityError        // a write that would give two accounts the same (bar, owner)
    | SettingsDoesNotExist  // `bar.settings` read for a bar that has no BarSettings row
    | OverflowError         // a time delta built from a number of days outside its range

  datatype Result<T> = Ok(value: T) | Err(error: Error)

  /** A bar's primary key is its `id` string. */
  type BarId = string

  /** A user's primary key. */
  type UserId = nat

  /** An auto-increment primary key. Keys start at 1; Django treats a key of 0 like no key at all. */
  type Pk = k: nat | k > 0 witness 1

  /** A calendar date, as a day number; the difference of two dates is a whole number of days. */
  type Day = int
}
