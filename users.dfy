/**
 * The user collection as the auth controller sees it: records keyed by id, looked up
 * by id, by email or by reset-token hash, and written back by `save()`.
 */
module Users {
  import opened Wrappers

  type UserId = nat

  /** The schema's roles 'user', 'guide', 'lead-guide' and 'admin'. */
  datatype Role = RegularUser | Guide | LeadGuide | Admin

  /**
   * A user document. `password` is None in a document read without `+password`
   * or after `user.password = undefined`; the stored record always has one.
   * Timestamps are milliseconds since the epoch.
   */
  datatype User = User(
    email: string,
    password: Option<string>,
    role: Role,
    passwordResetToken: Option<string>,
    passwordResetExpires: Option<int>,
    passwordChangedAt: Option<int>)

  /** The document as default queries return it: the password is not selected. */
  function Public(u: User): (v: User)
    ensures v.password == None
    ensures v.(password := u.password) == u
  {
    u.(password := None)
  }

  /** The filter `{ passwordResetToken: hash, passwordResetExpires: { $gt: now } }`. */
  predicate ResetMatches(u: User, hash: string, now: int) {
    u.passwordResetToken == Some(hash) && u.passwordResetExpires.Some? && u.passwordResetExpires.value > now
  }

  /** The intended compensating write: no reset secret is left behind. */
  function ClearResetFields(u: User): (v: User)
    ensures v.passwordResetToken == None && v.passwordResetExpires == None
    ensures forall hash, now :: !ResetMatches(v, hash, now)
    ensures v.(passwordResetToken := u.passwordResetToken, passwordResetExpires := u.passwordResetExpires) == u
  {
    u.(passwordResetToken := None, passwordResetExpires := None)
  }

  /** A reset hash is always accompanied by an expiry. */
  predicate ResetFieldsConsistent(u: User) {
    u.passwordResetToken.Some? ==> u.passwordResetExpires.Some?
  }

  /** No two records hold the same reset hash. */
  ghost predicate ResetHashesUnique(users: map<UserId, User>) {
    forall a, b :: a in users && b in users && a != b && users[a].passwordResetToken.Some? ==>
      users[a].passwordResetToken != users[b].passwordResetToken
  }

  class UserStore {
    var users: map<UserId, User>

    /** Every stored record has a password. */
    ghost predicate Valid()
      reads this
    {
      forall id :: id in users ==> users[id].password.Some?
    }

    constructor (initial: map<UserId, User>)
      requires forall id :: id in initial ==> initial[id].password.Some?
      ensures Valid() && users == initial
    {
      users := initial;
    }

    /** `User.findOne({ email })`: some record with that email; which one is unspecified. */
    method FindByEmail(email: string) returns (found: Option<UserId>)
      ensures found.Some? ==> found.value in users && users[found.value].email == email
      ensures found.None? ==> forall id :: id in users ==> users[id].email != email
    {
      if exists id :: id in users && users[id].email == email {
        var id :| id in users && users[id].email == email;
        found := Some(id);
      } else {
        found := None;
      }
    }

    /** `User.findOne` with the unexpired-reset-token filter. */
    method FindByResetToken(hash: string, now: int) returns (found: Option<UserId>)
      ensures found.Some? ==> found.value in users && ResetMatches(users[found.value], hash, now)
      ensures found.None? ==> forall id :: id in users ==> !ResetMatches(users[id], hash, now)
    {
      if exists id :: id in users && ResetMatches(users[id], hash, now) {
        var id :| id in users && ResetMatches(users[id], hash, now);
        found := Some(id);
      } else {
        found := None;
      }
    }

    /** `user.save()`: the record is written back; nothing else changes. */
    method Save(id: UserId, u: User)
      requires Valid() && u.password.Some?
      modifies this
      ensures Valid()
      ensures users == old(users)[id := u]
    {
      users := users[id := u];
    }
  }
}
