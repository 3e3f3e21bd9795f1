/**
 * The `users` table (app/database/models/users.py) and the `roles` table it
 * links to, as held by a database session.
 */
module UserModel {
  import opened Wrappers

  /** Naive UTC datetimes, as whole seconds. */
  type Timestamp = int

  /** A named permission group; `User.roles` is a many-to-many relation. */
  datatype Role = Role(id: nat, name: string)

  /**
   * One row of `users`. `externalId`, `email` and `passwordHash` are NOT NULL
   * columns, so they are plain strings here. `isActive` and `isVerified` are
   * nullable in the schema but modelled as non-NULL booleans: their defaults
   * and every write in the lifecycle set them. Every other nullable column is
   * an Option.
   */
  datatype Account = Account(
    id: nat,
    externalId: string,
    email: string,
    passwordHash: string,
    isActive: bool,
    isVerified: bool,
    verificationToken: Option<string>,
    verificationSentAt: Option<Timestamp>,
    lastLoginAt: Option<Timestamp>,
    emailVerifiedAt: Option<Timestamp>,
    displayName: Option<string>,
    image: Option<string>,
    roles: seq<Role>,
    about: Option<string>,
    maxLinkUrl: Option<string>)

  // Declared widths of the String(n) columns.
  const EmailWidth := 255
  const PasswordHashWidth := 255
  const TokenWidth := 100
  const DisplayNameWidth := 255
  const ImageWidth := 500
  const AboutWidth := 255
  const MaxLinkUrlWidth := 255

  /**
   * A row built with only the NOT NULL columns given: the column defaults
   * make it active and unverified, and every nullable column is NULL.
   */
  function NewUser(id: nat, externalId: string, email: string, passwordHash: string): (a: Account)
    ensures a.id == id && a.externalId == externalId && a.email == email && a.passwordHash == passwordHash
    ensures a.isActive && !a.isVerified
    ensures a.verificationToken.None? && a.verificationSentAt.None?
    ensures a.lastLoginAt.None? && a.emailVerifiedAt.None? && a.roles == []
    ensures a.displayName.None? && a.image.None? && a.about.None? && a.maxLinkUrl.None?
  {
    Account(id, externalId, email, passwordHash, true, false, None, None, None, None, None, None, [], None, None)
  }

  predicate FitsWithin(s: Option<string>, width: nat) {
    s.None? || |s.value| <= width
  }

  /** Every string column of the row fits its declared width. */
  predicate FitsColumns(a: Account) {
    && |a.email| <= EmailWidth
    && |a.passwordHash| <= PasswordHashWidth
    && FitsWithin(a.verificationToken, TokenWidth)
    && FitsWithin(a.displayName, DisplayNameWidth)
    && FitsWithin(a.image, ImageWidth)
    && FitsWithin(a.about, AboutWidth)
    && FitsWithin(a.maxLinkUrl, MaxLinkUrlWidth)
  }

  /**
   * What the database enforces on commit: the primary key, the two UNIQUE
   * columns and the column widths. `verification_token` is indexed but
   * carries no UNIQUE constraint, so it does not appear here.
   */
  predicate TableConstraints(accounts: seq<Account>): (ok: bool)
    ensures ok ==> forall i, j :: 0 <= i < |accounts| && 0 <= j < |accounts| && accounts[i].email == accounts[j].email ==> i == j
    ensures ok ==> forall i, j :: 0 <= i < |accounts| && 0 <= j < |accounts| && accounts[i].externalId == accounts[j].externalId ==> i == j
    ensures ok ==> forall i :: 0 <= i < |accounts| ==> FitsWithin(accounts[i].verificationToken, TokenWidth)
  {
    && (forall i, j :: 0 <= i < j < |accounts| ==> accounts[i].id != accounts[j].id)
    && (forall i, j :: 0 <= i < j < |accounts| ==> accounts[i].email != accounts[j].email)
    && (forall i, j :: 0 <= i < j < |accounts| ==> accounts[i].externalId != accounts[j].externalId)
    && (forall i :: 0 <= i < |accounts| ==> FitsColumns(accounts[i]))
  }

  /** Both tables in insertion order, plus the next value of the id sequence. */
  datatype Store = Store(accounts: seq<Account>, roles: seq<Role>, nextId: nat)

  predicate Valid(s: Store) {
    && TableConstraints(s.accounts)
    && (forall i :: 0 <= i < |s.accounts| ==> s.accounts[i].id < s.nextId)
  }

  /**
   * `query(...).filter(p).first()`: the index of the first row satisfying `p`,
   * in store order, or None when no row does.
   */
  function First<T>(rows: seq<T>, p: T -> bool): (r: Option<nat>)
    ensures r.Some? ==> r.value < |rows| && p(rows[r.value])
    ensures r.Some? ==> forall j :: 0 <= j < r.value ==> !p(rows[j])
    ensures r.None? ==> forall j :: 0 <= j < |rows| ==> !p(rows[j])
  {
    if rows == [] then None
    else if p(rows[0]) then Some(0)
    else match First(rows[1..], p)
      case None => None
      case Some(k) => Some(k + 1)
  }

  /** The session's in-place view of the two tables. */
  class Db {
    var accounts: seq<Account>
    var roles: seq<Role>
    var nextId: nat

    function State(): Store
      reads this
    {
      Store(accounts, roles, nextId)
    }
  }

  /** The lifecycle rule: an account should never be active while unverified. */
  predicate ActiveImpliesVerified(accounts: seq<Account>) {
    forall i :: 0 <= i < |accounts| ==> accounts[i].isActive ==> accounts[i].isVerified
  }

  /**
   * The column defaults do not keep that rule: a row built without explicit
   * flags is already active but unverified.
   */
  lemma DefaultRowBreaksActivationRule(id: nat, externalId: string, email: string, passwordHash: string)
    ensures !ActiveImpliesVerified([NewUser(id, externalId, email, passwordHash)])
  {
    var a := NewUser(id, externalId, email, passwordHash);
    assert [a][0] == a;
  }

  /** Two rows may hold the same verification token and still commit. */
  lemma SharedTokenCommits(a: Account, b: Account)
    requires FitsColumns(a) && FitsColumns(b)
    requires a.id != b.id && a.email != b.email && a.externalId != b.externalId
    requires a.verificationToken.Some? && a.verificationToken == b.verificationToken
    ensures TableConstraints([a, b])
  {
  }
}
