/**
 * The User schema: its fields, the trim/lowercase normalisation applied on
 * assignment (and on query filters), the defaults, the required paths and the
 * unique index on email.
 */
module UserModel {
  import opened Wrappers
  import opened JsString

  /** A document id. ObjectId generation is modelled as "larger than every id in the store". */
  type Id = nat

  datatype User = User(
    id: Id,
    name: string,
    email: string,
    mobile: string,
    password: string,
    profilePicture: Option<string>,
    isActive: bool,
    createdAt: int,
    updatedAt: int)

  /** What a caller hands to `User.create`. */
  datatype Attributes = Attributes(name: string, email: string, mobile: string, password: string)

  // ----- the setters: trim, and lowercase for email -----

  function NormalizeName(s: string): string { Trim(s) }

  /**
   * The email setters, `trim` then `lowercase`: what is stored is trimmed,
   * free of upper-case letters, and no longer than what was given.
   */
  function NormalizeEmail(s: string): (r: string)
    ensures IsTrimmed(r) && HasNoUpper(r) && |r| <= |s|
  {
    TrimLowerCommute(Trim(s));
    TrimIdempotent(s);
    ToLower(Trim(s))
  }

  function NormalizeMobile(s: string): string { Trim(s) }

  /** Applying the email setters twice changes nothing more than applying them once. */
  lemma NormalizeEmailIdempotent(s: string)
    ensures NormalizeEmail(NormalizeEmail(s)) == NormalizeEmail(s)
  {
    var t := Trim(s);
    TrimLowerCommute(t);
    TrimIdempotent(s);
    ToLowerIdempotent(t);
  }

  // ----- required paths -----

  /** The four required paths of the schema. */
  datatype Path = NamePath | EmailPath | MobilePath | PasswordPath

  function PathName(p: Path): string {
    match p
    case NamePath => "name"
    case EmailPath => "email"
    case MobilePath => "mobile"
    case PasswordPath => "password"
  }

  /** The required paths Mongoose reports, in schema order: a string is missing when empty after its setters. */
  function MissingPaths(a: Attributes): (paths: seq<Path>)
    ensures NamePath in paths <==> NormalizeName(a.name) == []
    ensures EmailPath in paths <==> NormalizeEmail(a.email) == []
    ensures MobilePath in paths <==> NormalizeMobile(a.mobile) == []
    ensures PasswordPath in paths <==> a.password == []
  {
    PathsFlagged(NormalizeName(a.name) == [], NormalizeEmail(a.email) == [],
                 NormalizeMobile(a.mobile) == [], a.password == [])
  }

  function PathsFlagged(name: bool, email: bool, mobile: bool, password: bool): (paths: seq<Path>)
    ensures NamePath in paths <==> name
    ensures EmailPath in paths <==> email
    ensures MobilePath in paths <==> mobile
    ensures PasswordPath in paths <==> password
  {
    (if name then [NamePath] else [])
    + (if email then [EmailPath] else [])
    + (if mobile then [MobilePath] else [])
    + (if password then [PasswordPath] else [])
  }

  function RequiredMessages(paths: seq<Path>): string {
    if paths == [] then []
    else
      var one := PathName(paths[0]) + ": Path `" + PathName(paths[0]) + "` is required.";
      if |paths| == 1 then one else one + ", " + RequiredMessages(paths[1..])
  }

  // ----- documents and the store -----

  /** A new document: set values normalised, profilePicture null, isActive true, both timestamps now. */
  function NewDocument(a: Attributes, id: Id, now: int): (u: User)
    ensures u.id == id && u.password == a.password
    ensures u.name == NormalizeName(a.name) && u.email == NormalizeEmail(a.email)
    ensures u.mobile == NormalizeMobile(a.mobile)
    ensures u.profilePicture == None && u.isActive
    ensures u.createdAt == now && u.updatedAt == now
  {
    User(id, NormalizeName(a.name), NormalizeEmail(a.email), NormalizeMobile(a.mobile),
         a.password, None, true, now, now)
  }

  /** A saved document: its strings are in normal form and its required strings are present. */
  predicate IsNormalized(u: User) {
    && IsTrimmed(u.name) && IsTrimmed(u.email) && HasNoUpper(u.email) && IsTrimmed(u.mobile)
    && u.name != "" && u.email != "" && u.mobile != "" && u.password != ""
  }

  /** The collection invariant: distinct ids, distinct emails (the unique index), normal forms. */
  predicate Valid(users: seq<User>) {
    && (forall i, j :: 0 <= i < j < |users| ==> users[i].id != users[j].id)
    && (forall i, j :: 0 <= i < j < |users| ==> users[i].email != users[j].email)
    && (forall i :: 0 <= i < |users| ==> IsNormalized(users[i]))
  }

  predicate EmailTaken(users: seq<User>, email: string) {
    exists i :: 0 <= i < |users| && users[i].email == email
  }

  function MaxId(users: seq<User>): (m: nat)
    ensures forall i :: 0 <= i < |users| ==> users[i].id <= m
  {
    if users == [] then 0
    else
      var rest := MaxId(users[1..]);
      assert forall i :: 1 <= i < |users| ==> users[i] == users[1..][i - 1];
      if users[0].id > rest then users[0].id else rest
  }

  function FreshId(users: seq<User>): (id: Id)
    ensures forall i :: 0 <= i < |users| ==> users[i].id != id
  {
    MaxId(users) + 1
  }

  datatype CreateError = ValidationFailed(paths: seq<Path>) | DuplicateKey(email: string)

  function CreateErrorMessage(e: CreateError): string {
    match e
    case ValidationFailed(paths) => "User validation failed: " + RequiredMessages(paths)
    case DuplicateKey(_) => "E11000 duplicate key error"  // the driver's text, without its collection/index/key suffix
  }

  /**
   * `User.create(attributes)` at time `now`: schema validation first, then the
   * unique email index, then the insert of the new document at the end.
   */
  function Create(users: seq<User>, a: Attributes, now: int): (r: Result<(User, seq<User>), CreateError>)
    ensures r.Err? && r.error.ValidationFailed? <==> MissingPaths(a) != []
    ensures r.Err? && r.error.DuplicateKey? <==> MissingPaths(a) == [] && EmailTaken(users, NormalizeEmail(a.email))
    ensures r.Ok? ==> r.value.0 == NewDocument(a, FreshId(users), now) && r.value.1 == users + [r.value.0]
  {
    if MissingPaths(a) != [] then Err(ValidationFailed(MissingPaths(a)))
    else if EmailTaken(users, NormalizeEmail(a.email)) then Err(DuplicateKey(NormalizeEmail(a.email)))
    else
      var u := NewDocument(a, FreshId(users), now);
      Ok((u, users + [u]))
  }

  lemma NewDocumentNormalized(a: Attributes, id: Id, now: int)
    requires MissingPaths(a) == []
    ensures IsNormalized(NewDocument(a, id, now))
  {
  }

  lemma AppendValid(users: seq<User>, u: User)
    requires Valid(users) && IsNormalized(u)
    requires forall i :: 0 <= i < |users| ==> users[i].id != u.id && users[i].email != u.email
    ensures Valid(users + [u])
  {
    var users' := users + [u];
    forall i | 0 <= i < |users'| ensures IsNormalized(users'[i]) {
      if i < |users| { assert users'[i] == users[i]; }
    }
    forall i, j | 0 <= i < j < |users'|
      ensures users'[i].id != users'[j].id && users'[i].email != users'[j].email
    {
      assert users'[i] == users[i];
      if j < |users| { assert users'[j] == users[j]; }
    }
  }

  /** A successful create keeps ids and emails distinct and every document in normal form. */
  lemma CreatePreservesValid(users: seq<User>, a: Attributes, now: int)
    requires Valid(users)
    requires Create(users, a, now).Ok?
    ensures Valid(Create(users, a, now).value.1)
  {
    var u := NewDocument(a, FreshId(users), now);
    NewDocumentNormalized(a, FreshId(users), now);
    assert !EmailTaken(users, u.email);
    AppendValid(users, u);
  }

  /** `user.profilePicture = path; user.save()`: only the picture and updatedAt change. */
  function WithPicture(u: User, path: string, now: int): (v: User)
    ensures v.profilePicture == Some(path) && v.updatedAt == now
    ensures v.(profilePicture := u.profilePicture, updatedAt := u.updatedAt) == u
  {
    u.(profilePicture := Some(path), updatedAt := now)
  }
}
