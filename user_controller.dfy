/**
 * The four user handlers, as decisions over an abstract store (the users in
 * insertion order), an abstract set of files on disk, and uninterpreted
 * password-hash, password-verify and token-sign functions. Each handler is one
 * sequential step: it reads the store, maybe calls the crypto functions, maybe
 * writes, and answers with a status and an envelope.
 */
module UserController {
  import opened Wrappers
  import opened JsString
  import opened UserModel
  import opened Api

  /** What the handlers read off the request line: `req.protocol` and `req.get('host')`. */
  datatype Origin = Origin(protocol: string, host: Option<string>)

  /**
   * passwordLib.hash, passwordLib.verify and jwtLib.generateToken. Each may
   * throw; Err carries the message of the error thrown.
   */
  datatype Crypto = Crypto(
    hash: string -> Result<string, string>,
    verify: (string, string) -> Result<bool, string>,
    sign: TokenPayload -> Result<string, string>)

  // ----- getFullImageUrl -----

  /** `${protocol}://${host}`; a missing Host header renders as "undefined". */
  function OriginText(o: Origin): string {
    o.protocol + "://" + (if o.host.Some? then o.host.value else "undefined")
  }

  /** null for a missing or empty path; otherwise the origin with the path appended. */
  function GetFullImageUrl(o: Origin, imagePath: Option<string>): (url: Option<string>)
    ensures url.None? <==> imagePath.None? || imagePath.value == []
  {
    if imagePath.None? || imagePath.value == [] then None
    else Some(OriginText(o) + imagePath.value)
  }

  /** The image path a URL built for this origin carries. */
  function ImagePathOf(o: Origin, url: string): Option<string> {
    var prefix := OriginText(o);
    if |prefix| < |url| && url[..|prefix|] == prefix then Some(url[|prefix|..]) else None
  }

  /** A URL handed out always gives back the stored path. */
  lemma ImageUrlRoundTrip(o: Origin, imagePath: Option<string>)
    requires GetFullImageUrl(o, imagePath).Some?
    ensures ImagePathOf(o, GetFullImageUrl(o, imagePath).value) == imagePath
  {
    var prefix := OriginText(o);
    var url := prefix + imagePath.value;
    assert url[..|prefix|] == prefix && url[|prefix|..] == imagePath.value;
  }

  // ----- findOne -----

  /** The two query filters the handlers use, after the schema's setters ran on them. */
  datatype Filter = EmailOrMobile(email: string, mobile: string) | ByEmail(email: string)

  predicate Selects(f: Filter, u: User) {
    match f
    case EmailOrMobile(e, m) => u.email == e || u.mobile == m
    case ByEmail(e) => u.email == e
  }

  /** The positions of the matching records, in store order. */
  function Matching(users: seq<User>, f: Filter): seq<nat> {
    if users == [] then []
    else
      var last := |users| - 1;
      var front := Matching(users[..last], f);
      if Selects(f, users[last]) then front + [last] else front
  }

  /** `Matching` lists exactly the positions of the records that match, in increasing order. */
  lemma MatchingPositions(users: seq<User>, f: Filter)
    ensures forall k :: 0 <= k < |Matching(users, f)| ==>
      Matching(users, f)[k] < |users| && Selects(f, users[Matching(users, f)[k]])
    ensures forall i :: 0 <= i < |users| && Selects(f, users[i]) ==> i in Matching(users, f)
    ensures forall k, l :: 0 <= k < l < |Matching(users, f)| ==> Matching(users, f)[k] < Matching(users, f)[l]
  {
    MatchingSound(users, f);
    MatchingComplete(users, f);
  }

  /** Every listed position is a matching record's, and the list is increasing. */
  lemma {:induction false} MatchingSound(users: seq<User>, f: Filter)
    ensures forall k :: 0 <= k < |Matching(users, f)| ==>
      Matching(users, f)[k] < |users| && Selects(f, users[Matching(users, f)[k]])
    ensures forall k, l :: 0 <= k < l < |Matching(users, f)| ==> Matching(users, f)[k] < Matching(users, f)[l]
    decreases |users|
  {
    if users != [] {
      var last := |users| - 1;
      var front := users[..last];
      MatchingSound(front, f);
      if Selects(f, users[last]) {
        var ms := Matching(front, f) + [last];
        assert Matching(users, f) == ms;
        assert forall k :: 0 <= k < |ms| - 1 ==> ms[k] == Matching(front, f)[k] && users[ms[k]] == front[ms[k]];
      } else {
        assert Matching(users, f) == Matching(front, f);
        assert forall k :: 0 <= k < |Matching(front, f)| ==> users[Matching(front, f)[k]] == front[Matching(front, f)[k]];
      }
    }
  }

  /** Every matching record's position is listed. */
  lemma {:induction false} MatchingComplete(users: seq<User>, f: Filter)
    ensures forall i :: 0 <= i < |users| && Selects(f, users[i]) ==> i in Matching(users, f)
    decreases |users|
  {
    if users != [] {
      var last := |users| - 1;
      var front := users[..last];
      MatchingComplete(front, f);
      assert forall i :: 0 <= i < last ==> front[i] == users[i];
    }
  }

  /**
   * `findOne(filter)`: null when nothing matches, otherwise one of the
   * matching records. Which one the database returns is not fixed; `pick`
   * chooses it, and every matching record is some pick's answer.
   */
  function FindOne(users: seq<User>, f: Filter, pick: nat): (r: Option<User>)
    ensures r.None? <==> forall i :: 0 <= i < |users| ==> !Selects(f, users[i])
    ensures r.Some? ==> r.value in users && Selects(f, r.value)
  {
    MatchingPositions(users, f);
    var ms := Matching(users, f);
    if ms == [] then None else Some(users[ms[Wrap(pick, |ms|)]])
  }

  /** `pick` taken round the `n` candidates: the remainder of `pick` by `n`, by repeated subtraction. */
  function Wrap(pick: nat, n: nat): (k: nat)
    requires n > 0
    ensures k < n
    decreases pick
  {
    if pick < n then pick else Wrap(pick - n, n)
  }

  lemma FindOneReachesEveryMatch(users: seq<User>, f: Filter, i: nat)
    requires i < |users| && Selects(f, users[i])
    ensures exists pick :: FindOne(users, f, pick) == Some(users[i])
  {
    MatchingPositions(users, f);
    var ms := Matching(users, f);
    assert i in ms;
    var k :| 0 <= k < |ms| && ms[k] == i;
    assert Wrap(k, |ms|) == k;
    assert FindOne(users, f, k) == Some(users[i]);
  }

  /** With unique emails a lookup by email has at most one answer, whatever `pick` is. */
  lemma FindByEmailUnique(users: seq<User>, email: string, p: nat, q: nat)
    requires Valid(users)
    ensures FindOne(users, ByEmail(email), p) == FindOne(users, ByEmail(email), q)
  {
    MatchingPositions(users, ByEmail(email));
    var ms := Matching(users, ByEmail(email));
    if ms != [] {
      var k, l := Wrap(p, |ms|), Wrap(q, |ms|);
      assert users[ms[k]].email == users[ms[l]].email;
      assert ms[k] == ms[l];
    }
  }

  // ----- registerUser -----

  /** What a handler answers, and the store after it. */
  datatype Step = Step(reply: Reply, users: seq<User>)

  const EmailExists := "User with this email already exists"
  const MobileExists := "User with this mobile number already exists"

  lemma DuplicateMessagesDiffer()
    ensures EmailExists != MobileExists
  {
    assert EmailExists[15] == 'e' && MobileExists[15] == 'm';
  }

  /** The lookup register runs: email or mobile, after the email and mobile setters. */
  function RegisterFilter(a: Attributes): Filter {
    EmailOrMobile(NormalizeEmail(a.email), NormalizeMobile(a.mobile))
  }

  /**
   * The duplicate message as written: the stored (lower-cased, trimmed) email is
   * compared with the request's email as the client sent it.
   */
  function DuplicateMessageAsWritten(found: User, a: Attributes): string {
    if found.email == a.email then EmailExists else MobileExists
  }

  /** The duplicate message compared against the email as the store keeps it. */
  function DuplicateMessage(found: User, a: Attributes): (m: string)
    ensures m == EmailExists <==> found.email == NormalizeEmail(a.email)
    ensures Selects(RegisterFilter(a), found) && m == MobileExists ==> found.mobile == NormalizeMobile(a.mobile)
  {
    if found.email == NormalizeEmail(a.email) then EmailExists else MobileExists
  }

  /**
   * As written, a registration whose mixed-case email clashes with a stored
   * record on the email alone is told that the mobile number exists; the
   * corrected handler names the email.
   */
  lemma DuplicateMessageAsWrittenMisleads()
    ensures var found := User(1, "Ann", "a@b.io", "0123456789", "h", None, true, 0, 0);
      var a := Attributes("Ann", "A@b.io", "9999999999", "secret1");
      && Selects(RegisterFilter(a), found)
      && found.mobile != NormalizeMobile(a.mobile)
      && DuplicateMessageAsWritten(found, a) == MobileExists
      && DuplicateMessage(found, a) == EmailExists
  {
    var found := User(1, "Ann", "a@b.io", "0123456789", "h", None, true, 0, 0);
    var a := Attributes("Ann", "A@b.io", "9999999999", "secret1");
    MixedCaseEmail();
    PlainMobile();
    assert found.email == NormalizeEmail(a.email);
    assert found.mobile[0] != NormalizeMobile(a.mobile)[0];
    assert found.email[0] != a.email[0];
  }

  /** The same registration, through the two handlers. */
  lemma RegisterMisreports(c: Crypto, o: Origin, now: int)
    ensures var found := User(1, "Ann", "a@b.io", "0123456789", "h", None, true, 0, 0);
      var a := Attributes("Ann", "A@b.io", "9999999999", "secret1");
      && RegisterUser([found], a, 0, None, c, o, now).reply == Failure(400, MobileExists)
      && RegisterUserIntended([found], a, 0, None, c, o, now).reply == Failure(400, EmailExists)
  {
    var found := User(1, "Ann", "a@b.io", "0123456789", "h", None, true, 0, 0);
    var a := Attributes("Ann", "A@b.io", "9999999999", "secret1");
    DuplicateMessageAsWrittenMisleads();
    FindOneSingle(found, RegisterFilter(a), 0);
  }

  /** A one-record store whose record matches answers the lookup with that record. */
  lemma FindOneSingle(u: User, f: Filter, pick: nat)
    requires Selects(f, u)
    ensures FindOne([u], f, pick) == Some(u)
  {
    assert [u][..0] == [];
    assert Matching([u], f) == [0];
  }

  lemma PlainMobile()
    ensures NormalizeMobile("9999999999") == "9999999999"
  {
    TrimOfTrimmed("9999999999");
  }

  lemma MixedCaseEmail()
    ensures NormalizeEmail("A@b.io") == "a@b.io"
  {
    TrimOfTrimmed("A@b.io");
    var l := ToLower("A@b.io");
    assert |l| == 6;
    assert l[0] == 'a' && l[1] == '@' && l[2] == 'b' && l[3] == '.' && l[4] == 'i' && l[5] == 'o';
  }

  /**
   * `registerUser` as written: duplicate check, hash, create, sign, answer.
   * `pick` says which record the duplicate lookup returns when several match,
   * and `findError` is the error the lookup rejects with, if it does. Every
   * answer is 201, 400 or 500, only 201 carries data, and the store is either
   * unchanged or has exactly one record appended.
   */
  function RegisterUser(users: seq<User>, a: Attributes, pick: nat, findError: Option<string>, c: Crypto, o: Origin,
                        now: int): (s: Step)
    ensures s.reply.status == 201 || s.reply.status == 400 || s.reply.status == 500
    ensures s.reply.status != 201 ==> s.reply.body.error && s.reply.body.data.None?
    ensures s.users == users || (|s.users| == |users| + 1 && s.users == users + [s.users[|users|]])
    ensures findError.Some? ==> s == Step(Failure(500, findError.value), users)
  {
    if findError.Some? then Step(Failure(500, findError.value), users)
    else
      var found := FindOne(users, RegisterFilter(a), pick);
      if found.Some? then Step(Failure(400, DuplicateMessageAsWritten(found.value, a)), users)
      else RegisterNew(users, a, c, o, now)
  }

  /**
   * `registerUser` with the duplicate message compared against the email as
   * the store keeps it. It answers with the same status and leaves the same
   * store as the handler as written, and it is that handler whenever the
   * request's email is already in normal form.
   */
  function RegisterUserIntended(users: seq<User>, a: Attributes, pick: nat, findError: Option<string>, c: Crypto,
                                o: Origin, now: int): (s: Step)
    ensures s.users == RegisterUser(users, a, pick, findError, c, o, now).users
    ensures s.reply.status == RegisterUser(users, a, pick, findError, c, o, now).reply.status
    ensures NormalizeEmail(a.email) == a.email ==> s == RegisterUser(users, a, pick, findError, c, o, now)
  {
    if findError.Some? then Step(Failure(500, findError.value), users)
    else
      var found := FindOne(users, RegisterFilter(a), pick);
      if found.Some? then Step(Failure(400, DuplicateMessage(found.value, a)), users)
      else RegisterNew(users, a, c, o, now)
  }

  /**
   * Register once the duplicate check found nothing: hash, create, sign, answer
   * 201; any exception answers 500. A sign error comes after the insert, so
   * the store may have grown by the new record even on a 500.
   */
  function RegisterNew(users: seq<User>, a: Attributes, c: Crypto, o: Origin, now: int): (s: Step)
    ensures s.reply.status == 201 || s.reply.status == 500
    ensures s.reply.status == 500 ==> s.reply.body.error && s.reply.body.data.None?
    ensures s.users == users || (|s.users| == |users| + 1 && s.users == users + [s.users[|users|]])
  {
    match c.hash(a.password)
    case Err(m) => Step(Failure(500, m), users)
    case Ok(hashed) =>
      match Create(users, Attributes(a.name, a.email, a.mobile, hashed), now)
      case Err(e) => Step(Failure(500, CreateErrorMessage(e)), users)
      case Ok((u, stored)) =>
        assert stored[..|users|] == users;
        match c.sign(TokenPayload(u.id, u.email, u.name))
        case Err(m) => Step(Failure(500, m), stored)
        case Ok(token) =>
          Step(Success(201, "User registered successfully",
                       Registered(u.id, u.name, u.email, u.mobile, GetFullImageUrl(o, u.profilePicture),
                                  u.isActive, u.createdAt, token)),
               stored)
  }

  /** A clash on email or mobile answers 400, changes nothing, and never reaches hash, create or sign. */
  lemma RegisterDuplicate(users: seq<User>, a: Attributes, pick: nat, c: Crypto, c': Crypto, o: Origin, now: int)
    requires exists i :: 0 <= i < |users| && Selects(RegisterFilter(a), users[i])
    ensures var s := RegisterUser(users, a, pick, None, c, o, now);
      && s.reply.status == 400 && s.reply.body.error && s.users == users
      && (s.reply.body.message == EmailExists || s.reply.body.message == MobileExists)
      && s == RegisterUser(users, a, pick, None, c', o, now)
  {
    RegisterFound(users, a, pick, c, o, now);
    RegisterFound(users, a, pick, c', o, now);
  }

  /** Once the lookup finds a record, the answer is the 400 with the duplicate message, whatever the crypto does. */
  lemma RegisterFound(users: seq<User>, a: Attributes, pick: nat, c: Crypto, o: Origin, now: int)
    requires FindOne(users, RegisterFilter(a), pick).Some?
    ensures RegisterUser(users, a, pick, None, c, o, now) ==
      Step(Failure(400, DuplicateMessageAsWritten(FindOne(users, RegisterFilter(a), pick).value, a)), users)
  {
  }

  /** The same for the corrected handler, with the corrected message. */
  lemma RegisterFoundIntended(users: seq<User>, a: Attributes, pick: nat, c: Crypto, o: Origin, now: int)
    requires FindOne(users, RegisterFilter(a), pick).Some?
    ensures RegisterUserIntended(users, a, pick, None, c, o, now) ==
      Step(Failure(400, DuplicateMessage(FindOne(users, RegisterFilter(a), pick).value, a)), users)
  {
  }

  /** With the corrected comparison the duplicate message tells the truth about the record that clashed. */
  lemma RegisterDuplicateMessage(users: seq<User>, a: Attributes, pick: nat, c: Crypto, o: Origin, now: int)
    ensures var s := RegisterUserIntended(users, a, pick, None, c, o, now);
      && (s.reply.status == 400 && s.reply.body.message == EmailExists ==> EmailTaken(users, NormalizeEmail(a.email)))
      && (s.reply.status == 400 && s.reply.body.message == MobileExists ==>
            exists i :: 0 <= i < |users| && users[i].mobile == NormalizeMobile(a.mobile))
  {
    var found := FindOne(users, RegisterFilter(a), pick);
    if found.Some? {
      RegisterFoundIntended(users, a, pick, c, o, now);
      var i :| 0 <= i < |users| && users[i] == found.value;
      DuplicateMessagesDiffer();
      if DuplicateMessage(found.value, a) == EmailExists {
        assert users[i].email == NormalizeEmail(a.email);
      } else {
        assert users[i].mobile == NormalizeMobile(a.mobile);
      }
    } else {
      assert RegisterUserIntended(users, a, pick, None, c, o, now) == RegisterNew(users, a, c, o, now);
    }
  }

  /**
   * As written, "email" is reported only when some stored email equals the
   * request's email as sent, and "mobile" whenever the clashing record's email
   * differs from it, whichever field the lookup matched on.
   */
  lemma RegisterDuplicateMessageAsWritten(users: seq<User>, a: Attributes, pick: nat, c: Crypto, o: Origin, now: int)
    ensures var s := RegisterUser(users, a, pick, None, c, o, now);
      && (s.reply.status == 400 && s.reply.body.message == EmailExists ==>
            exists i :: 0 <= i < |users| && users[i].email == a.email)
      && (s.reply.status == 400 && s.reply.body.message == MobileExists ==>
            exists i :: 0 <= i < |users| && Selects(RegisterFilter(a), users[i]) && users[i].email != a.email)
  {
    var found := FindOne(users, RegisterFilter(a), pick);
    DuplicateMessagesDiffer();
    if found.Some? {
      RegisterFound(users, a, pick, c, o, now);
      var i :| 0 <= i < |users| && users[i] == found.value;
      assert Selects(RegisterFilter(a), users[i]);
    } else {
      assert RegisterUser(users, a, pick, None, c, o, now) == RegisterNew(users, a, c, o, now);
    }
  }

  /**
   * Registration succeeds exactly when the lookup succeeds, nothing clashes,
   * and hash, create and sign all succeed; the stored password is the hash,
   * the new record goes last, and the answer carries the new record without
   * its password.
   */
  lemma RegisterSuccess(users: seq<User>, a: Attributes, pick: nat, findError: Option<string>, c: Crypto, o: Origin,
                        now: int)
    ensures var s := RegisterUser(users, a, pick, findError, c, o, now);
      s.reply.status == 201 <==>
        && findError.None?
        && (forall i :: 0 <= i < |users| ==> !Selects(RegisterFilter(a), users[i]))
        && c.hash(a.password).Ok?
        && MissingPaths(Attributes(a.name, a.email, a.mobile, c.hash(a.password).value)) == []
        && c.sign(TokenPayload(FreshId(users), NormalizeEmail(a.email), NormalizeName(a.name))).Ok?
    ensures var s := RegisterUser(users, a, pick, findError, c, o, now);
      s.reply.status == 201 ==>
        var u := NewDocument(Attributes(a.name, a.email, a.mobile, c.hash(a.password).value), FreshId(users), now);
        && s.users == users + [u]
        && u.password == c.hash(a.password).value
        && s.reply == Success(201, "User registered successfully",
             Registered(u.id, u.name, u.email, u.mobile, None, true, now,
                        c.sign(TokenPayload(u.id, u.email, u.name)).value))
  {
    var found := FindOne(users, RegisterFilter(a), pick);
    if findError.None? && found.None? {
      assert RegisterUser(users, a, pick, findError, c, o, now) == RegisterNew(users, a, c, o, now);
      assert !EmailTaken(users, NormalizeEmail(a.email));
      RegisterNewSuccess(users, a, c, o, now);
    }
  }

  /** The create path when the email is free: 201 exactly when hash, the schema's required paths and sign all pass. */
  lemma RegisterNewSuccess(users: seq<User>, a: Attributes, c: Crypto, o: Origin, now: int)
    requires !EmailTaken(users, NormalizeEmail(a.email))
    ensures var s := RegisterNew(users, a, c, o, now);
      s.reply.status == 201 <==>
        && c.hash(a.password).Ok?
        && MissingPaths(Attributes(a.name, a.email, a.mobile, c.hash(a.password).value)) == []
        && c.sign(TokenPayload(FreshId(users), NormalizeEmail(a.email), NormalizeName(a.name))).Ok?
    ensures var s := RegisterNew(users, a, c, o, now);
      s.reply.status == 201 ==>
        var u := NewDocument(Attributes(a.name, a.email, a.mobile, c.hash(a.password).value), FreshId(users), now);
        && s.users == users + [u]
        && u.password == c.hash(a.password).value
        && s.reply == Success(201, "User registered successfully",
             Registered(u.id, u.name, u.email, u.mobile, None, true, now,
                        c.sign(TokenPayload(u.id, u.email, u.name)).value))
  {
    RegisterNewFailures(users, a, c, o, now);
    if c.hash(a.password).Ok? && MissingPaths(Attributes(a.name, a.email, a.mobile, c.hash(a.password).value)) == [] {
      RegisterNewCreated(users, a, c, o, now);
    }
  }

  /** Once hashing and the schema pass and the email is free, the record is appended and the answer hangs on sign alone. */
  lemma RegisterNewCreated(users: seq<User>, a: Attributes, c: Crypto, o: Origin, now: int)
    requires !EmailTaken(users, NormalizeEmail(a.email)) && c.hash(a.password).Ok?
    requires MissingPaths(Attributes(a.name, a.email, a.mobile, c.hash(a.password).value)) == []
    ensures var u := NewDocument(Attributes(a.name, a.email, a.mobile, c.hash(a.password).value), FreshId(users), now);
      var t := TokenPayload(u.id, u.email, u.name);
      RegisterNew(users, a, c, o, now) ==
        if c.sign(t).Ok? then
          Step(Success(201, "User registered successfully",
                       Registered(u.id, u.name, u.email, u.mobile, None, true, now, c.sign(t).value)),
               users + [u])
        else Step(Failure(500, c.sign(t).error), users + [u])
  {
    var h := Attributes(a.name, a.email, a.mobile, c.hash(a.password).value);
    assert NormalizeEmail(h.email) == NormalizeEmail(a.email);
    var u := NewDocument(h, FreshId(users), now);
    assert Create(users, h, now) == Ok((u, users + [u]));
    assert GetFullImageUrl(o, u.profilePicture) == None;
  }


  /**
   * The failures after the duplicate check: a hash error or a failed create
   * leaves the store as it was; a sign error comes after the record was
   * written, so the record stays. Each answers 500 with the error's message.
   * The unique index never fires, since the lookup already ruled the email out.
   */
  lemma RegisterFailures(users: seq<User>, a: Attributes, pick: nat, c: Crypto, o: Origin, now: int)
    requires forall i :: 0 <= i < |users| ==> !Selects(RegisterFilter(a), users[i])
    ensures var s := RegisterUser(users, a, pick, None, c, o, now);
      && (c.hash(a.password).Err? ==> s == Step(Failure(500, c.hash(a.password).error), users))
      && (c.hash(a.password).Ok? ==>
            var h := Attributes(a.name, a.email, a.mobile, c.hash(a.password).value);
            && !(Create(users, h, now).Err? && Create(users, h, now).error.DuplicateKey?)
            && (MissingPaths(h) != [] ==> s == Step(Failure(500, CreateErrorMessage(ValidationFailed(MissingPaths(h)))), users))
            && (MissingPaths(h) == [] ==> |s.users| == |users| + 1 && s.users == users + [s.users[|users|]]))
  {
    assert FindOne(users, RegisterFilter(a), pick).None?;
    assert RegisterUser(users, a, pick, None, c, o, now) == RegisterNew(users, a, c, o, now);
    assert !EmailTaken(users, NormalizeEmail(a.email));
    RegisterNewFailures(users, a, c, o, now);
  }

  /** The create path's failures when the email is free. */
  lemma RegisterNewFailures(users: seq<User>, a: Attributes, c: Crypto, o: Origin, now: int)
    requires !EmailTaken(users, NormalizeEmail(a.email))
    ensures var s := RegisterNew(users, a, c, o, now);
      && (c.hash(a.password).Err? ==> s == Step(Failure(500, c.hash(a.password).error), users))
      && (c.hash(a.password).Ok? ==>
            var h := Attributes(a.name, a.email, a.mobile, c.hash(a.password).value);
            && !(Create(users, h, now).Err? && Create(users, h, now).error.DuplicateKey?)
            && (MissingPaths(h) != [] ==> s == Step(Failure(500, CreateErrorMessage(ValidationFailed(MissingPaths(h)))), users))
            && (MissingPaths(h) == [] ==> |s.users| == |users| + 1 && s.users == users + [s.users[|users|]]))
  {
    if c.hash(a.password).Ok? {
      var h := Attributes(a.name, a.email, a.mobile, c.hash(a.password).value);
      assert NormalizeEmail(h.email) == NormalizeEmail(a.email);
      if MissingPaths(h) == [] {
        RegisterNewCreated(users, a, c, o, now);
      } else {
        assert Create(users, h, now) == Err(ValidationFailed(MissingPaths(h)));
      }
    }
  }

  /** Registration keeps the store's invariant: ids and emails distinct, documents normalised. */
  lemma RegisterPreservesValid(users: seq<User>, a: Attributes, pick: nat, findError: Option<string>, c: Crypto,
                               o: Origin, now: int)
    requires Valid(users)
    ensures Valid(RegisterUser(users, a, pick, findError, c, o, now).users)
  {
    var found := FindOne(users, RegisterFilter(a), pick);
    if findError.None? && found.None? {
      assert RegisterUser(users, a, pick, findError, c, o, now) == RegisterNew(users, a, c, o, now);
      RegisterNewPreservesValid(users, a, c, o, now);
    }
  }

  lemma RegisterNewPreservesValid(users: seq<User>, a: Attributes, c: Crypto, o: Origin, now: int)
    requires Valid(users)
    ensures Valid(RegisterNew(users, a, c, o, now).users)
  {
    RegisterNewStore(users, a, c, o, now);
    if c.hash(a.password).Ok? {
      var h := Attributes(a.name, a.email, a.mobile, c.hash(a.password).value);
      if Create(users, h, now).Ok? {
        CreatePreservesValid(users, h, now);
      }
    }
  }

  /** The store after the create path: what `User.create` left, or the old store when hashing or creating failed. */
  lemma RegisterNewStore(users: seq<User>, a: Attributes, c: Crypto, o: Origin, now: int)
    ensures RegisterNew(users, a, c, o, now).users ==
      if c.hash(a.password).Err? then users
      else
        var h := Attributes(a.name, a.email, a.mobile, c.hash(a.password).value);
        if Create(users, h, now).Err? then users else Create(users, h, now).value.1
  {
    if c.hash(a.password).Ok? {
      var h := Attributes(a.name, a.email, a.mobile, c.hash(a.password).value);
      match Create(users, h, now)
      case Err(_) =>
      case Ok((u, stored)) =>
        if c.sign(TokenPayload(u.id, u.email, u.name)).Err? {
          assert RegisterNew(users, a, c, o, now).users == stored;
        } else {
          assert RegisterNew(users, a, c, o, now).users == stored;
        }
    }
  }

  // ----- loginUser -----

  const BadCredentials := "Invalid email or password"
  const Deactivated := "Account is deactivated. Please contact support"

  /**
   * `loginUser`: look up by email (`findError` is the error the lookup rejects
   * with, if it does), then the active flag, then the password, then sign.
   * Every answer is 200, 401, 403 or 500, and only 200 carries data.
   */
  function LoginUser(users: seq<User>, email: string, password: string, pick: nat, findError: Option<string>,
                     c: Crypto, o: Origin): (r: Reply)
    ensures r.status == 200 || r.status == 401 || r.status == 403 || r.status == 500
    ensures r.status != 200 ==> r.body.error && r.body.data.None?
    ensures r.status == 200 ==> !r.body.error && r.body.data.Some? && r.body.data.value.LoggedIn?
    ensures findError.Some? ==> r == Failure(500, findError.value)
  {
    if findError.Some? then Failure(500, findError.value)
    else LoginAnswer(LoginRecord(users, email, pick), password, c, o)
  }

  /** What login answers once the lookup returned `found`. */
  function LoginAnswer(found: Option<User>, password: string, c: Crypto, o: Origin): (r: Reply)
    ensures r.status == 200 || r.status == 401 || r.status == 403 || r.status == 500
    ensures r.status != 200 ==> r.body.error && r.body.data.None?
    ensures r.status == 200 ==> !r.body.error && r.body.data.Some? && r.body.data.value.LoggedIn?
  {
    match found
    case None => Failure(401, BadCredentials)
    case Some(u) =>
      if !u.isActive then Failure(403, Deactivated)
      else
        match c.verify(password, u.password)
        case Err(m) => Failure(500, m)
        case Ok(false) => Failure(401, BadCredentials)
        case Ok(true) =>
          match c.sign(TokenPayload(u.id, u.email, u.name))
          case Err(m) => Failure(500, m)
          case Ok(token) =>
            Success(200, "Login successful",
                    LoggedIn(u.id, u.name, u.email, u.mobile, GetFullImageUrl(o, u.profilePicture), u.isActive, token))
  }

  /** The record login finds, if any. */
  function LoginRecord(users: seq<User>, email: string, pick: nat): Option<User> {
    FindOne(users, ByEmail(NormalizeEmail(email)), pick)
  }

  /**
   * The order of the checks: an unknown email and a wrong password give the
   * same 401; a deactivated account answers 403 whatever the password is and
   * whatever the crypto functions would do.
   */
  lemma LoginChecks(users: seq<User>, email: string, password: string, pick: nat, c: Crypto, c': Crypto, o: Origin)
    ensures LoginRecord(users, email, pick).None? ==>
      LoginUser(users, email, password, pick, None, c, o) == Failure(401, BadCredentials)
    ensures LoginRecord(users, email, pick).Some? && !LoginRecord(users, email, pick).value.isActive ==>
      && LoginUser(users, email, password, pick, None, c, o) == Failure(403, Deactivated)
      && LoginUser(users, email, password, pick, None, c', o) == Failure(403, Deactivated)
    ensures LoginRecord(users, email, pick).Some? && LoginRecord(users, email, pick).value.isActive
      && c.verify(password, LoginRecord(users, email, pick).value.password) == Ok(false)
      ==> LoginUser(users, email, password, pick, None, c, o) == Failure(401, BadCredentials)
  {
  }

  /**
   * Login answers 200 exactly when the lookup succeeds and finds an active
   * record whose password verifies and whose token signs; the token signs
   * {userId, email, name}, and the answer carries neither the password nor
   * createdAt.
   */
  lemma LoginSuccess(users: seq<User>, email: string, password: string, pick: nat, findError: Option<string>,
                     c: Crypto, o: Origin)
    ensures var r := LoginUser(users, email, password, pick, findError, c, o);
      var u := LoginRecord(users, email, pick);
      r.status == 200 <==>
        findError.None? && u.Some? && u.value.isActive && c.verify(password, u.value.password) == Ok(true)
        && c.sign(TokenPayload(u.value.id, u.value.email, u.value.name)).Ok?
    ensures var r := LoginUser(users, email, password, pick, findError, c, o);
      var u := LoginRecord(users, email, pick);
      r.status == 200 ==>
        && u.value.email == NormalizeEmail(email)
        && r == Success(200, "Login successful",
             LoggedIn(u.value.id, u.value.name, u.value.email, u.value.mobile,
                      GetFullImageUrl(o, u.value.profilePicture), true,
                      c.sign(TokenPayload(u.value.id, u.value.email, u.value.name)).value))
  {
  }

  /** On a valid store login does not depend on which matching record the lookup would return. */
  lemma LoginDeterministic(users: seq<User>, email: string, password: string, p: nat, q: nat,
                            findError: Option<string>, c: Crypto, o: Origin)
    requires Valid(users)
    ensures LoginUser(users, email, password, p, findError, c, o) == LoginUser(users, email, password, q, findError, c, o)
  {
    FindByEmailUnique(users, NormalizeEmail(email), p, q);
    assert LoginRecord(users, email, p) == LoginRecord(users, email, q);
  }

  // ----- listUsers -----

  const UsersRetrieved := "Users retrieved successfully"

  /** A record as listUsers hands it out: the password left out, the picture as a full URL. */
  function ToPublic(u: User, o: Origin): PublicUser {
    PublicUser(u.id, u.name, u.email, u.mobile, GetFullImageUrl(o, u.profilePicture), u.isActive, u.createdAt, u.updatedAt)
  }

  function Publics(users: seq<User>, o: Origin): (ps: seq<PublicUser>)
    ensures |ps| == |users| && forall i :: 0 <= i < |users| ==> ps[i] == ToPublic(users[i], o)
  {
    seq(|users|, i requires 0 <= i < |users| => ToPublic(users[i], o))
  }

  /** Whether the compiled case-insensitive pattern finds something in name, email or mobile. */
  predicate Hit(test: string -> bool, u: User) {
    test(u.name) || test(u.email) || test(u.mobile)
  }

  /** `find(filter)` with the `$or` of three `$regex` conditions: the hits, in store order. */
  function Select(users: seq<User>, test: string -> bool): (r: seq<User>)
    ensures forall u :: multiset(r)[u] == if Hit(test, u) then multiset(users)[u] else 0
  {
    if users == [] then []
    else
      assert users == [users[0]] + users[1..];
      (if Hit(test, users[0]) then [users[0]] else []) + Select(users[1..], test)
  }

  predicate NewestFirst(us: seq<User>) {
    forall i, j :: 0 <= i < j < |us| ==> us[i].createdAt >= us[j].createdAt
  }

  function InsertByNewest(u: User, sorted: seq<User>): (r: seq<User>)
    requires NewestFirst(sorted)
    ensures multiset(r) == multiset(sorted) + multiset{u}
    ensures NewestFirst(r)
  {
    if sorted == [] || sorted[0].createdAt <= u.createdAt then
      ConsNewest(u, sorted);
      [u] + sorted
    else
      assert sorted == [sorted[0]] + sorted[1..];
      TailNewest(sorted);
      var rest := InsertByNewest(u, sorted[1..]);
      ConsNewest(sorted[0], rest);
      assert multiset(sorted) == multiset{sorted[0]} + multiset(sorted[1..]);
      assert multiset([sorted[0]] + rest) == multiset{sorted[0]} + multiset(rest);
      [sorted[0]] + rest
  }

  lemma TailNewest(us: seq<User>)
    requires us != [] && NewestFirst(us)
    ensures NewestFirst(us[1..]) && (|us| > 1 ==> us[0].createdAt >= us[1].createdAt)
  {
    forall i, j | 0 <= i < j < |us| - 1 ensures us[1..][i].createdAt >= us[1..][j].createdAt {
      assert us[1..][i] == us[i + 1] && us[1..][j] == us[j + 1];
    }
  }

  lemma ConsNewest(x: User, us: seq<User>)
    requires NewestFirst(us) && (us != [] ==> x.createdAt >= us[0].createdAt)
    ensures NewestFirst([x] + us)
  {
    var r := [x] + us;
    forall i, j | 0 <= i < j < |r| ensures r[i].createdAt >= r[j].createdAt {
      assert r[j] == us[j - 1];
      if i > 0 {
        assert r[i] == us[i - 1];
      } else if j > 1 {
        assert us[0].createdAt >= us[j - 1].createdAt;
      }
    }
  }

  /**
   * `.sort({ createdAt: -1 })`: newest first, the same records. MongoDB
   * promises no order among records created at the same instant; that this
   * definition keeps their store order is its own choice, and neither its
   * contract nor the listing's depends on it.
   */
  function SortByNewest(users: seq<User>): (r: seq<User>)
    ensures multiset(r) == multiset(users)
    ensures NewestFirst(r)
  {
    if users == [] then []
    else
      assert users == [users[0]] + users[1..];
      InsertByNewest(users[0], SortByNewest(users[1..]))
  }

  /**
   * `listUsers`: a missing or empty `search` lists everyone; otherwise the
   * term is compiled as a case-insensitive regular expression (`compile`
   * stands for the database's regex engine, Err for a pattern it refuses).
   * `findError` is the error the query rejects with for any other reason.
   * The answer is a 200 listing, or a 500 error exactly when the query fails.
   */
  function ListUsers(users: seq<User>, search: Option<string>, compile: string -> Result<string -> bool, string>,
                     findError: Option<string>, o: Origin): (r: Reply)
    ensures r.status == 200 || r.status == 500
    ensures r.status == 500 <==>
      findError.Some? || (search.GetOr("") != [] && compile(search.GetOr("")).Err?)
    ensures r.status == 500 ==> r.body.error && r.body.data.None?
    ensures r.status == 200 ==> !r.body.error && r.body.data.Some? && r.body.data.value.Listed?
  {
    var term := search.GetOr("");
    if findError.Some? then Failure(500, findError.value)
    else if term == [] then Success(200, UsersRetrieved, Listed(Publics(SortByNewest(users), o)))
    else
      match compile(term)
      case Err(m) => Failure(500, m)
      case Ok(test) => Success(200, UsersRetrieved, Listed(Publics(SortByNewest(Select(users, test)), o)))
  }

  /**
   * What the listing holds: every record for an empty search, otherwise exactly
   * the records the pattern finds, each as often as it is stored; newest first;
   * no password anywhere. A failed query answers 500 with its message.
   */
  lemma ListUsersContents(users: seq<User>, search: Option<string>, compile: string -> Result<string -> bool, string>,
                          findError: Option<string>, o: Origin)
    ensures var r := ListUsers(users, search, compile, findError, o);
      var term := search.GetOr("");
      && (findError.Some? ==> r == Failure(500, findError.value))
      && (findError.None? && term != [] && compile(term).Err? ==> r == Failure(500, compile(term).error))
      && (findError.None? && (term == [] || compile(term).Ok?) ==>
            exists shown: seq<User> ::
              && r == Success(200, UsersRetrieved, Listed(Publics(shown, o)))
              && NewestFirst(shown)
              && forall u :: multiset(shown)[u] ==
                   if term == [] || Hit(compile(term).value, u) then multiset(users)[u] else 0)
  {
    var term := search.GetOr("");
    if findError.Some? {
    } else if term == [] {
      var shown := SortByNewest(users);
      assert forall u :: multiset(shown)[u] == multiset(users)[u];
    } else if compile(term).Ok? {
      var shown := SortByNewest(Select(users, compile(term).value));
      assert forall u :: multiset(shown)[u] == multiset(Select(users, compile(term).value))[u];
    }
  }

  // ----- uploadProfilePicture -----

  const NoFile := "No file uploaded"
  const UserNotFound := "User not found"
  const PictureSaved := "Profile picture uploaded successfully"

  /** `findById(id)`: the position of the record with this id; an undefined id finds nothing. */
  function FindById(users: seq<User>, id: Option<Id>): (r: Option<nat>)
    ensures r.Some? ==> r.value < |users| && id == Some(users[r.value].id)
    ensures r.None? ==> id.None? || forall i :: 0 <= i < |users| ==> users[i].id != id.value
  {
    FindByIdFrom(users, id, 0)
  }

  function FindByIdFrom(users: seq<User>, id: Option<Id>, from: nat): (r: Option<nat>)
    requires from <= |users|
    ensures r.Some? ==> from <= r.value < |users| && id == Some(users[r.value].id)
    ensures r.None? ==> id.None? || forall i :: from <= i < |users| ==> users[i].id != id.value
    decreases |users| - from
  {
    if from == |users| then None
    else if id == Some(users[from].id) then Some(from)
    else FindByIdFrom(users, id, from + 1)
  }

  /** `user.profilePicture` is truthy. */
  predicate HasPicture(u: User) {
    u.profilePicture.Some? && u.profilePicture.value != []
  }

  /** The record has a picture and `existsSync` finds its file. */
  predicate OldPictureOnDisk(u: User, files: set<string>, resolve: string -> string) {
    HasPicture(u) && resolve(u.profilePicture.value) in files
  }

  /** The stored picture path: the configured storage path without its first "./", then the file name. */
  function PicturePath(storagePath: string, filename: string): string {
    "/" + ReplaceFirst(storagePath, "./", "") + "/" + filename
  }

  /** A storage path `./<dir>` (the default is `./uploads`) serves pictures from `/<dir>/<filename>`. */
  lemma DotRelativePicturePath(dir: string, filename: string)
    ensures PicturePath("./" + dir, filename) == "/" + dir + "/" + filename
  {
    var s := "./" + dir;
    assert OccursAt(s, "./", 0) by {
      assert s[0..2] == "./";
    }
    assert ReplaceFirst(s, "./", "") == dir by {
      assert s[..0] + "" + s[2..] == s[2..] == dir;
    }
  }

  /** The answer (None when an exception escapes the handler), the store and the files afterwards. */
  datatype Upshot = Upshot(reply: Option<Reply>, users: seq<User>, files: set<string>)

  /**
   * What the calls into the database and the file system throw, if they do:
   * `findById`, the `unlinkSync` of the old picture, and `user.save()`.
   */
  datatype UploadFaults = UploadFaults(findError: Option<string>, unlinkError: Option<string>, saveError: Option<string>)

  /** The TypeError `req.user.userId` throws when the auth gate attached no claims. */
  const UndefinedUser := "Cannot read properties of undefined (reading 'userId')"
  /** The TypeError `.replace` throws when `local_storage_path` is not configured. */
  const UndefinedStoragePath := "Cannot read properties of undefined (reading 'replace')"

  /**
   * The catch block: unlink the upload and answer 500 with the error's message.
   * When the upload is already gone, unlinkSync throws out of the catch block
   * and the handler never answers. The store is never touched.
   */
  function Caught(users: seq<User>, files: set<string>, upload: string, message: string): (r: Upshot)
    ensures r.users == users && r.files == files - {upload}
    ensures r.reply.Some? <==> upload in files
    ensures r.reply.Some? ==> r.reply.value == Failure(500, message)
  {
    if upload in files then Upshot(Some(Failure(500, message)), users, files - {upload})
    else Upshot(None, users, files)
  }

  /** The old picture's file after `if (existsSync(p)) unlinkSync(p)`. */
  function WithoutOldPicture(u: User, files: set<string>, resolve: string -> string): (kept: set<string>)
    ensures kept <= files
    ensures HasPicture(u) ==> kept == files - {resolve(u.profilePicture.value)}
    ensures !HasPicture(u) ==> kept == files
  {
    if OldPictureOnDisk(u, files, resolve) then files - {resolve(u.profilePicture.value)}
    else files
  }

  /** Two versions of a record that differ at most in the picture and updatedAt. */
  predicate SameAccount(v: User, u: User) {
    v.(profilePicture := u.profilePicture, updatedAt := u.updatedAt) == u
  }

  /**
   * `uploadProfilePicture`. `files` are the files on disk, `file` what the
   * upload middleware stored, `claims` what the auth gate attached, `resolve`
   * is `path.join(__dirname, '../../', p)`, `storagePath` the configured
   * `local_storage_path` (None when it is not set), `faults` what the calls
   * into the database and the file system throw. The handler never creates a
   * file, never changes anything in a record but its picture and updatedAt,
   * and changes the store only when it answers 200.
   */
  function Upload(users: seq<User>, files: set<string>, file: Option<UploadedFile>, claims: Option<Claims>,
                  o: Origin, resolve: string -> string, storagePath: Option<string>, faults: UploadFaults,
                  now: int): (r: Upshot)
    ensures r.files <= files
    ensures |r.users| == |users| && forall j :: 0 <= j < |users| ==> SameAccount(r.users[j], users[j])
    ensures r.reply.Some? ==>
      var st := r.reply.value.status;
      st == 200 || st == 400 || st == 404 || st == 500
    ensures r.reply.None? || r.reply.value.status != 200 ==>
      r.users == users && (r.reply.Some? ==> r.reply.value.body.error && r.reply.value.body.data.None?)
  {
    if file.None? then Upshot(Some(Failure(400, NoFile)), users, files)
    else
      var f := file.value;
      if claims.None? then Caught(users, files, f.path, UndefinedUser)
      else if faults.findError.Some? then Caught(users, files, f.path, faults.findError.value)
      else
        match FindById(users, claims.value.userId)
        case None =>
          // when the upload is missing, both this unlinkSync and the catch block's throw
          if f.path in files then Upshot(Some(Failure(404, UserNotFound)), users, files - {f.path})
          else Upshot(None, users, files)
        case Some(i) =>
          var u := users[i];
          if OldPictureOnDisk(u, files, resolve) && faults.unlinkError.Some? then
            Caught(users, files, f.path, faults.unlinkError.value)
          else
            var kept := WithoutOldPicture(u, files, resolve);
            if storagePath.None? then Caught(users, kept, f.path, UndefinedStoragePath)
            else
              var pic := PicturePath(storagePath.value, f.filename);
              if faults.saveError.Some? then Caught(users, kept, f.path, faults.saveError.value)
              else
                Upshot(Some(Success(200, PictureSaved,
                                    PictureUploaded(u.id, u.name, u.email, GetFullImageUrl(o, Some(pic))))),
                       users[i := WithPicture(u, pic, now)], kept)
  }

  /** Without a file: 400, and neither the store nor the files change. */
  lemma UploadWithoutFile(users: seq<User>, files: set<string>, claims: Option<Claims>, o: Origin,
                          resolve: string -> string, storagePath: Option<string>, faults: UploadFaults, now: int)
    ensures Upload(users, files, None, claims, o, resolve, storagePath, faults, now)
      == Upshot(Some(Failure(400, NoFile)), users, files)
  {
  }

  /** An unknown user: the store is untouched, the upload is deleted, and the answer is 404. */
  lemma UploadUnknownUser(users: seq<User>, files: set<string>, f: UploadedFile, claims: Claims, o: Origin,
                          resolve: string -> string, storagePath: Option<string>, faults: UploadFaults, now: int)
    requires faults.findError.None?
    requires claims.userId.None? || forall i :: 0 <= i < |users| ==> users[i].id != claims.userId.value
    requires f.path in files
    ensures Upload(users, files, Some(f), Some(claims), o, resolve, storagePath, faults, now)
      == Upshot(Some(Failure(404, UserNotFound)), users, files - {f.path})
  {
  }

  /**
   * Cleanup: once a file was received, every outcome but success leaves the
   * upload deleted, whichever call threw; the handler deletes nothing but the
   * upload and the old picture, and creates nothing.
   */
  lemma UploadCleansUp(users: seq<User>, files: set<string>, f: UploadedFile, claims: Option<Claims>, o: Origin,
                       resolve: string -> string, storagePath: Option<string>, faults: UploadFaults, now: int)
    ensures var r := Upload(users, files, Some(f), claims, o, resolve, storagePath, faults, now);
      && (r.reply.None? || r.reply.value.status != 200 ==> f.path !in r.files)
      && r.files <= files
      && forall p :: p in files && p !in r.files ==>
           p == f.path || exists i :: 0 <= i < |users| && HasPicture(users[i]) && p == resolve(users[i].profilePicture.value)
  {
    var r := Upload(users, files, Some(f), claims, o, resolve, storagePath, faults, now);
    if claims.Some? && faults.findError.None? {
      match FindById(users, claims.value.userId)
      case None =>
      case Some(i) =>
        var kept := WithoutOldPicture(users[i], files, resolve);
        forall p | p in files && p !in r.files
          ensures p == f.path || exists i :: 0 <= i < |users| && HasPicture(users[i]) && p == resolve(users[i].profilePicture.value)
        {
          if p != f.path {
            assert p !in kept;
          }
        }
    }
  }

  /**
   * Success exactly when the claims are there, the user exists, and neither
   * the lookup, the deletion of an old picture, the storage path nor the save
   * fails: the old picture's file is gone, the record's picture is the new
   * path, nothing else in the store changes, and the answer carries the full URL.
   */
  lemma UploadSuccess(users: seq<User>, files: set<string>, f: UploadedFile, claims: Option<Claims>, o: Origin,
                      resolve: string -> string, storagePath: Option<string>, faults: UploadFaults, now: int)
    ensures var r := Upload(users, files, Some(f), claims, o, resolve, storagePath, faults, now);
      (r.reply.Some? && r.reply.value.status == 200) <==>
        && claims.Some? && faults.findError.None? && FindById(users, claims.value.userId).Some?
        && !(OldPictureOnDisk(users[FindById(users, claims.value.userId).value], files, resolve) && faults.unlinkError.Some?)
        && storagePath.Some? && faults.saveError.None?
    ensures var r := Upload(users, files, Some(f), claims, o, resolve, storagePath, faults, now);
      r.reply.Some? && r.reply.value.status == 200 ==>
        var i := FindById(users, claims.value.userId).value;
        var pic := PicturePath(storagePath.value, f.filename);
        && r.users[i].profilePicture == Some(pic) && r.users[i].updatedAt == now
        && (forall j :: 0 <= j < |users| && j != i ==> r.users[j] == users[j])
        && (HasPicture(users[i]) ==> resolve(users[i].profilePicture.value) !in r.files)
        && r.files == WithoutOldPicture(users[i], files, resolve)
        && r.reply.value.body.data == Some(PictureUploaded(users[i].id, users[i].name, users[i].email,
                                                           Some(OriginText(o) + pic)))
  {
  }

  /**
   * The failures once a file was received: each answers 500 with the message
   * of what threw, with the store untouched and the upload deleted. Missing
   * claims, a failed lookup and a failed deletion of the old picture leave
   * the old picture in place; a missing storage path and a failed save come
   * after it was deleted.
   */
  lemma UploadFailures(users: seq<User>, files: set<string>, f: UploadedFile, claims: Option<Claims>, o: Origin,
                       resolve: string -> string, storagePath: Option<string>, faults: UploadFaults, now: int)
    requires f.path in files
    ensures var r := Upload(users, files, Some(f), claims, o, resolve, storagePath, faults, now);
      && (claims.None? ==> r == Upshot(Some(Failure(500, UndefinedUser)), users, files - {f.path}))
      && (claims.Some? && faults.findError.Some? ==>
            r == Upshot(Some(Failure(500, faults.findError.value)), users, files - {f.path}))
    ensures var r := Upload(users, files, Some(f), claims, o, resolve, storagePath, faults, now);
      claims.Some? && faults.findError.None? && FindById(users, claims.value.userId).Some? ==>
        var u := users[FindById(users, claims.value.userId).value];
        && (OldPictureOnDisk(u, files, resolve) && faults.unlinkError.Some? ==>
              r == Upshot(Some(Failure(500, faults.unlinkError.value)), users, files - {f.path}))
        && (!(OldPictureOnDisk(u, files, resolve) && faults.unlinkError.Some?)
            && !(HasPicture(u) && resolve(u.profilePicture.value) == f.path) ==>
              && (storagePath.None? ==>
                    r == Upshot(Some(Failure(500, UndefinedStoragePath)), users,
                                WithoutOldPicture(u, files, resolve) - {f.path}))
              && (storagePath.Some? && faults.saveError.Some? ==>
                    r == Upshot(Some(Failure(500, faults.saveError.value)), users,
                                WithoutOldPicture(u, files, resolve) - {f.path})))
  {
  }

  /** Setting a picture keeps the store's invariant. */
  lemma UploadPreservesValid(users: seq<User>, files: set<string>, file: Option<UploadedFile>, claims: Option<Claims>,
                             o: Origin, resolve: string -> string, storagePath: Option<string>, faults: UploadFaults,
                             now: int)
    requires Valid(users)
    ensures Valid(Upload(users, files, file, claims, o, resolve, storagePath, faults, now).users)
  {
    var us := Upload(users, files, file, claims, o, resolve, storagePath, faults, now).users;
    forall j | 0 <= j < |us| ensures us[j].id == users[j].id && us[j].email == users[j].email && IsNormalized(us[j]) {
      assert SameAccount(us[j], users[j]);
      assert IsNormalized(users[j]);
    }
  }

  /** The users collection and the upload directory, as the upload handler changes them in place. */
  class UserStore {
    var users: seq<User>
    var files: set<string>

    constructor (users: seq<User>, files: set<string>)
      ensures this.users == users && this.files == files
    {
      this.users := users;
      this.files := files;
    }

    /** `fs.unlinkSync(p)`: false when there is no such file, which is when it throws. */
    method Unlink(p: string) returns (removed: bool)
      modifies this
      ensures removed == (p in old(files))
      ensures files == old(files) - {p} && users == old(users)
    {
      removed := p in files;
      files := files - {p};
    }

    /** The catch block, run on the current store and files. */
    method Fail(upload: string, message: string) returns (reply: Option<Reply>)
      modifies this
      ensures Upshot(reply, users, files) == Caught(old(users), old(files), upload, message)
    {
      var removed := Unlink(upload);
      if removed {
        return Some(Failure(500, message));
      }
      // the catch block's own unlinkSync throws
      return None;
    }

    /** `uploadProfilePicture(req, res)`, step by step as the handler runs. */
    method UploadProfilePicture(req: Request, o: Origin, resolve: string -> string, storagePath: Option<string>,
                                faults: UploadFaults, now: int) returns (reply: Option<Reply>)
      modifies this
      ensures Upshot(reply, users, files)
        == Upload(old(users), old(files), req.file, req.user, o, resolve, storagePath, faults, now)
    {
      if req.file.None? {
        return Some(Failure(400, NoFile));
      }
      var file := req.file.value;
      if req.user.None? {
        reply := Fail(file.path, UndefinedUser);
        return;
      }
      var userId := req.user.value.userId;
      if faults.findError.Some? {
        reply := Fail(file.path, faults.findError.value);
        return;
      }
      var i := 0;
      while i < |users| && userId != Some(users[i].id)
        invariant 0 <= i <= |users|
        invariant FindById(users, userId) == FindByIdFrom(users, userId, i)
      {
        i := i + 1;
      }
      if i == |users| {
        var removed := Unlink(file.path);
        if removed {
          return Some(Failure(404, UserNotFound));
        }
        // the catch block's own unlinkSync throws as well
        return None;
      }
      var user := users[i];
      if user.profilePicture.Some? && user.profilePicture.value != [] {
        var oldPicturePath := resolve(user.profilePicture.value);
        if oldPicturePath in files {
          if faults.unlinkError.Some? {
            reply := Fail(file.path, faults.unlinkError.value);
            return;
          }
          var _ := Unlink(oldPicturePath);
        }
      }
      if storagePath.None? {
        reply := Fail(file.path, UndefinedStoragePath);
        return;
      }
      var uploadBasePath := ReplaceFirst(storagePath.value, "./", "");
      var profilePicturePath := "/" + uploadBasePath + "/" + file.filename;
      if faults.saveError.Some? {
        reply := Fail(file.path, faults.saveError.value);
        return;
      }
      users := users[i := WithPicture(user, profilePicturePath, now)];
      reply := Some(Success(200, PictureSaved,
                            PictureUploaded(user.id, user.name, user.email, GetFullImageUrl(o, Some(profilePicturePath)))));
    }
  }
}
