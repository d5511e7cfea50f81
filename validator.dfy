/**
 * The two Joi schemas and the middlewares that apply them to `req.body`.
 * Joi runs with its defaults: every key of the schema is checked in the order
 * it is declared, the first failing check is the one reported (abortEarly),
 * and a key the schema does not declare is an error of its own, reported
 * after the declared keys.
 */
module Validator {
  import opened Wrappers
  import opened JsString
  import opened Js
  import opened Api

  /** A check a string key carries after `Joi.string()`. */
  datatype Rule = MinLength(n: nat) | MaxLength(n: nat) | Email | TenDigits

  /** A required string key, its rules, and a replacement text for a pattern failure. */
  datatype Field = Field(key: string, rules: seq<Rule>, patternMessage: Option<string>)

  type Schema = seq<Field>

  const MobileMessage := "Mobile number must be 10 digits"

  const RegistrationSchema: Schema := [
    Field("name", [MinLength(2), MaxLength(100)], None),
    Field("email", [Email], None),
    Field("mobile", [TenDigits], Some(MobileMessage)),
    Field("password", [MinLength(6)], None)
  ]

  const LoginSchema: Schema := [
    Field("email", [Email], None),
    Field("password", [], None)
  ]

  /** One error detail, as Joi produces it. */
  datatype Detail =
    | Required(key: string)
    | NotString(key: string)
    | Empty(key: string)
    | Broken(key: string, rule: Rule, custom: Option<string>, value: string)
    | NotAllowed(key: string)

  function Decimal(n: nat): (s: string)
    ensures |s| >= 1
  {
    if n < 10 then ["0123456789"[n]] else Decimal(n / 10) + ["0123456789"[n % 10]]
  }

  function Label(key: string): string { "\"" + key + "\"" }

  /** The message Joi's default English texts give, or the override. */
  function Message(d: Detail): string {
    match d
    case Required(k) => Label(k) + " is required"
    case NotString(k) => Label(k) + " must be a string"
    case Empty(k) => Label(k) + " is not allowed to be empty"
    case NotAllowed(k) => Label(k) + " is not allowed"
    case Broken(k, rule, custom, v) =>
      match rule
      case MinLength(n) => Label(k) + " length must be at least " + Decimal(n) + " characters long"
      case MaxLength(n) => Label(k) + " length must be less than or equal to " + Decimal(n) + " characters long"
      case Email => Label(k) + " must be a valid email"
      case TenDigits =>
        if custom.Some? then custom.value
        else Label(k) + " with value " + Label(v) + " fails to match the required pattern: /^[0-9]{10}$/"
  }

  predicate IsTenDigits(s: string) {
    |s| == 10 && forall i :: 0 <= i < |s| ==> '0' <= s[i] <= '9'
  }

  /** Whether a rule holds of a non-empty string; lengths are counted in UTF-16 code units. */
  predicate Holds(r: Rule, s: string, isEmail: string -> bool) {
    match r
    case MinLength(n) => Utf16Length(s) >= n
    case MaxLength(n) => Utf16Length(s) <= n
    case Email => isEmail(s)
    case TenDigits => IsTenDigits(s)
  }

  /** The first rule, in declaration order, that `s` breaks. */
  function RuleError(f: Field, rules: seq<Rule>, s: string, isEmail: string -> bool): (d: Option<Detail>)
    ensures d.None? <==> forall i :: 0 <= i < |rules| ==> Holds(rules[i], s, isEmail)
    ensures d.Some? ==>
      exists i :: (0 <= i < |rules| && !Holds(rules[i], s, isEmail)
        && (forall j :: 0 <= j < i ==> Holds(rules[j], s, isEmail))
        && d == Some(Broken(f.key, rules[i], f.patternMessage, s)))
  {
    if rules == [] then None
    else if !Holds(rules[0], s, isEmail) then Some(Broken(f.key, rules[0], f.patternMessage, s))
    else
      assert forall i :: 1 <= i < |rules| ==> rules[i] == rules[1..][i - 1];
      RuleError(f, rules[1..], s, isEmail)
  }

  /** The string under `k`, if the body holds one. */
  function StrAt(body: Object, k: string): Option<string> {
    match Get(body, k)
    case Some(Str(s)) => Some(s)
    case _ => None
  }

  /** One declared key: present, then a string, then not empty, then its rules. */
  function FieldError(f: Field, body: Object, isEmail: string -> bool): Option<Detail> {
    match Get(body, f.key)
    case None => Some(Required(f.key))
    case Some(Other(_)) => Some(NotString(f.key))
    case Some(Str(s)) =>
      if s == [] then Some(Empty(f.key)) else RuleError(f, f.rules, s, isEmail)
  }

  /** The declared keys in order, stopping at the first that fails. */
  function FirstFieldError(schema: Schema, body: Object, isEmail: string -> bool): (d: Option<Detail>)
    ensures d.None? <==> forall i :: 0 <= i < |schema| ==> FieldError(schema[i], body, isEmail).None?
    ensures d.Some? ==>
      exists i :: (0 <= i < |schema| && d == FieldError(schema[i], body, isEmail) && (forall j :: 0 <= j < i ==> FieldError(schema[j], body, isEmail).None?))
  {
    if schema == [] then None
    else if FieldError(schema[0], body, isEmail).Some? then FieldError(schema[0], body, isEmail)
    else
      var d := FirstFieldError(schema[1..], body, isEmail);
      assert forall i :: 1 <= i < |schema| ==> schema[i] == schema[1..][i - 1];
      d
  }

  function SchemaKeys(schema: Schema): (ks: seq<string>)
    ensures |ks| == |schema| && forall i :: 0 <= i < |schema| ==> ks[i] == schema[i].key
  {
    if schema == [] then [] else [schema[0].key] + SchemaKeys(schema[1..])
  }

  /** The first key of the body, in the body's key order, that the schema does not declare. */
  function FirstUnknown(declared: seq<string>, keys: seq<string>): (d: Option<Detail>)
    ensures d.None? <==> forall i :: 0 <= i < |keys| ==> keys[i] in declared
    ensures d.Some? ==> d.value.NotAllowed? && d.value.key in keys && d.value.key !in declared
    ensures d.Some? ==>
      exists i :: 0 <= i < |keys| && d == Some(NotAllowed(keys[i])) && keys[i] !in declared
        && forall j :: 0 <= j < i ==> keys[j] in declared
  {
    if keys == [] then None
    else if keys[0] !in declared then Some(NotAllowed(keys[0]))
    else
      assert forall i :: 1 <= i < |keys| ==> keys[i] == keys[1..][i - 1];
      FirstUnknown(declared, keys[1..])
  }

  /** `schema.validate(body).error.details[0]`, or None when the body validates. */
  function Validate(schema: Schema, body: Object, isEmail: string -> bool): (d: Option<Detail>)
    ensures d.None? <==>
      (forall i :: 0 <= i < |schema| ==> FieldError(schema[i], body, isEmail).None?)
      && OnlyKeys(body, SchemaKeys(schema))
    ensures d.Some? && d.value.NotAllowed? ==> d.value.key in Keys(body) && d.value.key !in SchemaKeys(schema)
    ensures FirstFieldError(schema, body, isEmail).None? ==> d == FirstUnknown(SchemaKeys(schema), Keys(body))
    ensures d.Some? && d.value.NotAllowed? ==>
      && (forall i :: 0 <= i < |schema| ==> FieldError(schema[i], body, isEmail).None?)
      && exists i :: 0 <= i < |Keys(body)| && d.value.key == Keys(body)[i] && Keys(body)[i] !in SchemaKeys(schema)
           && forall j :: 0 <= j < i ==> Keys(body)[j] in SchemaKeys(schema)
  {
    UnknownPasses(SchemaKeys(schema), body);
    if FirstFieldError(schema, body, isEmail).Some? then FirstFieldError(schema, body, isEmail)
    else FirstUnknown(SchemaKeys(schema), Keys(body))
  }

  /**
   * The middleware around one schema. `thrown` stands for an exception raised
   * while validating, with its message; the catch block answers 400 as well.
   */
  function Check(schema: Schema, body: Object, isEmail: string -> bool, thrown: Option<string>): (g: Gate)
    ensures g == Next <==> thrown.None? && Validate(schema, body, isEmail).None?
    ensures g.Stop? ==> g.reply.status == 400 && g.reply.body.error && g.reply.body.data.None?
    ensures thrown.Some? ==> g == Stop(Failure(400, "Validation Error: " + thrown.value))
    ensures thrown.None? && Validate(schema, body, isEmail).Some? ==>
      g == Stop(Failure(400, Message(Validate(schema, body, isEmail).value)))
  {
    if thrown.Some? then Stop(Failure(400, "Validation Error: " + thrown.value))
    else
      match Validate(schema, body, isEmail)
      case Some(d) => Stop(Failure(400, Message(d)))
      case None => Next
  }

  /** Calls next() exactly for a body `RegistrationOk` describes; every other answer is a 400 error. */
  function RegistrationValidate(body: Object, isEmail: string -> bool, thrown: Option<string>): (g: Gate)
    ensures g == Next <==> thrown.None? && RegistrationOk(body, isEmail)
    ensures g.Stop? ==> g.reply.status == 400 && g.reply.body.error && g.reply.body.data.None?
    ensures thrown.Some? ==> g == Stop(Failure(400, "Validation Error: " + thrown.value))
  {
    RegistrationAccepts(body, isEmail);
    Check(RegistrationSchema, body, isEmail, thrown)
  }

  /** Calls next() exactly for a body `LoginOk` describes; every other answer is a 400 error. */
  function LoginValidate(body: Object, isEmail: string -> bool, thrown: Option<string>): (g: Gate)
    ensures g == Next <==> thrown.None? && LoginOk(body, isEmail)
    ensures g.Stop? ==> g.reply.status == 400 && g.reply.body.error && g.reply.body.data.None?
    ensures thrown.Some? ==> g == Stop(Failure(400, "Validation Error: " + thrown.value))
  {
    LoginAccepts(body, isEmail);
    Check(LoginSchema, body, isEmail, thrown)
  }

  // ----- what the schemas accept, stated without Joi's evaluation order -----

  predicate NameOk(body: Object) {
    StrAt(body, "name").Some? && 2 <= Utf16Length(StrAt(body, "name").value) <= 100
  }

  predicate EmailOk(body: Object, isEmail: string -> bool) {
    StrAt(body, "email").Some? && StrAt(body, "email").value != [] && isEmail(StrAt(body, "email").value)
  }

  predicate MobileOk(body: Object) {
    StrAt(body, "mobile").Some? && IsTenDigits(StrAt(body, "mobile").value)
  }

  predicate PasswordOk(body: Object, min: nat) {
    StrAt(body, "password").Some? && StrAt(body, "password").value != []
    && Utf16Length(StrAt(body, "password").value) >= min
  }

  predicate OnlyKeys(body: Object, allowed: seq<string>) {
    forall k :: k in Keys(body) ==> k in allowed
  }

  /** name of 2..100, a non-empty email the format accepts, ten digits, a password of 6 or more, no other key. */
  predicate RegistrationOk(body: Object, isEmail: string -> bool) {
    && NameOk(body) && EmailOk(body, isEmail) && MobileOk(body) && PasswordOk(body, 6)
    && OnlyKeys(body, ["name", "email", "mobile", "password"])
  }

  /** A non-empty email the format accepts, a non-empty password of any length, no other key. */
  predicate LoginOk(body: Object, isEmail: string -> bool) {
    EmailOk(body, isEmail) && PasswordOk(body, 0) && OnlyKeys(body, ["email", "password"])
  }

  /** The declared key `f` passes exactly when the body holds a non-empty string there that keeps every rule. */
  lemma FieldPasses(f: Field, body: Object, isEmail: string -> bool)
    ensures FieldError(f, body, isEmail).None? <==>
      StrAt(body, f.key).Some? && StrAt(body, f.key).value != []
      && forall i :: 0 <= i < |f.rules| ==> Holds(f.rules[i], StrAt(body, f.key).value, isEmail)
  {
  }

  lemma NamePasses(body: Object, isEmail: string -> bool)
    ensures FieldError(RegistrationSchema[0], body, isEmail).None? <==> NameOk(body)
  {
    var f := RegistrationSchema[0];
    assert f == Field("name", [MinLength(2), MaxLength(100)], None);
    FieldPasses(f, body, isEmail);
    if NameOk(body) {
      var v := StrAt(body, "name").value;
      assert |v| >= 1;
      assert Holds(MinLength(2), v, isEmail) && Holds(MaxLength(100), v, isEmail);
      assert forall i :: 0 <= i < |f.rules| ==> Holds(f.rules[i], v, isEmail);
    }
    if FieldError(f, body, isEmail).None? {
      var v := StrAt(body, "name").value;
      assert Holds(f.rules[0], v, isEmail) && Holds(f.rules[1], v, isEmail);
    }
  }

  lemma EmailPasses(f: Field, body: Object, isEmail: string -> bool)
    requires f == Field("email", [Email], None)
    ensures FieldError(f, body, isEmail).None? <==> EmailOk(body, isEmail)
  {
    FieldPasses(f, body, isEmail);
  }

  lemma MobilePasses(body: Object, isEmail: string -> bool)
    ensures FieldError(RegistrationSchema[2], body, isEmail).None? <==> MobileOk(body)
  {
    FieldPasses(RegistrationSchema[2], body, isEmail);
  }

  lemma PasswordPasses(f: Field, min: nat, body: Object, isEmail: string -> bool)
    requires f == Field("password", if min == 0 then [] else [MinLength(min)], None)
    ensures FieldError(f, body, isEmail).None? <==> PasswordOk(body, min)
  {
    FieldPasses(f, body, isEmail);
  }

  lemma UnknownPasses(declared: seq<string>, body: Object)
    ensures FirstUnknown(declared, Keys(body)).None? <==> OnlyKeys(body, declared)
  {
    var ks := Keys(body);
    if FirstUnknown(declared, ks).None? {
      forall k | k in ks ensures k in declared {
        var i :| 0 <= i < |ks| && ks[i] == k;
      }
    }
  }

  /** Registration validates exactly the bodies `RegistrationOk` describes. */
  lemma RegistrationAccepts(body: Object, isEmail: string -> bool)
    ensures Validate(RegistrationSchema, body, isEmail).None? <==> RegistrationOk(body, isEmail)
  {
    var s := RegistrationSchema;
    NamePasses(body, isEmail);
    EmailPasses(s[1], body, isEmail);
    MobilePasses(body, isEmail);
    PasswordPasses(s[3], 6, body, isEmail);
    var ok := FirstFieldError(s, body, isEmail).None?;
    assert ok <==> forall i :: 0 <= i < 4 ==> FieldError(s[i], body, isEmail).None?;
    assert ok <==> NameOk(body) && EmailOk(body, isEmail) && MobileOk(body) && PasswordOk(body, 6) by {
      if NameOk(body) && EmailOk(body, isEmail) && MobileOk(body) && PasswordOk(body, 6) {
        forall i | 0 <= i < 4 ensures FieldError(s[i], body, isEmail).None? {
          if i == 0 {} else if i == 1 {} else if i == 2 {} else {}
        }
      }
    }
    assert SchemaKeys(s) == ["name", "email", "mobile", "password"];
    UnknownPasses(SchemaKeys(s), body);
  }

  /** Login validates exactly the bodies `LoginOk` describes. */
  lemma LoginAccepts(body: Object, isEmail: string -> bool)
    ensures Validate(LoginSchema, body, isEmail).None? <==> LoginOk(body, isEmail)
  {
    var s := LoginSchema;
    EmailPasses(s[0], body, isEmail);
    PasswordPasses(s[1], 0, body, isEmail);
    var ok := FirstFieldError(s, body, isEmail).None?;
    assert ok <==> forall i :: 0 <= i < 2 ==> FieldError(s[i], body, isEmail).None?;
    assert ok <==> EmailOk(body, isEmail) && PasswordOk(body, 0) by {
      if EmailOk(body, isEmail) && PasswordOk(body, 0) {
        forall i | 0 <= i < 2 ensures FieldError(s[i], body, isEmail).None? {
          if i == 0 {} else {}
        }
      }
    }
    assert SchemaKeys(s) == ["email", "password"];
    UnknownPasses(SchemaKeys(s), body);
  }

  /** The outcome of the declared keys when the first `n` pass and key `n` fails. */
  lemma FailsAt(schema: Schema, body: Object, isEmail: string -> bool, n: nat)
    requires n < |schema|
    requires forall j :: 0 <= j < n ==> FieldError(schema[j], body, isEmail).None?
    requires FieldError(schema[n], body, isEmail).Some?
    ensures FirstFieldError(schema, body, isEmail) == FieldError(schema[n], body, isEmail)
    ensures Validate(schema, body, isEmail) == FieldError(schema[n], body, isEmail)
  {
    var d := FirstFieldError(schema, body, isEmail);
    var i :| 0 <= i < |schema| && d == FieldError(schema[i], body, isEmail)
      && forall j :: 0 <= j < i ==> FieldError(schema[j], body, isEmail).None?;
    assert i == n;
  }

  /** With name and email in order, a non-empty mobile that is not ten digits reports the custom text. */
  lemma MobileMismatchMessage(body: Object, isEmail: string -> bool)
    requires NameOk(body) && EmailOk(body, isEmail)
    requires StrAt(body, "mobile").Some? && StrAt(body, "mobile").value != []
    requires !IsTenDigits(StrAt(body, "mobile").value)
    ensures RegistrationValidate(body, isEmail, None) == Stop(Failure(400, MobileMessage))
  {
    var v := StrAt(body, "mobile").value;
    MobileFirstError(body, isEmail);
    CustomMessage("mobile", v, MobileMessage);
  }

  /** Under the same conditions the mobile's pattern failure is the detail Joi reports. */
  lemma MobileFirstError(body: Object, isEmail: string -> bool)
    requires NameOk(body) && EmailOk(body, isEmail)
    requires StrAt(body, "mobile").Some? && StrAt(body, "mobile").value != []
    requires !IsTenDigits(StrAt(body, "mobile").value)
    ensures Validate(RegistrationSchema, body, isEmail)
      == Some(Broken("mobile", TenDigits, Some(MobileMessage), StrAt(body, "mobile").value))
  {
    var s := RegistrationSchema;
    var d := Broken("mobile", TenDigits, Some(MobileMessage), StrAt(body, "mobile").value);
    NamePasses(body, isEmail);
    EmailPasses(s[1], body, isEmail);
    MobileBroken(s[2], body, isEmail);
    assert FieldError(s[0], body, isEmail).None? && FieldError(s[1], body, isEmail).None?;
    assert forall j :: 0 <= j < 2 ==> FieldError(s[j], body, isEmail).None? by {
      forall j | 0 <= j < 2 ensures FieldError(s[j], body, isEmail).None? {
        if j == 0 {} else {}
      }
    }
    assert FieldError(s[2], body, isEmail) == Some(d);
    FailsAt(s, body, isEmail, 2);
  }

  /** A pattern failure with a replacement text reports exactly that text. */
  lemma CustomMessage(k: string, v: string, m: string)
    ensures Message(Broken(k, TenDigits, Some(m), v)) == m
  {
  }

  lemma MobileBroken(f: Field, body: Object, isEmail: string -> bool)
    requires f == Field("mobile", [TenDigits], Some(MobileMessage))
    requires StrAt(body, "mobile").Some? && StrAt(body, "mobile").value != []
    requires !IsTenDigits(StrAt(body, "mobile").value)
    ensures FieldError(f, body, isEmail) == Some(Broken("mobile", TenDigits, Some(MobileMessage), StrAt(body, "mobile").value))
  {
  }

  /** First error wins: a short name is reported although every later key is missing. */
  lemma FirstErrorWins(isEmail: string -> bool)
    ensures Validate(RegistrationSchema, [("name", Str("A"))], isEmail)
      == Some(Broken("name", MinLength(2), None, "A"))
  {
    var body := [("name", Str("A"))];
    assert Utf16Length("A") == 1;
    assert FieldError(RegistrationSchema[0], body, isEmail)
      == Some(Broken("name", MinLength(2), None, "A"));
    FailsAt(RegistrationSchema, body, isEmail, 0);
  }

  /** Login puts no length bound on the password. */
  lemma LoginShortPassword(isEmail: string -> bool)
    requires isEmail("a@b.co")
    ensures LoginValidate([("email", Str("a@b.co")), ("password", Str("x"))], isEmail, None) == Next
  {
    var login := [("email", Str("a@b.co")), ("password", Str("x"))];
    assert Keys(login) == ["email", "password"];
    assert StrAt(login, "email") == Some("a@b.co");
    assert StrAt(login, "password") == Some("x");
    assert LoginOk(login, isEmail);
    LoginAccepts(login, isEmail);
  }

  /** Registration refuses every password shorter than six code units, whatever else the body holds. */
  lemma RegistrationRefusesShortPassword(body: Object, isEmail: string -> bool)
    requires StrAt(body, "password").Some? && Utf16Length(StrAt(body, "password").value) < 6
    ensures Validate(RegistrationSchema, body, isEmail).Some?
    ensures RegistrationValidate(body, isEmail, None).Stop?
  {
    RegistrationAccepts(body, isEmail);
  }
}
