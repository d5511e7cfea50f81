/**
 * `setRouter(app)`: four registrations of (verb, path, middleware chain), how
 * Express 4 picks the registration for a request (the first whose method
 * handles the request's, a GET route answering HEAD as well, and whose path
 * matches without regard to ASCII letter case and with one optional trailing
 * slash), and how it runs a chain: each stage either calls next() or
 * answers, and the first answer ends the request.
 */
module UserRouter {
  import opened Wrappers
  import opened JsString
  import opened Api

  /** The request methods the routes are registered for, and HEAD, which GET routes answer too. */
  datatype Verb = GET | POST | HEAD

  /** The middlewares and handlers a chain is made of. */
  datatype Stage =
    | RegistrationValidate
    | LoginValidate
    | AuthMiddleware
    | FileUpload(field: string)
    | RegisterUser
    | LoginUser
    | ListUsers
    | UploadProfilePicture

  /** A controller function: the last stage of its chain, which never calls next(). */
  predicate IsHandler(s: Stage) {
    s.RegisterUser? || s.LoginUser? || s.ListUsers? || s.UploadProfilePicture?
  }

  datatype Route = Route(verb: Verb, path: string, chain: seq<Stage>)

  const Suffixes: seq<string> := ["/register", "/login", "/users", "/upload-profile-picture"]

  /** The route table, in registration order, under the configured `apiVersion` prefix. */
  function Routes(apiVersion: string): (rs: seq<Route>)
    ensures |rs| == 4
    ensures forall i :: 0 <= i < 4 ==> rs[i].path == apiVersion + Suffixes[i]
  {
    [ Route(POST, apiVersion + "/register", [RegistrationValidate, RegisterUser]),
      Route(POST, apiVersion + "/login", [LoginValidate, LoginUser]),
      Route(GET, apiVersion + "/users", [AuthMiddleware, ListUsers]),
      Route(POST, apiVersion + "/upload-profile-picture",
            [AuthMiddleware, FileUpload("profilePicture"), UploadProfilePicture]) ]
  }

  /** The route handles the request's method: its own, or HEAD on a GET route. */
  predicate Handles(r: Route, verb: Verb) {
    r.verb == verb || (verb == HEAD && r.verb == GET)
  }

  /** The request path matches the route path: case-insensitively, with at most one trailing slash more. */
  predicate PathMatches(route: string, path: string) {
    ToLower(path) == ToLower(route) || ToLower(path) == ToLower(route) + "/"
  }

  predicate Serves(r: Route, verb: Verb, path: string) {
    Handles(r, verb) && PathMatches(r.path, path)
  }

  /** Express dispatch: the first registration that serves this method and path. */
  function Lookup(rs: seq<Route>, verb: Verb, path: string): (r: Option<Route>)
    ensures r.Some? ==>
      exists i :: (0 <= i < |rs| && rs[i] == r.value && Serves(rs[i], verb, path)
                   && forall j :: 0 <= j < i ==> !Serves(rs[j], verb, path))
    ensures r.None? ==> forall i :: 0 <= i < |rs| ==> !Serves(rs[i], verb, path)
  {
    if rs == [] then None
    else if Serves(rs[0], verb, path) then Some(rs[0])
    else
      var r := Lookup(rs[1..], verb, path);
      assert forall i :: 1 <= i < |rs| ==> rs[i] == rs[1..][i - 1];
      r
  }

  /** The stages that run, given what each would do: up to and including the first that answers. */
  function Reached(chain: seq<Stage>, gate: Stage -> Gate): (run: seq<Stage>)
    ensures |run| <= |chain| && run == chain[..|run|]
    ensures forall j :: 0 <= j < |run| - 1 ==> gate(run[j]) == Next
    ensures |run| < |chain| ==> |run| > 0 && gate(run[|run| - 1]).Stop?
  {
    if chain == [] then []
    else if gate(chain[0]).Stop? then [chain[0]]
    else [chain[0]] + Reached(chain[1..], gate)
  }

  /** The answer the request gets: the first stage's that stops; None if every stage called next(). */
  function Answer(chain: seq<Stage>, gate: Stage -> Gate): (r: Option<Reply>)
    ensures r.Some? <==> exists i :: 0 <= i < |chain| && gate(chain[i]).Stop?
  {
    if chain == [] then None
    else if gate(chain[0]).Stop? then Some(gate(chain[0]).reply)
    else
      assert forall i :: 1 <= i < |chain| ==> chain[i] == chain[1..][i - 1];
      Answer(chain[1..], gate)
  }

  /** A stage runs only when every stage before it in the chain called next(). */
  lemma {:induction false} RunsOnlyAfterNext(chain: seq<Stage>, gate: Stage -> Gate, i: nat)
    requires i < |chain|
    ensures i < |Reached(chain, gate)| <==> forall j :: 0 <= j < i ==> gate(chain[j]) == Next
  {
    if i > 0 && gate(chain[0]) == Next {
      RunsOnlyAfterNext(chain[1..], gate, i - 1);
      assert forall j :: 1 <= j < i ==> chain[j] == chain[1..][j - 1];
    }
  }

  /** Each registered chain ends in its one handler, and nothing before it is a handler. */
  lemma HandlersLast(apiVersion: string)
    ensures forall r :: r in Routes(apiVersion) ==>
      |r.chain| >= 2 && IsHandler(r.chain[|r.chain| - 1])
      && forall j :: 0 <= j < |r.chain| - 1 ==> !IsHandler(r.chain[j])
  {
  }

  /**
   * Register and login validate first and are public; both listing and
   * upload are behind the auth gate. A request is served by the route whose
   * path differs from its own at most in ASCII case and one trailing slash.
   */
  lemma ChainOrder(apiVersion: string, path: string)
    ensures PathMatches(apiVersion + "/register", path) ==>
      (Lookup(Routes(apiVersion), POST, path)
       == Some(Route(POST, apiVersion + "/register", [RegistrationValidate, RegisterUser])))
    ensures PathMatches(apiVersion + "/login", path) ==>
      (Lookup(Routes(apiVersion), POST, path)
       == Some(Route(POST, apiVersion + "/login", [LoginValidate, LoginUser])))
    ensures PathMatches(apiVersion + "/users", path) ==>
      (Lookup(Routes(apiVersion), GET, path)
       == Some(Route(GET, apiVersion + "/users", [AuthMiddleware, ListUsers])))
    ensures PathMatches(apiVersion + "/users", path) ==>
      (Lookup(Routes(apiVersion), HEAD, path)
       == Some(Route(GET, apiVersion + "/users", [AuthMiddleware, ListUsers])))
    ensures PathMatches(apiVersion + "/upload-profile-picture", path) ==>
      (Lookup(Routes(apiVersion), POST, path)
       == Some(Route(POST, apiVersion + "/upload-profile-picture",
                     [AuthMiddleware, FileUpload("profilePicture"), UploadProfilePicture])))
  {
    var rs := Routes(apiVersion);
    SuffixesDiffer(apiVersion, path);
    if PathMatches(rs[0].path, path) {
      LookupFirst(rs, 0, POST, path);
    }
    if PathMatches(rs[1].path, path) {
      LookupFirst(rs, 1, POST, path);
    }
    if PathMatches(rs[2].path, path) {
      LookupFirst(rs, 2, GET, path);
      LookupFirst(rs, 2, HEAD, path);
    }
    if PathMatches(rs[3].path, path) {
      LookupFirst(rs, 3, POST, path);
    }
  }

  /** Dispatch finds registration `i` when it serves the request and no earlier one does. */
  lemma {:induction false} LookupFirst(rs: seq<Route>, i: nat, verb: Verb, path: string)
    requires i < |rs| && Serves(rs[i], verb, path)
    requires forall j :: 0 <= j < i ==> !Serves(rs[j], verb, path)
    ensures Lookup(rs, verb, path) == Some(rs[i])
  {
    if i > 0 {
      assert forall j :: 0 <= j < i - 1 ==> rs[1..][j] == rs[j + 1];
      LookupFirst(rs[1..], i - 1, verb, path);
    }
  }

  /** A registered path, lower-cased: the prefix lower-cased, then the suffix as it is. */
  lemma LowerRoutePath(apiVersion: string, i: nat)
    requires i < 4
    ensures ToLower(apiVersion + Suffixes[i]) == ToLower(apiVersion) + Suffixes[i]
  {
    ToLowerAppend(apiVersion, Suffixes[i]);
    ToLowerOfLower(Suffixes[i]);
  }

  /** What a path matching a registered path tells about its lower-cased form: its length, and the character after the suffix's slash. */
  lemma MatchShape(apiVersion: string, i: nat, path: string)
    requires i < 4 && PathMatches(apiVersion + Suffixes[i], path)
    ensures |ToLower(path)| == |ToLower(apiVersion)| + |Suffixes[i]| || |ToLower(path)| == |ToLower(apiVersion)| + |Suffixes[i]| + 1
    ensures ToLower(path)[|ToLower(apiVersion)| + 1] == Suffixes[i][1]
  {
    LowerRoutePath(apiVersion, i);
    var v, p := ToLower(apiVersion), ToLower(path);
    if p == v + Suffixes[i] {
      assert p[|v| + 1] == Suffixes[i][1];
    } else {
      assert p == v + Suffixes[i] + "/";
      assert p[|v| + 1] == (v + Suffixes[i])[|v| + 1];
    }
  }

  /** No request path matches two of the registered paths. */
  lemma SuffixesDiffer(apiVersion: string, path: string)
    ensures forall i, j :: 0 <= i < j < 4 ==>
      !(PathMatches(apiVersion + Suffixes[i], path) && PathMatches(apiVersion + Suffixes[j], path))
  {
    assert |Suffixes[0]| == 9 && |Suffixes[1]| == 6 && |Suffixes[2]| == 6 && |Suffixes[3]| == 23;
    assert Suffixes[1][1] == 'l' && Suffixes[2][1] == 'u';
    forall i, j | 0 <= i < j < 4
      ensures !(PathMatches(apiVersion + Suffixes[i], path) && PathMatches(apiVersion + Suffixes[j], path))
    {
      if PathMatches(apiVersion + Suffixes[i], path) && PathMatches(apiVersion + Suffixes[j], path) {
        MatchShape(apiVersion, i, path);
        MatchShape(apiVersion, j, path);
      }
    }
  }

  /** Letter case and a trailing slash do not matter. */
  lemma LookupIgnoresCase(apiVersion: string)
    ensures Lookup(Routes(apiVersion), POST, apiVersion + "/Login/") == Some(Routes(apiVersion)[1])
  {
    ToLowerAppend(apiVersion, "/Login/");
    LowerRoutePath(apiVersion, 1);
    assert ToLower("/Login/") == "/login/";
    assert (ToLower(apiVersion) + "/login") + "/" == ToLower(apiVersion) + "/login/";
    ChainOrder(apiVersion, apiVersion + "/Login/");
  }

  /** HEAD reaches the GET route. */
  lemma HeadReachesGet(apiVersion: string)
    ensures Lookup(Routes(apiVersion), HEAD, apiVersion + "/users") == Some(Routes(apiVersion)[2])
  {
    ChainOrder(apiVersion, apiVersion + "/users");
  }

  /** A registered path asked for with another method finds no route. */
  lemma WrongMethodFindsNothing(apiVersion: string)
    ensures Lookup(Routes(apiVersion), GET, apiVersion + "/register") == None
  {
    var rs := Routes(apiVersion);
    var path := apiVersion + "/register";
    SuffixesDiffer(apiVersion, path);
    assert PathMatches(rs[0].path, path);
    assert !PathMatches(rs[2].path, path);
    assert forall i :: 0 <= i < |rs| ==> !Serves(rs[i], GET, path) by {
      forall i | 0 <= i < |rs| ensures !Serves(rs[i], GET, path) {
        if i != 2 {
          assert rs[i].verb == POST;
        }
      }
    }
  }

  /** On the upload route a failed auth gate answers, and neither the file upload nor the handler runs. */
  lemma FailedAuthAcceptsNoFile(apiVersion: string, gate: Stage -> Gate)
    requires gate(AuthMiddleware).Stop?
    ensures var chain := Routes(apiVersion)[3].chain;
      Reached(chain, gate) == [AuthMiddleware] && Answer(chain, gate) == Some(gate(AuthMiddleware).reply)
  {
  }

  /** The listing handler runs exactly when the auth gate called next(). */
  lemma ListingNeedsAuth(apiVersion: string, gate: Stage -> Gate)
    ensures var chain := Routes(apiVersion)[2].chain;
      ListUsers in Reached(chain, gate) <==> gate(AuthMiddleware) == Next
  {
    var chain := Routes(apiVersion)[2].chain;
    RunsOnlyAfterNext(chain, gate, 1);
  }

  /** A failed validation keeps the register and login handlers from running. */
  lemma ValidatorsGuardHandlers(apiVersion: string, gate: Stage -> Gate)
    ensures RegisterUser in Reached(Routes(apiVersion)[0].chain, gate) <==> gate(RegistrationValidate) == Next
    ensures LoginUser in Reached(Routes(apiVersion)[1].chain, gate) <==> gate(LoginValidate) == Next
  {
    RunsOnlyAfterNext(Routes(apiVersion)[0].chain, gate, 1);
    RunsOnlyAfterNext(Routes(apiVersion)[1].chain, gate, 1);
  }
}
