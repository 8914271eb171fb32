/** The API client's session handling: the request interceptor that signs
    outgoing requests with the stored token, and the `authService` operations
    that keep the token and the user record in the browser's storage.

    Browser storage is the `storage` map of an `AuthClient`. The server's
    answer to a request is an input (`HttpOutcome`), and `JSON.stringify` /
    `JSON.parse` are the two functions of a `JsonCodec` given to the client. */
module AuthService {
  import opened JsValue

  const TokenKey := "token"
  const UserKey := "user"
  const AuthorizationHeader := "Authorization"
  const BearerPrefix := "Bearer "

  const LoginPath := "/auth/login"
  const RegisterPath := "/auth/register"
  const ProfilePath := "/auth/profile"

  const LoginFallback := "Erreur de connexion"
  const RegisterFallback := "Erreur d'inscription"
  const ProfileFallback := "Erreur lors de la récupération du profil"

  /** `String(JSON.stringify(undefined))`, which is what `setItem` stores for a missing user. */
  const Undefined := "undefined"

  /** The headers every request of the client starts with. */
  const DefaultHeaders: map<string, string> := map["Content-Type" := "application/json"]

  datatype Verb = Get | Post

  /** The part of an outgoing request's configuration that the client sets. */
  datatype Request = Request(verb: Verb, path: string, headers: map<string, string>, body: Option<Json>)

  /** How a request ended: a response whose body is `data`, or a failure that
      carries the server's response body when a response arrived. */
  datatype HttpOutcome = Response(data: Json) | Failed(serverData: Option<Json>)

  /** What `JSON.parse` throws on text that is not JSON. */
  datatype SyntaxError = SyntaxError

  /** `JSON.stringify` and `JSON.parse` on the values of this model; `parse`
      answers `None` where it would throw. */
  datatype JsonCodec = JsonCodec(stringify: Json -> string, parse: string -> Option<Json>) {
    /** Parsing gives back what was serialized, and neither the empty string
        nor "undefined" is JSON text. */
    ghost predicate Faithful() {
      && (forall v :: parse(stringify(v)) == Some(v))
      && parse("") == None
      && parse(Undefined) == None
    }
  }

  /** `{message: m}`, the error thrown when the server gave no usable body. */
  function FallbackError(message: string): Json {
    Obj(map["message" := Str(message)])
  }

  /** `error.response?.data || {message: fallback}`: what a failed call throws. */
  function Rejection(serverData: Option<Json>, fallback: string): (e: Json)
    ensures Truthy(e)
    ensures e == FallbackError(fallback) || (serverData.Some? && e == serverData.value)
    ensures serverData.Some? && Truthy(serverData.value) ==> e == serverData.value
  {
    if serverData.Some? && Truthy(serverData.value) then serverData.value else FallbackError(fallback)
  }

  /** The token a response body carries when it is truthy: `response.data.token`. */
  function SessionToken(data: Json): (t: Option<Json>)
    requires data != Null
    ensures t.Some? <==> data.Obj? && TokenKey in data.fields && Truthy(data.fields[TokenKey])
    ensures t.Some? ==> t.value == data.fields[TokenKey]
  {
    var token := Property(data, TokenKey);
    if token.Some? && Truthy(token.value) then token else None
  }

  /** `!!localStorage.getItem('token')` on storage `s`. */
  predicate Authenticated(s: map<string, string>) {
    TokenKey in s && s[TokenKey] != ""
  }

  /** Two storages that agree on the `token` entry agree on whether the user is
      authenticated: no other entry, `user` included, plays a part. */
  lemma AuthenticatedReadsOnlyToken(s: map<string, string>, t: map<string, string>)
    requires TokenKey in s <==> TokenKey in t
    requires TokenKey in s ==> s[TokenKey] == t[TokenKey]
    ensures Authenticated(s) == Authenticated(t)
  {
  }

  /** Writing or removing the `user` entry never changes whether the user is authenticated. */
  lemma AuthenticatedIgnoresUser(s: map<string, string>, u: string)
    ensures Authenticated(s[UserKey := u]) == Authenticated(s)
    ensures Authenticated(s - {UserKey}) == Authenticated(s)
  {
    AuthenticatedReadsOnlyToken(s[UserKey := u], s);
    AuthenticatedReadsOnlyToken(s - {UserKey}, s);
  }

  /** Only the `token` and `user` entries differ between `before` and `after`. */
  ghost predicate OnlySessionKeysChanged(before: map<string, string>, after: map<string, string>) {
    forall k :: k != TokenKey && k != UserKey ==>
      (k in after <==> k in before) && (k in after ==> after[k] == before[k])
  }

  function LoginRequest(email: string, password: string): Request {
    Request(Post, LoginPath, DefaultHeaders, Some(Obj(map["email" := Str(email), "password" := Str(password)])))
  }

  function RegisterRequest(userData: Json): Request {
    Request(Post, RegisterPath, DefaultHeaders, Some(userData))
  }

  function ProfileRequest(): Request {
    Request(Get, ProfilePath, DefaultHeaders, None)
  }

  class AuthClient {
    var storage: map<string, string>
    const codec: JsonCodec

    ghost predicate Valid()
      reads this
    {
      codec.Faithful()
    }

    /** A client over the storage the page finds at load time. */
    constructor (codec: JsonCodec, storage: map<string, string>)
      requires codec.Faithful()
      ensures Valid()
      ensures this.codec == codec && this.storage == storage
    {
      this.codec := codec;
      this.storage := storage;
    }

    /** `isAuthenticated`. */
    predicate IsAuthenticated()
      reads this
    {
      Authenticated(storage)
    }

    /** `getCurrentUser`: null when no non-empty user entry is stored, otherwise
        the parsed entry, or the `SyntaxError` that parsing throws. */
    function GetCurrentUser(): (r: Result<Json, SyntaxError>)
      reads this
      ensures UserKey !in storage ==> r == Ok(Null)
      ensures UserKey in storage && storage[UserKey] == "" ==> r == Ok(Null)
      ensures codec.Faithful() ==>
                forall v :: UserKey in storage && storage[UserKey] == codec.stringify(v) ==> r == Ok(v)
      ensures codec.Faithful() && UserKey in storage && storage[UserKey] == Undefined ==> r == Err(SyntaxError)
    {
      if UserKey !in storage || storage[UserKey] == "" then Ok(Null)
      else
        match codec.parse(storage[UserKey])
        case Some(v) => Ok(v)
        case None => Err(SyntaxError)
    }

    /** The request interceptor: with a non-empty stored token the request gets
        `Authorization: Bearer <token>`; without one it goes out as it is. */
    function Intercept(config: Request): (signed: Request)
      reads this
      ensures signed.verb == config.verb && signed.path == config.path && signed.body == config.body
      ensures IsAuthenticated() ==>
                AuthorizationHeader in signed.headers
                && signed.headers[AuthorizationHeader] == BearerPrefix + storage[TokenKey]
      ensures IsAuthenticated() ==>
                forall h :: h != AuthorizationHeader ==>
                  (h in signed.headers <==> h in config.headers)
                  && (h in config.headers ==> signed.headers[h] == config.headers[h])
      ensures !IsAuthenticated() ==> signed == config
    {
      if Authenticated(storage) then
        config.(headers := config.headers[AuthorizationHeader := BearerPrefix + storage[TokenKey]])
      else config
    }

    /** What `setItem('user', JSON.stringify(data.user))` stores. */
    function StoredUser(data: Json): (s: string)
      requires data != Null
      ensures codec.Faithful() ==> codec.parse(s) == Property(data, UserKey)
    {
      match Property(data, UserKey)
      case Some(user) => codec.stringify(user)
      case None => Undefined
    }

    /** The contract shared by `login` and `register`, from the storage `before`
        the response to the storage `after` it, for an operation with fallback
        message `fallback` that ends with `result`: the body is returned unless
        the call failed or the body is null, and then the rejection is thrown;
        a body with a truthy token stores `token` and `user`; otherwise storage
        is unchanged. */
    ghost predicate SessionUpdate(before: map<string, string>, after: map<string, string>,
                                  outcome: HttpOutcome, fallback: string, result: Result<Json, Json>)
    {
      && (outcome.Failed? ==> result == Err(Rejection(outcome.serverData, fallback)))
      && (outcome == Response(Null) ==> result == Err(FallbackError(fallback)))
      && (result.Ok? <==> outcome.Response? && outcome.data != Null)
      && (result.Ok? ==> result.value == outcome.data)
      && if outcome.Response? && outcome.data != Null && SessionToken(outcome.data).Some? then
           after == before[TokenKey := ToJsString(SessionToken(outcome.data).value)]
                          [UserKey := StoredUser(outcome.data)]
         else after == before
    }

    /** What a stored session reads back as: the client is authenticated
        exactly when `String(token)` is non-empty, which every truthy token
        other than an array guarantees, and the stored user parses back to the
        response's user, or throws when the response had none. */
    ghost predicate ReadsBackSession(outcome: HttpOutcome, result: Result<Json, Json>)
      reads this
    {
      result.Ok? && outcome.Response? && outcome.data != Null && SessionToken(outcome.data).Some? ==>
        && (IsAuthenticated() <==> ToJsString(SessionToken(outcome.data).value) != "")
        && (!SessionToken(outcome.data).value.Arr? ==> IsAuthenticated())
        && GetCurrentUser() == match Property(outcome.data, UserKey)
                               case Some(user) => Ok(user)
                               case None => Err(SyntaxError)
    }

    /** The body shared by `login` and `register` once the request has gone out:
        keep the session of a response that carries a truthy token, and turn
        any failure into the value the operation throws. */
    method Authenticate(outcome: HttpOutcome, fallback: string) returns (result: Result<Json, Json>)
      requires Valid()
      modifies this
      ensures Valid()
      ensures SessionUpdate(old(storage), storage, outcome, fallback, result)
      ensures OnlySessionKeysChanged(old(storage), storage)
      ensures ReadsBackSession(outcome, result)
    {
      match outcome {
        case Failed(serverData) =>
          result := Err(Rejection(serverData, fallback));
        case Response(data) =>
          if data == Null {
            // reading `data.token` throws a TypeError, which has no response
            result := Err(Rejection(None, fallback));
          } else {
            var token := Property(data, TokenKey);
            if token.Some? && Truthy(token.value) {
              storage := storage[TokenKey := ToJsString(token.value)];
              storage := storage[UserKey := StoredUser(data)];
              SessionKept(data);
            }
            result := Ok(data);
          }
      }
    }

    /** `authService.login`: post the credentials; keep the session when the
        response carries a truthy token; return the body, or throw the server's
        body or `{message: 'Erreur de connexion'}`. */
    method Login(email: string, password: string, outcome: HttpOutcome)
      returns (sent: Request, result: Result<Json, Json>)
      requires Valid()
      modifies this
      ensures Valid()
      ensures sent == old(Intercept(LoginRequest(email, password)))
      ensures SessionUpdate(old(storage), storage, outcome, LoginFallback, result)
      ensures OnlySessionKeysChanged(old(storage), storage)
      ensures ReadsBackSession(outcome, result)
    {
      sent := Intercept(LoginRequest(email, password));
      result := Authenticate(outcome, LoginFallback);
    }

    /** `authService.register`: as `Login`, for the registration endpoint and
        with the fallback message `Erreur d'inscription`. */
    method Register(userData: Json, outcome: HttpOutcome)
      returns (sent: Request, result: Result<Json, Json>)
      requires Valid()
      modifies this
      ensures Valid()
      ensures sent == old(Intercept(RegisterRequest(userData)))
      ensures SessionUpdate(old(storage), storage, outcome, RegisterFallback, result)
      ensures OnlySessionKeysChanged(old(storage), storage)
      ensures ReadsBackSession(outcome, result)
    {
      sent := Intercept(RegisterRequest(userData));
      result := Authenticate(outcome, RegisterFallback);
    }

    /** After a session is stored, the client is authenticated exactly when
        the stored `String(token)` is non-empty, so every truthy token other
        than an array signs the next requests; the stored user reads back as
        the response's user (or throws when the response had none). */
    lemma SessionKept(data: Json)
      requires Valid()
      requires data != Null && SessionToken(data).Some?
      requires storage.Keys >= {TokenKey, UserKey}
      requires storage[TokenKey] == ToJsString(SessionToken(data).value)
      requires storage[UserKey] == StoredUser(data)
      ensures IsAuthenticated() <==> ToJsString(SessionToken(data).value) != ""
      ensures !SessionToken(data).value.Arr? ==> IsAuthenticated()
      ensures GetCurrentUser() == match Property(data, UserKey)
                                  case Some(user) => Ok(user)
                                  case None => Err(SyntaxError)
    {
      if !SessionToken(data).value.Arr? {
        TruthyToNonEmpty(SessionToken(data).value);
      }
    }

    /** `authService.getProfile`: a signed GET; storage is only read. Returns
        the body, or throws the server's body or the profile fallback. */
    method GetProfile(outcome: HttpOutcome) returns (sent: Request, result: Result<Json, Json>)
      ensures sent == Intercept(ProfileRequest())
      ensures sent.path == ProfilePath && sent.verb == Get && sent.body == None
      ensures IsAuthenticated() <==> AuthorizationHeader in sent.headers
      ensures IsAuthenticated() ==> sent.headers[AuthorizationHeader] == BearerPrefix + storage[TokenKey]
      ensures outcome.Response? ==> result == Ok(outcome.data)
      ensures outcome.Failed? ==> result == Err(Rejection(outcome.serverData, ProfileFallback))
    {
      sent := Intercept(ProfileRequest());
      match outcome {
        case Response(data) => result := Ok(data);
        case Failed(serverData) => result := Err(Rejection(serverData, ProfileFallback));
      }
    }

    /** `authService.logout`: remove the token and the user entries, and nothing else. */
    method Logout()
      modifies this
      ensures storage == old(storage) - {TokenKey, UserKey}
      ensures OnlySessionKeysChanged(old(storage), storage)
      ensures TokenKey !in old(storage) && UserKey !in old(storage) ==> storage == old(storage)
      ensures !IsAuthenticated() && GetCurrentUser() == Ok(Null)
    {
      storage := storage - {TokenKey};
      storage := storage - {UserKey};
    }
  }
}
