/** The four route handlers of the users router: list, look up by identifier,
    register, and delete by identifier. Each handler answers with a status code and a
    body; registration and deletion change the user collection. */
module UsersController {

  import opened Wrappers
  import opened Accounts
  import opened UserModel

  const MissingFieldsError := "email, name and password are required"
  const ShortPasswordError := "password must be at least 6 characters long"
  const UserExistsError := "user already exists"

  /** Shortest password accepted, in JavaScript string length. */
  const MinPasswordLength := 6
  /** bcrypt work factor. */
  const SaltRounds := 10
  /** Token lifetime in seconds: one hour. */
  const TokenTtl := 60 * 60

  /** The JSON body of a registration request; an absent or `null` field is `None`. */
  datatype RegisterBody = RegisterBody(email: Option<string>, name: Option<string>, password: Option<string>)

  /** What a handler sends back in its response. */
  datatype Body =
    | NoContent
    | ErrorBody(error: string)
    | Created(id: Id, email: string, name: string, token: Token)
    | UserDocument(id: Id, account: Account)
    | UserList(users: Store)

  datatype Response = Response(status: int, body: Body)

  /** JavaScript truthiness of a string-valued field: neither missing nor empty. */
  predicate Truthy(field: Option<string>)
  {
    field.Some? && field.value != ""
  }

  /** JavaScript's `length` of a string: UTF-16 code units, so a character outside
      the Basic Multilingual Plane counts twice. */
  function JsLength(s: string): (n: nat)
    ensures |s| <= n <= 2 * |s|
    ensures n == |s| <==> forall i :: 0 <= i < |s| ==> s[i] as int <= 0xFFFF
  {
    if s == [] then 0
    else
      var rest := JsLength(s[1..]);
      assert forall i :: 1 <= i < |s| ==> s[i] == s[1..][i - 1];
      (if s[0] as int <= 0xFFFF then 1 else 2) + rest
  }

  /** The checks made on a registration body before the collection is consulted,
      in the order the handler makes them; `None` when both pass. */
  function CheckInput(body: RegisterBody): (failure: Option<string>)
    ensures failure.None? <==>
              Truthy(body.email) && Truthy(body.name) && Truthy(body.password)
              && JsLength(body.password.value) >= MinPasswordLength
    ensures failure == Some(MissingFieldsError) <==>
              !(Truthy(body.email) && Truthy(body.name) && Truthy(body.password))
    ensures failure == Some(ShortPasswordError) <==>
              Truthy(body.email) && Truthy(body.name) && Truthy(body.password)
              && JsLength(body.password.value) < MinPasswordLength
  {
    if !Truthy(body.email) || !Truthy(body.name) || !Truthy(body.password) then
      Some(MissingFieldsError)
    else if JsLength(body.password.value) < MinPasswordLength then
      Some(ShortPasswordError)
    else
      None
  }

  /** The account a valid registration body is saved as. */
  function NewAccount(body: RegisterBody, hash: Hasher): (account: Account)
    requires CheckInput(body).None?
    ensures account.email == body.email.value && account.name == body.name.value
    ensures account.passwordHash == hash(body.password.value, SaltRounds)
  {
    Account(body.email.value, body.name.value, hash(body.password.value, SaltRounds))
  }

  /** One registration, from collection `before` to collection `after` with response
      `resp`: a rejected request answers 400 with the first failed check's message and
      changes nothing; an accepted one saves exactly one new account under a fresh
      identifier and answers 201 with that account's identifier, e-mail address, name
      and a token signed over its e-mail address and identifier for one hour. */
  ghost predicate RegisterStep(before: Store, body: RegisterBody, hash: Hasher, sign: Signer,
                               after: Store, resp: Response)
  {
    match CheckInput(body)
    case Some(message) =>
      resp == Response(400, ErrorBody(message)) && after == before
    case None =>
      if EmailTaken(before, body.email.value) then
        resp == Response(400, ErrorBody(UserExistsError)) && after == before
      else
        && resp.status == 201
        && resp.body.Created?
        && resp.body.id !in before
        && after == before[resp.body.id := NewAccount(body, hash)]
        && resp.body.email == body.email.value
        && resp.body.name == body.name.value
        && resp.body.token == sign(Claims(body.email.value, resp.body.id), TokenTtl)
  }

  /** `GET /`: every stored account, with status 200. */
  method GetAll(users: UserCollection) returns (resp: Response)
    ensures resp.status == 200 && resp.body.UserList?
    ensures resp.body.users.Keys == users.accounts.Keys
    ensures forall id :: id in users.accounts ==> resp.body.users[id] == users.accounts[id]
  {
    var all := users.Find();
    resp := Response(200, UserList(all));
  }

  /** The answer to a lookup by identifier: the stored account with status 200, or
      status 404 with no body when no account has that identifier. */
  function LookupResponse(store: Store, id: Id): (resp: Response)
    ensures resp.status == 200 <==> id in store
    ensures resp.status == 200 ==> resp.body == UserDocument(id, store[id])
    ensures id !in store ==> resp == Response(404, NoContent)
  {
    if id in store then Response(200, UserDocument(id, store[id])) else Response(404, NoContent)
  }

  /** `GET /:id`. */
  method GetById(users: UserCollection, id: Id) returns (resp: Response)
    ensures resp == LookupResponse(users.accounts, id)
  {
    var user := users.FindById(id);
    if user.Some? {
      resp := Response(200, UserDocument(id, user.value));
    } else {
      resp := Response(404, NoContent);
    }
  }

  /** `POST /`: validated registration. */
  method Register(users: UserCollection, body: RegisterBody, hash: Hasher, sign: Signer)
    returns (resp: Response)
    modifies users
    ensures RegisterStep(old(users.accounts), body, hash, sign, users.accounts, resp)
  {
    var invalid := CheckInput(body);
    if invalid.Some? {
      return Response(400, ErrorBody(invalid.value));
    }
    var email, name, password := body.email.value, body.name.value, body.password.value;
    var userExists := users.FindOne(email);
    if userExists.Some? {
      return Response(400, ErrorBody(UserExistsError));
    }
    var passwordHash := hash(password, SaltRounds);
    var newUser := Account(email, name, passwordHash);
    var savedId := users.Save(newUser);
    var userForToken := Claims(newUser.email, savedId);
    var token := sign(userForToken, TokenTtl);
    resp := Response(201, Created(savedId, newUser.email, newUser.name, token));
  }

  /** `DELETE /:id`: removes the account if it is stored and answers 204 either way. */
  method Delete(users: UserCollection, id: Id) returns (resp: Response)
    modifies users
    ensures resp == Response(204, NoContent)
    ensures users.accounts == Remove(old(users.accounts), id)
  {
    var _ := users.FindByIdAndRemove(id);
    resp := Response(204, NoContent);
  }
}
