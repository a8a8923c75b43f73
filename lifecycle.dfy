/** The users router as a state machine over the user collection, handling one
    request at a time, and what holds of its runs: registration never creates a
    second account with an address already in use, a registration answered 400
    changes nothing, deletion is idempotent, and lookups see what registration saved. */
module Lifecycle {

  import opened Wrappers
  import opened Accounts
  import opened UsersController
  import opened UserModel

  /** A request to the router. */
  datatype Request =
    | List
    | Get(id: Id)
    | Post(body: RegisterBody, hash: Hasher, sign: Signer)
    | DeleteById(id: Id)

  /** One request handled: collection `before` becomes `after` and `resp` is sent.
      Each case is what the corresponding handler method ensures; `Handle` proves it. */
  ghost predicate Step(before: Store, req: Request, after: Store, resp: Response)
  {
    match req
    case List => after == before && resp == Response(200, UserList(before))
    case Get(id) => after == before && resp == LookupResponse(before, id)
    case Post(body, hash, sign) => RegisterStep(before, body, hash, sign, after, resp)
    case DeleteById(id) => after == Remove(before, id) && resp == Response(204, NoContent)
  }

  /** `stores[i]` is the collection before `reqs[i]`, which is answered with `resps[i]`. */
  ghost predicate Run(stores: seq<Store>, reqs: seq<Request>, resps: seq<Response>)
  {
    && |stores| == |reqs| + 1
    && |resps| == |reqs|
    && forall i :: 0 <= i < |reqs| ==> Step(stores[i], reqs[i], stores[i + 1], resps[i])
  }

  /** The router: hands a request to its handler method. Whatever the request, the
      collection and the response are related by one `Step`. */
  method Handle(users: UserCollection, req: Request) returns (resp: Response)
    modifies users
    ensures Step(old(users.accounts), req, users.accounts, resp)
  {
    match req
    case List => resp := GetAll(users);
    case Get(id) => resp := GetById(users, id);
    case Post(body, hash, sign) => resp := Register(users, body, hash, sign);
    case DeleteById(id) => resp := Delete(users, id);
  }

  /** A registration that is not answered 201 answers 400 and leaves the collection
      as it was. */
  lemma RejectedRegisterChangesNothing(before: Store, body: RegisterBody, hash: Hasher,
                                       sign: Signer, after: Store, resp: Response)
    requires RegisterStep(before, body, hash, sign, after, resp)
    requires resp.status != 201
    ensures resp.status == 400 && resp.body.ErrorBody?
    ensures after == before
  {
  }

  /** A missing or empty field is reported first, whatever else is wrong. */
  lemma MissingFieldRejected(before: Store, body: RegisterBody, hash: Hasher,
                             sign: Signer, after: Store, resp: Response)
    requires RegisterStep(before, body, hash, sign, after, resp)
    requires !Truthy(body.email) || !Truthy(body.name) || !Truthy(body.password)
    ensures resp == Response(400, ErrorBody(MissingFieldsError))
    ensures after == before
  {
  }

  /** With every field present, a password shorter than six characters is reported,
      whether or not the address is in use. */
  lemma ShortPasswordRejected(before: Store, email: string, name: string, password: string,
                              hash: Hasher, sign: Signer, after: Store, resp: Response)
    requires RegisterStep(before, RegisterBody(Some(email), Some(name), Some(password)),
                          hash, sign, after, resp)
    requires email != "" && name != "" && password != ""
    requires JsLength(password) < MinPasswordLength
    ensures resp == Response(400, ErrorBody(ShortPasswordError))
    ensures after == before
  {
  }

  /** Registering an address that is already in use is refused and changes nothing,
      whatever name and password come with it; once the field checks pass the
      reason given is that the user already exists. */
  lemma DuplicateEmailRejected(before: Store, body: RegisterBody, hash: Hasher,
                               sign: Signer, after: Store, resp: Response)
    requires RegisterStep(before, body, hash, sign, after, resp)
    requires body.email.Some? && EmailTaken(before, body.email.value)
    ensures resp.status == 400
    ensures after == before
    ensures CheckInput(body).None? ==> resp == Response(400, ErrorBody(UserExistsError))
  {
  }

  /** A registration succeeds exactly when the field checks pass and the address is
      not in use. It then adds one account under a fresh identifier, holding the
      given address and name and the hash of the password with ten salt rounds;
      every account stored before is still there, unchanged; and the response
      carries the new identifier, the address, the name and a token signed over
      the address and the identifier for 3600 seconds. */
  lemma AcceptedRegisterAddsOneAccount(before: Store, body: RegisterBody, hash: Hasher,
                                       sign: Signer, after: Store, resp: Response)
    requires RegisterStep(before, body, hash, sign, after, resp)
    ensures resp.status == 201 <==> CheckInput(body).None? && !EmailTaken(before, body.email.value)
    ensures resp.status == 201 ==>
              && resp.body.Created?
              && resp.body.id !in before
              && after.Keys == before.Keys + {resp.body.id}
              && |after| == |before| + 1
              && (forall id :: id in before ==> after[id] == before[id])
              && after[resp.body.id] == Account(body.email.value, body.name.value,
                                                hash(body.password.value, 10))
              && resp.body == Created(resp.body.id, after[resp.body.id].email,
                                      after[resp.body.id].name,
                                      sign(Claims(after[resp.body.id].email, resp.body.id), 3600))
  {
    if resp.status == 201 {
      InsertFresh(before, resp.body.id, NewAccount(body, hash));
    }
  }

  /** Registration keeps e-mail addresses unique. */
  lemma RegisterKeepsUniqueEmails(before: Store, body: RegisterBody, hash: Hasher,
                                  sign: Signer, after: Store, resp: Response)
    requires RegisterStep(before, body, hash, sign, after, resp)
    requires UniqueEmails(before)
    ensures UniqueEmails(after)
  {
    if resp.status == 201 {
      InsertKeepsUniqueEmails(before, resp.body.id, NewAccount(body, hash));
    }
  }

  /** Every request keeps e-mail addresses unique. */
  lemma StepKeepsUniqueEmails(before: Store, req: Request, after: Store, resp: Response)
    requires Step(before, req, after, resp)
    requires UniqueEmails(before)
    ensures UniqueEmails(after)
  {
    match req
    case Post(body, hash, sign) => RegisterKeepsUniqueEmails(before, body, hash, sign, after, resp);
    case DeleteById(id) => RemoveKeepsUniqueEmails(before, id);
    case List =>
    case Get(_) =>
  }

  /** Requests handled one after another from a collection with unique addresses
      never produce two accounts with the same address. */
  lemma {:induction false} RunKeepsUniqueEmails(stores: seq<Store>, reqs: seq<Request>,
                                                resps: seq<Response>)
    requires Run(stores, reqs, resps)
    requires UniqueEmails(stores[0])
    ensures forall i :: 0 <= i < |stores| ==> UniqueEmails(stores[i])
    decreases |reqs|
  {
    if reqs != [] {
      var n := |reqs| - 1;
      RunKeepsUniqueEmails(stores[..n + 1], reqs[..n], resps[..n]);
      assert UniqueEmails(stores[n]) by {
        assert stores[..n + 1][n] == stores[n];
      }
      StepKeepsUniqueEmails(stores[n], reqs[n], stores[n + 1], resps[n]);
      forall i | 0 <= i < |stores|
        ensures UniqueEmails(stores[i])
      {
        if i <= n {
          assert stores[..n + 1][i] == stores[i];
        }
      }
    }
  }

  /** Lookups and listings change nothing. */
  lemma ReadsChangeNothing(before: Store, req: Request, after: Store, resp: Response)
    requires Step(before, req, after, resp)
    requires req.List? || req.Get?
    ensures after == before
    ensures resp.status == 200 || resp == Response(404, NoContent)
  {
  }

  /** Deleting answers 204 whether or not the identifier is stored; afterwards it is
      absent and every other account is unchanged, and deleting it again answers the
      same and changes nothing. */
  lemma DeleteIdempotent(s0: Store, id: Id, s1: Store, r1: Response, s2: Store, r2: Response)
    requires Step(s0, DeleteById(id), s1, r1)
    requires Step(s1, DeleteById(id), s2, r2)
    ensures r1 == r2 == Response(204, NoContent)
    ensures id !in s1
    ensures forall k :: k != id ==> (k in s1 <==> k in s0) && (k in s1 ==> s1[k] == s0[k])
    ensures s2 == s1
  {
    RemoveIdempotent(s0, id);
  }

  /** An account just registered is found by its identifier, with the address, the
      name and the password hash it was registered with. */
  lemma RegisteredIsFound(s0: Store, body: RegisterBody, hash: Hasher, sign: Signer,
                          s1: Store, r1: Response)
    requires RegisterStep(s0, body, hash, sign, s1, r1)
    requires r1.status == 201
    ensures LookupResponse(s1, r1.body.id)
              == Response(200, UserDocument(r1.body.id,
                                            Account(body.email.value, body.name.value,
                                                    hash(body.password.value, SaltRounds))))
  {
  }

  /** A complete session from an empty collection: register a@x.com, look it up,
      register the same address again, delete it twice, look it up again. */
  lemma {:induction false} RegisterLookupDeleteSession(stores: seq<Store>, reqs: seq<Request>,
                                                       resps: seq<Response>, id: Id,
                                                       hash: Hasher, sign: Signer)
    requires Run(stores, reqs, resps)
    requires stores[0] == map[]
    requires reqs == [Post(RegisterBody(Some("a@x.com"), Some("Ann"), Some("secret1")), hash, sign),
                      Get(id),
                      Post(RegisterBody(Some("a@x.com"), Some("Ann2"), Some("secret2")), hash, sign),
                      DeleteById(id),
                      DeleteById(id),
                      Get(id)]
    requires resps[0].body.Created? ==> resps[0].body.id == id
    ensures resps[0] == Response(201, Created(id, "a@x.com", "Ann", sign(Claims("a@x.com", id), TokenTtl)))
    ensures resps[1] == Response(200, UserDocument(id, Account("a@x.com", "Ann", hash("secret1", SaltRounds))))
    ensures resps[2] == Response(400, ErrorBody(UserExistsError))
    ensures resps[3] == resps[4] == Response(204, NoContent)
    ensures resps[5] == Response(404, NoContent)
    ensures stores[6] == map[]
  {
    assert Step(stores[0], reqs[0], stores[1], resps[0]);
    assert JsLength("secret1") == 7;
    assert !EmailTaken(stores[0], "a@x.com");
    assert stores[1] == map[id := Account("a@x.com", "Ann", hash("secret1", SaltRounds))];
    assert Step(stores[2], reqs[2], stores[3], resps[2]);
    assert JsLength("secret2") == 7;
    assert EmailTaken(stores[2], "a@x.com") by {
      assert stores[2][id].email == "a@x.com";
    }
    assert Step(stores[3], reqs[3], stores[4], resps[3]);
    assert Step(stores[4], reqs[4], stores[5], resps[4]);
    assert Step(stores[5], reqs[5], stores[6], resps[5]);
  }
}
