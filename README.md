# Users router: account registration, lookup and deletion

This project models the Express router in `controllers/users.js` of the
countdown-clock backend. The router manages the `User` collection, a store of
accounts keyed by identifier, each holding an e-mail address, a name and a bcrypt
password hash. It has four routes:

- `GET /` lists every stored account.
- `GET /:id` answers 200 with the account, or 404 if no account has that id.
- `POST /` registers an account. It checks the body in a fixed order and stops at
  the first failure: all three fields present, then a password of at least six
  characters, then an e-mail address not yet in use. Only then does it hash the
  password with ten salt rounds and save one new document. It answers 201 with
  `{id, email, name, token}`, where the token is signed over `{email, id}` for
  3600 seconds.
- `DELETE /:id` removes the account if it exists and answers 204 either way.

Layout:

- `wrappers.dfy`: `Option`. It stands for a missing or `null` JSON field and for a
  query that matched nothing.
- `accounts.dfy` (module `Accounts`): the account record and the store, which is a
  map from id to account. It also holds the uniqueness predicate, removal, and the
  lemma that a fresh identifier always exists.
- `user_model.dfy` (module `UserModel`): class `UserCollection`, the Mongoose model.
  A `map` field holds the documents. `Find`, `FindById` and `FindOne` read it.
  `Save` and `FindByIdAndRemove` change it, and say exactly what the new map is.
- `users_controller.dfy` (module `UsersController`): the four handlers as methods
  over a `UserCollection`. Beside them are the pure pieces they are proved
  against: the input checks (`CheckInput`), JavaScript string length (`JsLength`),
  the lookup answer (`LookupResponse`) and the registration relation
  (`RegisterStep`).
- `lifecycle.dfy` (module `Lifecycle`): the router as a state machine over
  requests, and what holds of it. No run ever creates two accounts with the same
  address. A registration answered 400 changes nothing. Deletion is idempotent. A
  registered account is found by its id. `Handle` dispatches a request to the
  four handler methods and is proved to take a step of that state machine, so the
  invariants hold of the methods. It ends with a whole session as a concrete
  scenario.

bcrypt and jsonwebtoken are foreign libraries. They appear as function-valued
parameters of each registration: `hash: (string, nat) -> Digest` for
`bcrypt.hash(password, saltRounds)` and `sign: (Claims, nat) -> Token` for
`jwt.sign(claims, secret, {expiresIn})`. The random salt, the signing secret and
the wall clock are folded into which function a call receives. The model
therefore states only what is passed to them: the password with 10 rounds, and
the claims `{email, id}` of the saved account with 3600 seconds. The stored
`passwordHash` field is `hash(password, 10)`, of type `Digest`. The plaintext
password string is never a field of the account. Whether bcrypt's output reveals
the password is not modelled. The 201 body (`Created`) has no hash field.

Identifiers are natural numbers. `Save` picks any identifier not already in the
map, as the database's ObjectId allocation is trusted to do.

What the router does not do:

- It does not redact lookups. `GET /` (controllers/users.js:9-10) and `GET /:id`
  (controllers/users.js:18-20) answer with the stored document as it is, so the
  model's bodies carry the whole account, `passwordHash` included.
- It does not check and insert in one atomic step. `findOne`
  (controllers/users.js:44) and `save` (controllers/users.js:61) are two separate
  calls, modelled as `FindOne` and then `Save`.
- It does not report a duplicate address before a missing field. The presence
  check (controllers/users.js:31) runs before the duplicate check
  (controllers/users.js:44), so a duplicate address sent with an empty name or
  password gets the missing-field message, not `'user already exists'`.
  `Lifecycle.DuplicateEmailRejected` states this.

## Model

| member | source | states |
|---|---|---|
| `Accounts.Remove` | controllers/users.js:82 | removing an id leaves it absent, keeps every other id and leaves their accounts unchanged |
| `Accounts.FreshIdExists` | controllers/users.js:61 | however many ids are taken, an id not yet used exists, so saving a new document can always succeed |
| `Accounts.InsertFresh` | controllers/users.js:55-61 | storing under a fresh id adds exactly that key, grows the store by one and leaves every earlier account unchanged |
| `Accounts.InsertKeepsUniqueEmails` | controllers/users.js:44-61 | inserting an account whose address is not taken keeps addresses unique |
| `Accounts.RemoveKeepsUniqueEmails` | controllers/users.js:80-84 | removing an account keeps addresses unique |
| `Accounts.RemoveIdempotent` | controllers/users.js:82 | removing an id twice gives the same store as removing it once |
| `UserModel.UserCollection.Find` | controllers/users.js:9 | `User.find({})` yields exactly the stored id-to-account entries |
| `UserModel.UserCollection.FindById` | controllers/users.js:18 | `User.findById` yields the account iff the id is stored |
| `UserModel.UserCollection.FindOne` | controllers/users.js:44 | `User.findOne({email})` finds nothing iff no account has that address; otherwise it names a stored account with that address |
| `UserModel.UserCollection.Save` | controllers/users.js:61 | `save()` stores the document under an id not previously present and changes nothing else |
| `UserModel.UserCollection.FindByIdAndRemove` | controllers/users.js:82 | removes the id if present, returns the removed account iff it was present, and leaves the rest as it was |
| `UsersController.JsLength` | controllers/users.js:37 | `password.length` counts UTF-16 code units: between the character count and twice it, equal to it iff no character lies outside the Basic Multilingual Plane |
| `UsersController.CheckInput` | controllers/users.js:30-41 | no failure iff all three fields are truthy and the password is at least 6 long; the missing-field message iff some field is missing or empty; the short-password message iff all are present and the password is short, so length is judged only after presence |
| `UsersController.NewAccount` | controllers/users.js:52-59 | the document saved holds the given address, the given name and `hash(password, 10)` as its `Digest`-typed hash field; the plaintext string is not one of its fields |
| `UsersController.LookupResponse` | controllers/users.js:16-27 | status 200 with the stored account iff the id is present, otherwise 404 with no body |
| `UsersController.GetAll` | controllers/users.js:7-14 | answers 200 with every stored account, and changes nothing |
| `UsersController.GetById` | controllers/users.js:16-27 | answers as `LookupResponse` on the current store, and changes nothing |
| `UsersController.Register` | controllers/users.js:29-78 | runs the checks in source order, then find, hash, save and sign, and satisfies `RegisterStep` between the old and new collection |
| `UsersController.Delete` | controllers/users.js:80-87 | answers 204 with no body and leaves the collection with that id removed, whether or not it existed |
| `Lifecycle.RejectedRegisterChangesNothing` | controllers/users.js:31-50 | a registration not answered 201 is answered 400 with an error body and leaves the store unchanged |
| `Lifecycle.MissingFieldRejected` | controllers/users.js:30-35 | a missing or empty email, name or password gives 400 `'email, name and password are required'` and no store change |
| `Lifecycle.ShortPasswordRejected` | controllers/users.js:37-41 | with all fields present, a password shorter than 6 gives 400 `'password must be at least 6 characters long'` and no store change, whether or not the address is taken |
| `Lifecycle.DuplicateEmailRejected` | controllers/users.js:44-50 | an address already in use is refused with 400 and no store change, whatever the name and password; once the field checks pass, the message is `'user already exists'` |
| `Lifecycle.AcceptedRegisterAddsOneAccount` | controllers/users.js:52-74 | 201 iff the checks pass and the address is free; then exactly one account is added under a fresh id with the given address, name and `hash(password, 10)`, earlier accounts are unchanged, and the body is exactly `{id, email, name, token}` of the saved account with the token `sign({email, id}, 3600)` |
| `Lifecycle.RegisterKeepsUniqueEmails` | controllers/users.js:44-61 | one registration from a store with unique addresses leaves addresses unique |
| `Lifecycle.StepKeepsUniqueEmails` | controllers/users.js:7-87 | each of the four handlers keeps addresses unique |
| `Lifecycle.RunKeepsUniqueEmails` | controllers/users.js:44-61 | any sequence of requests handled one after another from a store with unique addresses keeps them unique in every intermediate store |
| `Lifecycle.ReadsChangeNothing` | controllers/users.js:7-27 | list and lookup leave the store unchanged and answer 200, or 404 with no body |
| `Lifecycle.DeleteIdempotent` | controllers/users.js:80-84 | both deletes answer 204; after the first the id is absent and every other account is unchanged; the second changes nothing |
| `Lifecycle.RegisteredIsFound` | controllers/users.js:16-23 | after a successful registration, looking up the returned id answers 200 with the saved address, name and hash |
| `Lifecycle.Handle` | controllers/users.js:7-87 | dispatching a request to `GetAll`, `GetById`, `Register` or `Delete` takes one `Step` of the state machine from the old collection to the new one, so `RunKeepsUniqueEmails` and the other lemmas apply to the handler methods |
| `Lifecycle.RegisterLookupDeleteSession` | controllers/users.js:16-87 | from an empty store: register gives 201, lookup 200, re-register of the same address 400 `'user already exists'`, two deletes 204 each, and a final lookup 404, leaving the store empty |

## Left out

- Exception paths: the model omits database failures, a malformed id that
  Mongoose cannot cast, and bcrypt or jsonwebtoken throwing. In the source all of
  these reach `next(exception)` (controllers/users.js:11-13, 24-26, 75-77, 84-86).
  They are failures of external code. One of them happens after the store has
  changed. `jwt.sign` (controllers/users.js:65) runs after `newUser.save()`
  (controllers/users.js:61). If it throws, for example because `SECRET_KEY` is
  unset, the request fails without a 201 but the new account stays stored, and a
  retry gets `'user already exists'`. The model's promise that a rejected
  registration changes nothing covers only the 400 answers.
- bcrypt internals are not modelled: salt generation, the cost-10 work factor, and
  verification. The model sees only the function value a call receives.
- jsonwebtoken internals are not modelled: signing, the `SECRET_KEY` environment
  variable, and expiry checking. Only the claims and the time-to-live passed to
  `sign` are stated.
- The race between `findOne` and `save` under concurrent requests is not modelled.
  The model handles one request at a time.
- Request bodies whose fields are JSON values other than strings (numbers, objects)
  are not modelled. A field is absent, `null`, or a string.
- `UsersController.GetAll`: states which accounts are returned, not their order.
  The store is a map, and `User.find({})` promises no order.
- Whether `GET` responses strip `passwordHash` is not modelled. The document's JSON
  form is defined in `models/user`, which is not part of this model.
- ObjectId structure is not modelled. Identifiers are abstract naturals. The
  document schema in `models/user` is not part of this model.
- `UsersController.JsLength`: the model's strings are sequences of Unicode scalar
  values, so a lone surrogate cannot be represented. `JSON.parse` accepts one in a
  password (`"\ud800"`), and JavaScript counts it as one code unit. Such passwords
  are outside the model.
- `client/src/components/register-page.jsx` and
  `client/src/components/tracking-screen.jsx` are not modelled. They are React
  rendering, timers, browser storage and navigation, with no logic of the router's
  own.
