/** The values held by the user collection: account records, the opaque outputs of
    the password hasher and the token signer, and the uniqueness of e-mail addresses
    that registration is meant to keep. */
module Accounts {

  /** A document identifier. The database assigns it; the model only needs that a
      fresh one can always be found. */
  type Id = nat

  /** Output of bcrypt. A type of its own, so that the account's hash field is not
      a plaintext string; what the digest reveals of the password is not modelled. */
  datatype Digest = Digest(encoded: string)

  /** A signed JSON Web Token, as the string the client receives. */
  datatype Token = Token(jwt: string)

  /** The claims a registration token is signed over. */
  datatype Claims = Claims(email: string, id: Id)

  /** One stored user document. */
  datatype Account = Account(email: string, name: string, passwordHash: Digest)

  /** The user collection's contents. */
  type Store = map<Id, Account>

  /** bcrypt.hash(password, saltRounds). The random salt is part of which function
      a call is given. */
  type Hasher = (string, nat) -> Digest

  /** jwt.sign(claims, secret, { expiresIn: ttl }). The secret and the clock are part
      of which function a call is given. */
  type Signer = (Claims, nat) -> Token

  /** Some stored account has e-mail address `email`. */
  predicate EmailTaken(store: Store, email: string)
  {
    exists id :: id in store && store[id].email == email
  }

  /** No two stored accounts share an e-mail address. */
  ghost predicate UniqueEmails(store: Store)
  {
    forall i, j :: i in store && j in store && store[i].email == store[j].email ==> i == j
  }

  /** The collection after removing the account with identifier `id`, if there is one. */
  function Remove(store: Store, id: Id): (after: Store)
    ensures id !in after
    ensures forall k :: k in after <==> k in store && k != id
    ensures forall k :: k in after ==> after[k] == store[k]
  {
    store - {id}
  }

  /** A strict upper bound of a finite set of identifiers. */
  ghost function Bound(used: set<Id>): (b: nat)
    ensures forall id :: id in used ==> id < b
    decreases used
  {
    if used == {} then 0
    else
      var x :| x in used;
      var rest := Bound(used - {x});
      assert forall id :: id in used ==> id == x || id in used - {x};
      if x < rest then rest else x + 1
  }

  /** However many identifiers are taken, a fresh one exists. */
  lemma FreshIdExists(used: set<Id>)
    ensures exists id: Id :: id !in used
  {
    var b := Bound(used);
    assert b !in used;
  }

  /** Removing an account keeps e-mail addresses unique. */
  lemma RemoveKeepsUniqueEmails(store: Store, id: Id)
    requires UniqueEmails(store)
    ensures UniqueEmails(Remove(store, id))
  {
  }

  /** Removing twice leaves the same collection as removing once. */
  lemma RemoveIdempotent(store: Store, id: Id)
    ensures Remove(Remove(store, id), id) == Remove(store, id)
  {
  }

  /** Adding an account under a fresh identifier adds exactly that one entry. */
  lemma InsertFresh(store: Store, id: Id, account: Account)
    requires id !in store
    ensures store[id := account].Keys == store.Keys + {id}
    ensures |store[id := account]| == |store| + 1
    ensures forall k :: k in store ==> store[id := account][k] == store[k]
  {
  }

  /** Adding an account whose e-mail address is not yet taken keeps addresses unique. */
  lemma InsertKeepsUniqueEmails(store: Store, id: Id, account: Account)
    requires UniqueEmails(store)
    requires id !in store
    requires !EmailTaken(store, account.email)
    ensures UniqueEmails(store[id := account])
  {
  }
}
