/** The Mongoose `User` model: a collection of user documents that the handlers
    query and update one call at a time. */
module UserModel {

  import opened Wrappers
  import opened Accounts

  class UserCollection {
    /** The stored documents, by identifier. */
    var accounts: Store

    /** An empty collection. */
    constructor ()
      ensures accounts == map[]
    {
      accounts := map[];
    }

    /** `User.find({})`: every stored document. */
    method Find() returns (all: Store)
      ensures all.Keys == accounts.Keys
      ensures forall id :: id in all ==> all[id] == accounts[id]
    {
      all := accounts;
    }

    /** `User.findById(id)`: the document with that identifier, if any. */
    method FindById(id: Id) returns (found: Option<Account>)
      ensures found.Some? <==> id in accounts
      ensures found.Some? ==> found.value == accounts[id]
    {
      if id in accounts {
        found := Some(accounts[id]);
      } else {
        found := None;
      }
    }

    /** `User.findOne({ email })`: some document with that e-mail address, if any. */
    method FindOne(email: string) returns (found: Option<Id>)
      ensures found.None? <==> !EmailTaken(accounts, email)
      ensures found.Some? ==> found.value in accounts && accounts[found.value].email == email
    {
      if EmailTaken(accounts, email) {
        var id :| id in accounts && accounts[id].email == email;
        found := Some(id);
      } else {
        found := None;
      }
    }

    /** `new User(account).save()`: stores the document under an identifier no other
        document has, and returns that identifier. */
    method Save(account: Account) returns (id: Id)
      modifies this
      ensures id !in old(accounts)
      ensures accounts == old(accounts)[id := account]
    {
      FreshIdExists(accounts.Keys);
      id :| id !in accounts;
      accounts := accounts[id := account];
    }

    /** `User.findByIdAndRemove(id)`: removes the document with that identifier, if
        there is one, and returns it. */
    method FindByIdAndRemove(id: Id) returns (removed: Option<Account>)
      modifies this
      ensures removed.Some? <==> id in old(accounts)
      ensures removed.Some? ==> removed.value == old(accounts)[id]
      ensures accounts == Remove(old(accounts), id)
    {
      if id in accounts {
        removed := Some(accounts[id]);
      } else {
        removed := None;
      }
      accounts := Remove(accounts, id);
    }
  }
}
