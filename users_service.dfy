/**
 * The user table and the data-access service over it: lookup by email, insert
 * with a store-assigned id, and listing. The document store is a sequence of
 * records in insertion order; ids come from a counter standing for the store's
 * object-id generator.
 */
module Users {
  import opened Wrappers

  /** A store-assigned document id. */
  type Id = nat

  /** A stored user document. */
  datatype User = User(id: Id, name: string, email: string, username: Option<string>, password: string)

  /** The fields handed to `create`, before the store assigns an id. */
  datatype NewUser = NewUser(name: string, email: string, username: Option<string>, password: string)

  /** The document the store builds from the given fields and id. */
  function Stored(id: Id, fields: NewUser): User
  {
    User(id, fields.name, fields.email, fields.username, fields.password)
  }

  /**
   * `findOne({email})`: the first record, in store order, whose email is exactly
   * `email`, or nothing when there is none.
   */
  function FindByEmail(users: seq<User>, email: string): (r: Option<User>)
    ensures r.None? <==> forall i :: 0 <= i < |users| ==> users[i].email != email
    ensures r.Some? ==> r.value.email == email
    ensures r.Some? ==> exists i :: (0 <= i < |users| && users[i] == r.value &&
      forall j :: 0 <= j < i ==> users[j].email != email)
  {
    if users == [] then None
    else if users[0].email == email then Some(users[0])
    else
      var r := FindByEmail(users[1..], email);
      assert r.Some? ==> exists i :: (1 <= i < |users| && users[i] == r.value &&
        forall j :: 1 <= j < i ==> users[j].email != email);
      r
  }

  /**
   * Appending a record leaves an earlier match in place, and makes the new
   * record the match for an email that had none.
   */
  lemma {:induction false} FindAfterAppend(users: seq<User>, u: User, email: string)
    ensures FindByEmail(users + [u], email) ==
      if FindByEmail(users, email).Some? then FindByEmail(users, email)
      else if u.email == email then Some(u)
      else None
  {
    if users != [] {
      assert (users + [u])[1..] == users[1..] + [u];
      FindAfterAppend(users[1..], u, email);
    }
  }

  /**
   * Nothing stops a duplicate email: inserting a record whose email is already
   * present leaves two records with that email, and lookup still finds the old one.
   */
  lemma DuplicateEmailKept(users: seq<User>, u: User)
    requires FindByEmail(users, u.email).Some?
    ensures exists i :: 0 <= i < |users| && (users + [u])[i].email == (users + [u])[|users|].email
    ensures FindByEmail(users + [u], u.email) == FindByEmail(users, u.email)
  {
    FindAfterAppend(users, u, u.email);
    var found := FindByEmail(users, u.email).value;
    var i :| 0 <= i < |users| && users[i] == found;
    assert (users + [u])[i] == found;
  }

  /** All ids are below `nextId` and pairwise distinct. */
  ghost predicate IdsFresh(users: seq<User>, nextId: nat)
  {
    && (forall i :: 0 <= i < |users| ==> users[i].id < nextId)
    && (forall i, j :: 0 <= i < j < |users| ==> users[i].id != users[j].id)
  }

  /** The user data-access service; `users` is the collection it reads and appends to. */
  class UserService {
    var users: seq<User>
    var nextId: nat

    ghost predicate Valid()
      reads this
    {
      IdsFresh(users, nextId)
    }

    constructor ()
      ensures Valid() && users == []
    {
      users := [];
      nextId := 0;
    }

    /** The first stored user with exactly this email, or nothing. */
    method FindOneByEmail(email: string) returns (r: Option<User>)
      ensures r == FindByEmail(users, email)
    {
      r := FindByEmail(users, email);
    }

    /**
     * Persists the fields as one new record with a fresh id and returns it. It
     * does not check that the email is unused.
     */
    method Create(fields: NewUser) returns (u: User)
      requires Valid()
      modifies this
      ensures Valid()
      ensures u == Stored(old(nextId), fields)
      ensures forall i :: 0 <= i < |old(users)| ==> old(users)[i].id != u.id
      ensures users == old(users) + [u]
    {
      u := Stored(nextId, fields);
      users := users + [u];
      nextId := nextId + 1;
    }

    /** Every stored record, in store order; empty when the table is empty. */
    method FindAll() returns (r: seq<User>)
      ensures |r| == |users| && forall i :: 0 <= i < |r| ==> r[i] == users[i]
    {
      r := users;
    }
  }
}
