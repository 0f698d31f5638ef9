/**
 * The user store behind UserRepository: users filed by external id, with identity ids
 * handed out by the store on save. users/model/User.java is not part of this model; a user
 * is its id and its external id.
 */
module UserStore {
  import opened ErrorModel

  /** A registered user: the store's id and the identity provider's subject. */
  datatype User = User(id: nat, externalId: string)

  /** Every stored user is filed under its own external id. */
  ghost predicate Keyed(users: map<string, User>)
  {
    forall x :: x in users ==> users[x].externalId == x
  }

  class UserRepository {
    /** The stored users, by external id (`findByExternalId`, `existsByExternalId`). */
    var users: map<string, User>
    /** The next identity value the store will assign. */
    var nextId: nat

    ghost predicate Valid()
      reads this
    {
      && Keyed(users)
      && (forall x :: x in users ==> users[x].id < nextId)
      && (forall x, y :: x in users && y in users && users[x].id == users[y].id ==> x == y)
    }

    constructor()
      ensures Valid() && users == map[]
    {
      users := map[];
      nextId := 1;
    }

    /**
     * `save` of a new User: the store assigns an id no stored user has and files the user
     * under its external id.
     */
    method Save(externalId: string) returns (u: User)
      requires Valid() && externalId !in users
      modifies this
      ensures Valid()
      ensures u.externalId == externalId
      ensures forall x :: x in old(users) ==> old(users)[x].id != u.id
      ensures users == old(users)[externalId := u]
    {
      u := User(nextId, externalId);
      users := users[externalId := u];
      nextId := nextId + 1;
    }
  }
}
