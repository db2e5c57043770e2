/**
 * The object-level permissions: owners may do anything to their objects and
 * everyone else may only read them; and a user may act only on their own
 * account.
 */
module Permissions {
  /** The request methods that only read. */
  const SAFE_METHODS: set<string> := {"GET", "HEAD", "OPTIONS"}

  /**
   * The requesting user, or an object's owner. Two references are equal when
   * they are the same account; every anonymous user equals every other.
   */
  datatype UserRef = Anonymous | Account(id: nat)

  /** `IsOwnerOrReadOnly.has_object_permission`, for an object owned by `owner`. */
  function IsOwnerOrReadOnly(requestMethod: string, requestUser: UserRef, owner: UserRef): (permitted: bool)
    ensures requestMethod in SAFE_METHODS ==> permitted
    ensures requestMethod !in SAFE_METHODS ==> (permitted <==> owner == requestUser)
  {
    if requestMethod in SAFE_METHODS then true else owner == requestUser
  }

  /** The owner is permitted every method; anyone else is permitted exactly the safe ones. */
  lemma OwnerOrReadOnlyCases(requestMethod: string, requestUser: UserRef, owner: UserRef)
    ensures owner == requestUser ==> IsOwnerOrReadOnly(requestMethod, requestUser, owner)
    ensures owner != requestUser ==> (IsOwnerOrReadOnly(requestMethod, requestUser, owner) <==> requestMethod in {"GET", "HEAD", "OPTIONS"})
  {
  }

  /** `IsSameUser.has_object_permission`: the object is a user account. */
  function IsSameUser(requestMethod: string, requestUser: UserRef, obj: UserRef): (permitted: bool)
    ensures permitted <==> obj == requestUser
  {
    obj == requestUser
  }

  /** The request method plays no part in `IsSameUser`. */
  lemma SameUserIgnoresMethod(m1: string, m2: string, requestUser: UserRef, obj: UserRef)
    ensures IsSameUser(m1, requestUser, obj) == IsSameUser(m2, requestUser, obj)
  {
  }
}
