/**
 * The `User` record exchanged with the REST service, and the requests
 * `addUser` and `deleteUser` send to that service.  The service itself (an HTTP client)
 * is not modelled: each request's answer is an input of the component's
 * operations.
 */
module Service {
  import opened Wrappers

  /** A user; `id` is absent until the server assigns one. */
  datatype User = User(id: Option<int>, name: string, email: string)

  /**
   * Whether `u.id` is truthy in JavaScript: an absent id and the id 0 are
   * both falsy, so neither counts as having an id.
   */
  predicate HasId(u: User)
  {
    u.id.Some? && u.id.value != 0
  }

  /** The empty form draft `{ name: '', email: '' }`. */
  const EmptyDraft: User := User(None, "", "")

  /**
   * A request sent to the service by `addUser` or `deleteUser`, or none.
   * The `getUsers()` request of `ngOnInit` is implicit and has no case.
   */
  datatype Call =
    | NoCall
    | Create(draft: User)          // addUser(draft): POST /users
    | Update(id: int, draft: User) // updateUser(id, draft): PUT /users/{id}
    | Remove(id: int)              // deleteUser(id): DELETE /users/{id}
}
