/** Records the Express back end reads from and writes to its tables, and
    the shape of a handler's outcome. A request body field that is absent
    is `None`; JavaScript truthiness of such a field is `Truthy`. */
module ApiTypes {
  import opened Base

  /** A row of the `users` table, keyed by `user_id`. */
  datatype UserRow = UserRow(
    username: string,
    passwordHash: string,
    fullName: string,
    role: string,
    email: Option<string>,
    dateOfBirth: Option<string>,
    address: Option<string>,
    phoneNumber: Option<string>)

  /** `req.user` and the `user` of a login reply: the columns
      `user_id, username, full_name, role, email`. */
  datatype AuthUser = AuthUser(
    userId: string,
    username: string,
    fullName: string,
    role: string,
    email: Option<string>)

  function AuthUserOf(userId: string, row: UserRow): AuthUser
  {
    AuthUser(userId, row.username, row.fullName, row.role, row.email)
  }

  /** What a handler does: answers with a status and a body
      (`res.status(s).json(...)`), or sets a status and throws
      (`res.status(s); throw new Error(message)`). */
  datatype Reply<T> = Respond(status: int, body: T) | Raise(status: int, message: string)

  /** `!!value` for a string field of a request body. */
  predicate Truthy(value: Option<string>)
  {
    value.Some? && value.value != ""
  }

  /** `value || null` */
  function OrNull(value: Option<string>): (r: Option<string>)
    ensures r.Some? <==> Truthy(value)
    ensures r.Some? ==> r == value
  {
    if Truthy(value) then value else None
  }
}
