/**
 * The signed-in account as the auth context holds it. The auth context
 * itself (storage of the session, `login`, `logout`) is not part of this
 * model; only the record it carries is.
 */
module Session {
  datatype User = User(id: string, name: string, username: string, email: string, phone: string)
}
