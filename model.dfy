/** The one entity the service stores (package `model`, type `User`). */
module Model {

  /** A user record; `id` is assigned by the service, never by the caller. */
  datatype User = User(id: string, name: string, email: string)
}
