/** The signed-in user as the auth context supplies it. */
module Auth {

  /** `{ id, name, email }` of contexts/auth-context.tsx; "no user" is `Option.None`. */
  datatype User = User(id: string, name: string, email: string)
}
