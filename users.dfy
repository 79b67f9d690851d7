/** A stored user account: a unique user name, a password hash, an optional unique email address, and a
    role that is either administrator or ordinary user. */
module Users {
  import opened Wrappers

  datatype Role = Admin | Member

  /** The stored spelling of a role; a new account is a "user". */
  function RoleName(r: Role): string {
    match r
    case Admin => "admin"
    case Member => "user"
  }

  /** `password` holds the hash of the password, never the password itself. */
  datatype User = User(id: nat, username: string, password: string, email: Option<string>, role: Role)
}
