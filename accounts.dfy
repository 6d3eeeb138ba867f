/**
 The user table (`Usuario`) and the decisions of the `register` and `login`
 handlers. Password hashing is outside the model: registration receives the
 hash already computed, and login receives the hash check as a function.
 */
module Accounts {
  import opened Wrappers

  /** Column defaults of `Usuario.tipo` and `Usuario.status`. */
  const DefaultRole: string := "Cliente"
  const DefaultStatus: string := "Ativo"

  datatype User = User(name: string, email: string, passwordHash: string, role: string, status: string)

  /**
   The `Usuario` table in insertion order. Rows are never deleted, so the user
   at position `i` has the primary key `i + 1` that SQLite assigned to it.
   */
  type UserTable = seq<User>

  /** What a successful login stores in the session: `user_id`, `user_name`, `user_email`. */
  datatype Identity = Identity(id: int, name: string, email: string)

  datatype LoginOutcome = InvalidCredentials | Authenticated(who: Identity)

  /** The `unique=True` constraint on `Usuario.email`. */
  predicate UniqueEmails(users: UserTable) {
    forall i, j :: 0 <= i < j < |users| ==> users[i].email != users[j].email
  }

  /** `Usuario.query.filter_by(email=email).first()`, as a position in the table. */
  function FindByEmail(users: UserTable, email: string): (r: Option<nat>)
    ensures r.Some? ==> r.value < |users| && users[r.value].email == email
    ensures r.Some? ==> forall i :: 0 <= i < r.value ==> users[i].email != email
    ensures r.None? ==> forall i :: 0 <= i < |users| ==> users[i].email != email
  {
    if users == [] then None
    else if users[0].email == email then Some(0)
    else match FindByEmail(users[1..], email)
      case None => None
      case Some(k) => Some(k + 1)
  }

  /** Under the uniqueness constraint the user with a given e-mail is the one found. */
  lemma FindUnique(users: UserTable, i: nat)
    requires UniqueEmails(users) && i < |users|
    ensures FindByEmail(users, users[i].email) == Some(i)
  {
  }

  /**
   A `register` POST: `None` when the e-mail is already registered (the table
   is left as it was), otherwise the table with one new user at the end.
   */
  function Register(users: UserTable, name: string, email: string, passwordHash: string): (r: Option<UserTable>)
    ensures r.None? <==> exists i :: 0 <= i < |users| && users[i].email == email
    ensures r.Some? ==> |r.value| == |users| + 1 && r.value[..|users|] == users
    ensures r.Some? ==> r.value[|users|] == User(name, email, passwordHash, DefaultRole, DefaultStatus)
    ensures r.Some? ==> FindByEmail(r.value, email) == Some(|users|)
    ensures r.Some? && UniqueEmails(users) ==> UniqueEmails(r.value)
  {
    if FindByEmail(users, email).Some? then None
    else
      var grown := users + [User(name, email, passwordHash, DefaultRole, DefaultStatus)];
      assert forall i :: 0 <= i < |users| ==> grown[i] == users[i];
      Some(grown)
  }

  /**
   A `login` POST: the user found by e-mail must exist and the hash check must
   pass. A missing user and a wrong password give the same outcome.
   */
  function Authenticate(users: UserTable, email: string, password: string,
                        checkHash: (string, string) -> bool): (r: LoginOutcome)
    ensures r.Authenticated? ==>
              1 <= r.who.id <= |users| &&
              var u := users[r.who.id - 1];
              u.email == email && r.who.email == email && r.who.name == u.name &&
              checkHash(u.passwordHash, password)
    ensures (forall i :: 0 <= i < |users| ==> users[i].email != email) ==> r == InvalidCredentials
    ensures UniqueEmails(users) ==>
              forall i :: 0 <= i < |users| && users[i].email == email ==>
                (r.Authenticated? <==> checkHash(users[i].passwordHash, password))
  {
    match FindByEmail(users, email)
    case None => InvalidCredentials
    case Some(k) =>
      var u := users[k];
      if !checkHash(u.passwordHash, password) then InvalidCredentials
      else Authenticated(Identity(k + 1, u.name, u.email))
  }

  /** Registering and then logging in with a password the stored hash accepts yields the new user. */
  lemma RegisterThenLogin(users: UserTable, name: string, email: string, password: string,
                          passwordHash: string, checkHash: (string, string) -> bool)
    requires Register(users, name, email, passwordHash).Some?
    requires checkHash(passwordHash, password)
    ensures Authenticate(Register(users, name, email, passwordHash).value, email, password, checkHash)
         == Authenticated(Identity(|users| + 1, name, email))
  {
  }

  /** A rejected duplicate never lets a second row with the same e-mail in. */
  lemma DuplicateRejected(users: UserTable, i: nat, name: string, passwordHash: string)
    requires i < |users|
    ensures Register(users, name, users[i].email, passwordHash) == None
  {
  }
}
