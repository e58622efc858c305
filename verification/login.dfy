/**
 * The two name-and-password routes: the JSON login, which only reads, and
 * the form login, which registers the name when nobody has it yet. Both look
 * the name up with `getUserByName` and compare passwords as plain strings.
 */
module Login {
  import opened Wrappers
  import opened Schema
  import Repository
  import Queries
  import opened Store

  /** The JSON login's answer. */
  datatype LoginResponse =
    | LoggedIn(user: User)
    | NotRegistered
    | WrongPassword

  /** The JSON login's decision on the lookup result. */
  function LoginDecision(found: Option<User>, password: string): (r: LoginResponse)
    ensures r.NotRegistered? <==> found.None?
    ensures r.LoggedIn? <==> found.Some? && found.value.password == password
    ensures r.LoggedIn? ==> r.user == found.value
  {
    match found
    case None => NotRegistered
    case Some(u) => if u.password == password then LoggedIn(u) else WrongPassword
  }

  /** `action` of the JSON login route: never writes. */
  method ApiLogin(db: Db, username: string, password: string) returns (resp: LoginResponse)
    requires db.Valid()
    ensures resp.NotRegistered? <==> forall k :: k in db.users ==> db.users[k].name != username
    ensures resp.LoggedIn? ==>
              resp.user.id in db.users && db.users[resp.user.id] == resp.user
              && resp.user.name == username && resp.user.password == password
    ensures resp.WrongPassword? ==>
              exists k :: k in db.users && db.users[k].name == username && db.users[k].password != password
  {
    var found := Queries.GetUserByName(db.users, username);
    resp := LoginDecision(found, password);
  }

  /** The form login's decision on the lookup result. */
  datatype Registration =
    | Register
    | Existing(id: Id)
    | Taken

  function RegisterDecision(found: Option<User>, password: string): (r: Registration)
    ensures r.Register? <==> found.None?
    ensures r.Existing? <==> found.Some? && found.value.password == password
    ensures r.Existing? ==> r.id == found.value.id
  {
    match found
    case None => Register
    case Some(u) => if u.password == password then Existing(u.id) else Taken
  }

  /** The form login's answer: a redirect to a user's page, or the error of a taken name. */
  datatype RegisterResponse =
    | Redirect(userId: Id)
    | NameTaken

  /**
   * `action` of the form login route: an unknown name is registered with the
   * given password; a known one with the same password goes to its page.
   */
  method UserLogin(db: Db, username: string, password: string) returns (resp: RegisterResponse)
    requires db.Valid()
    modifies db
    ensures db.Valid()
    ensures (forall k :: k in old(db.users) ==> old(db.users)[k].name != username) ==>
              && db.View() == Repository.AddUser(old(db.View()), username, password, db.defaultBalance)
              && resp == Redirect(old(db.nextId))
    ensures (exists k :: k in old(db.users) && old(db.users)[k].name == username) ==>
              && db.View() == old(db.View())
              && (resp.Redirect? ==>
                    && resp.userId in db.users
                    && db.users[resp.userId].name == username
                    && db.users[resp.userId].password == password)
              && (resp.NameTaken? ==>
                    exists k :: k in db.users && db.users[k].name == username && db.users[k].password != password)
  {
    var found := Queries.GetUserByName(db.users, username);
    match RegisterDecision(found, password)
    case Register =>
      var user := db.AddUser(username, password);
      resp := Redirect(user.id);
    case Existing(id) =>
      resp := Redirect(id);
    case Taken =>
      resp := NameTaken;
  }

  /** Both routes make the same three-way decision on the same lookup result. */
  lemma SameDecision(found: Option<User>, password: string)
    ensures LoginDecision(found, password).NotRegistered? <==> RegisterDecision(found, password).Register?
    ensures LoginDecision(found, password).LoggedIn? <==> RegisterDecision(found, password).Existing?
    ensures LoginDecision(found, password).WrongPassword? <==> RegisterDecision(found, password).Taken?
    ensures LoginDecision(found, password).LoggedIn? ==>
              LoginDecision(found, password).user.id == RegisterDecision(found, password).id
  {
  }

  /**
   * Registering a fresh name and then logging in with the same password
   * succeeds: the new row is the only one with that name, so any lookup
   * finds it, and its password matches.
   */
  lemma RegisterThenLogin(s: State, name: string, password: string, defaultBalance: int, found: Option<User>)
    requires WellFormed(s) && forall k :: k in s.users ==> s.users[k].name != name
    requires var r := Repository.AddUser(s, name, password, defaultBalance);
             found.Some? && found.value.name == name && found.value in r.users.Values
    ensures var r := Repository.AddUser(s, name, password, defaultBalance);
            && (forall k :: k in r.users && r.users[k].name == name ==> k == s.nextId)
            && LoginDecision(found, password) == LoggedIn(r.users[s.nextId])
  {
    var r := Repository.AddUser(s, name, password, defaultBalance);
    var k :| k in r.users && r.users[k] == found.value;
    assert k == s.nextId;
  }
}
