/** Registration and login. Password hashing, password verification and
    token signing are not modelled: they are parameters, and the only thing
    assumed of them is what a lemma states as its precondition. */
module Auth {
  import opened Types
  import opened Db

  /** Defaults of `estado_cuenta` and `tipo_usuario` for a new account. */
  const ActiveAccount: string := "activo"
  const CustomerRole: string := "cliente"

  /** `token_type` of every issued token. */
  const Bearer: string := "bearer"

  /** A registration body: the account's columns and the plaintext password. */
  datatype UserCreate = UserCreate(
    username: string,
    email: string,
    password: string,
    firstName: string,
    lastName: string,
    phone: Option<string>)

  predicate EmailInUse(users: seq<User>, email: string) {
    exists k :: 0 <= k < |users| && users[k].email == email
  }

  predicate UsernameInUse(users: seq<User>, username: string) {
    exists k :: 0 <= k < |users| && users[k].username == username
  }

  /** The row a registration inserts: every column of the body except the
      password, the hash of the password, and the column defaults. */
  function NewUser(data: UserCreate, passwordHash: string, id: nat, at: nat): (r: User)
    ensures r.username == data.username && r.email == data.email && r.passwordHash == passwordHash
    ensures r.id == id && r.registeredAt == at
    ensures r.accountState == ActiveAccount && r.role == CustomerRole
  {
    User(id, data.username, data.email, passwordHash, data.firstName, data.lastName, data.phone,
         at, ActiveAccount, CustomerRole)
  }

  /** Appending an account with a new email, a new user name and a fresh id
      keeps every account's email, user name and id distinct. */
  lemma {:induction false} AppendKeepsAccountsUnique(users: seq<User>, u: User)
    requires UniqueAccounts(users)
    requires !EmailInUse(users, u.email) && !UsernameInUse(users, u.username)
    requires forall k :: 0 <= k < |users| ==> users[k].id != u.id
    ensures UniqueAccounts(users + [u])
  {
    var all := users + [u];
    forall i, j | 0 <= i < j < |all|
      ensures all[i].email != all[j].email && all[i].username != all[j].username && all[i].id != all[j].id
    {
      if j == |users| {
        assert all[i] == users[i];
      } else {
        assert all[i] == users[i] && all[j] == users[j];
      }
    }
  }

  /** Registering keeps the database invariant. */
  lemma RegisterKeepsConsistent(users: seq<User>, products: map<nat, Product>, carts: map<nat, Cart>,
                                orders: seq<Order>, messages: map<nat, Message>, convs: seq<ConvRecord>,
                                nextId: nat, clock: nat, u: User)
    requires Consistent(users, products, carts, orders, messages, convs, nextId, clock)
    requires !EmailInUse(users, u.email) && !UsernameInUse(users, u.username) && u.id == nextId
    ensures Consistent(users + [u], products, carts, orders, messages, convs, nextId + 1, clock + 1)
  {
    AppendKeepsAccountsUnique(users, u);
  }

  /** register_user: 400 when the email is taken, checked first, then 400
      when the user name is taken; otherwise exactly one account is added. */
  method RegisterUser(db: Store, data: UserCreate, hash: string -> string) returns (r: Result<User>)
    requires db.Valid()
    modifies db
    ensures db.Valid()
    ensures db.products == old(db.products) && db.carts == old(db.carts) && db.orders == old(db.orders)
    ensures db.messages == old(db.messages) && db.convs == old(db.convs)
    ensures EmailInUse(old(db.users), data.email) ==> r == Err(EmailTaken) && unchanged(db)
    ensures !EmailInUse(old(db.users), data.email) && UsernameInUse(old(db.users), data.username) ==>
              r == Err(UsernameTaken) && unchanged(db)
    ensures !EmailInUse(old(db.users), data.email) && !UsernameInUse(old(db.users), data.username) ==>
              var u := NewUser(data, hash(data.password), old(db.nextId), old(db.clock));
              && r == Ok(u)
              && db.users == old(db.users) + [u]
              && db.nextId == old(db.nextId) + 1 && db.clock == old(db.clock) + 1
  {
    if EmailInUse(db.users, data.email) {
      return Err(EmailTaken);
    }
    if UsernameInUse(db.users, data.username) {
      return Err(UsernameTaken);
    }
    var u := NewUser(data, hash(data.password), db.nextId, db.clock);
    RegisterKeepsConsistent(db.users, db.products, db.carts, db.orders, db.messages, db.convs,
                            db.nextId, db.clock, u);
    db.users := db.users + [u];
    db.nextId := db.nextId + 1;
    db.clock := db.clock + 1;
    r := Ok(u);
  }

  /** The user's name or email equals the login identifier. */
  predicate Identifies(u: User, identifier: string) {
    u.username == identifier || u.email == identifier
  }

  /** `.filter(nombre_usuario == id | email == id).first()`, in table order. */
  function FindLogin(users: seq<User>, identifier: string): (r: Option<User>)
    ensures r.None? <==> forall k :: 0 <= k < |users| ==> !Identifies(users[k], identifier)
    ensures r.Some? ==> exists k :: 0 <= k < |users| && users[k] == r.value && Identifies(r.value, identifier) &&
                                    forall j :: 0 <= j < k ==> !Identifies(users[j], identifier)
    decreases |users|
  {
    if users == [] then None
    else if Identifies(users[0], identifier) then Some(users[0])
    else
      var r := FindLogin(users[1..], identifier);
      if r.Some? then
        var k :| 0 <= k < |users[1..]| && users[1..][k] == r.value && Identifies(r.value, identifier) &&
                 forall j :: 0 <= j < k ==> !Identifies(users[1..][j], identifier);
        assert users[k + 1] == r.value;
        r
      else r
  }

  /** The claims of an access token. */
  datatype Claims = Claims(sub: string, userId: nat)

  /** The login response body. */
  datatype Token = Token(accessToken: string, tokenType: string)

  /** login_for_access_token: the same 401 for an unknown identifier and for
      a wrong password; otherwise a bearer token for the found account. */
  function Login(users: seq<User>, identifier: string, password: string,
                 verify: (string, string) -> bool, sign: Claims -> string): (r: Result<Token>)
    ensures r.Err? ==> r.error == BadCredentials
    ensures r.Ok? <==> FindLogin(users, identifier).Some? &&
                       verify(password, FindLogin(users, identifier).value.passwordHash)
    ensures r.Ok? ==>
              var u := FindLogin(users, identifier).value;
              r.value == Token(sign(Claims(u.username, u.id)), Bearer)
  {
    var found := FindLogin(users, identifier);
    if found.None? || !verify(password, found.value.passwordHash) then Err(BadCredentials)
    else Ok(Token(sign(Claims(found.value.username, found.value.id)), Bearer))
  }

  /** Under unique accounts, login by email finds exactly the account with
      that email, unless some other account uses that text as its user name. */
  lemma LoginByEmail(users: seq<User>, k: nat)
    requires UniqueAccounts(users) && k < |users|
    requires forall j :: 0 <= j < |users| ==> users[j].username != users[k].email
    ensures FindLogin(users, users[k].email) == Some(users[k])
  {
    forall j | 0 <= j < |users| && j != k ensures !Identifies(users[j], users[k].email) {
      if j < k {
        assert users[j].email != users[k].email;
      } else {
        assert users[k].email != users[j].email;
      }
    }
    assert Identifies(users[k], users[k].email);
    var r := FindLogin(users, users[k].email);
    var i :| 0 <= i < |users| && users[i] == r.value && Identifies(r.value, users[k].email);
    assert i == k;
  }

  /** A freshly registered account can log in with its user name and
      password, provided the verifier accepts a password against its own hash
      and no older account uses that user name as its email. */
  lemma RegisterThenLogin(users: seq<User>, data: UserCreate, hash: string -> string, id: nat, at: nat,
                          verify: (string, string) -> bool, sign: Claims -> string)
    requires !UsernameInUse(users, data.username)
    requires !EmailInUse(users, data.username)
    requires forall p :: verify(p, hash(p))
    ensures var u := NewUser(data, hash(data.password), id, at);
            Login(users + [u], data.username, data.password, verify, sign)
              == Ok(Token(sign(Claims(data.username, id)), Bearer))
  {
    var u := NewUser(data, hash(data.password), id, at);
    var all := users + [u];
    assert forall k :: 0 <= k < |users| ==> all[k] == users[k] && !Identifies(users[k], data.username);
    assert all[|users|] == u && Identifies(u, data.username);
    var r := FindLogin(all, data.username);
    var i :| 0 <= i < |all| && all[i] == r.value && Identifies(r.value, data.username);
    assert i == |users|;
  }
}
