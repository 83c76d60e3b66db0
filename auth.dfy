/**
 * The account routes (backend/src/routes/auth.js): `/signup` validates the
 * body, refuses an email or phone already on file and stores the user with a
 * hashed password; `/login` looks the phone up and compares the password.
 *
 * The user table is the `users` field of a `UserTable`. Hashing is the
 * parameter `hash` (bcrypt's `compare` is taken as `hash(password) == stored`),
 * and the clock reading for `createdAt` is the parameter `now`.
 */
module Auth {
  import opened Wrappers
  import opened JsString

  /** A request-body field: `None` when absent. */
  type Field = Option<string>

  /** A row of the user table; `password` holds the hash. */
  datatype StoredUser = StoredUser(id: nat, email: string, phone: string, name: string, password: string, createdAt: int)

  /** The columns a response may carry: everything but the password. */
  datatype SafeUser = SafeUser(id: nat, email: string, phone: string, name: string, createdAt: int)

  /** An HTTP status and a JSON body: the payload, or the `error` text. */
  datatype Reply = Reply(status: int, body: Result<SafeUser, string>)

  const FieldsRequired: string := "All fields are required"
  const AlreadyExists: string := "User with this email or phone already exists"
  const PhoneAndPasswordRequired: string := "Phone number and password are required"
  const InvalidCredentials: string := "Invalid phone number or password"

  function Safe(u: StoredUser): (s: SafeUser)
    ensures s.id == u.id && s.email == u.email && s.phone == u.phone && s.name == u.name && s.createdAt == u.createdAt
  {
    SafeUser(u.id, u.email, u.phone, u.name, u.createdAt)
  }

  /** No two rows share an email, a phone number or an id, and every id is below `nextId`. */
  predicate UniqueUsers(users: seq<StoredUser>, nextId: nat) {
    && (forall i, j :: 0 <= i < j < |users| ==>
          users[i].email != users[j].email && users[i].phone != users[j].phone && users[i].id != users[j].id)
    && (forall i :: 0 <= i < |users| ==> users[i].id < nextId)
  }

  /** Whether `findFirst({OR: [{email}, {phone}]})` finds a row. */
  predicate Conflicts(users: seq<StoredUser>, email: string, phone: string) {
    exists i :: 0 <= i < |users| && (users[i].email == email || users[i].phone == phone)
  }

  /** The row `findUnique({phone})` returns: the first with that phone. */
  function FindByPhone(users: seq<StoredUser>, phone: string): (r: Option<nat>)
    ensures r.Some? ==>
      (r.value < |users| && users[r.value].phone == phone && forall i :: 0 <= i < r.value ==> users[i].phone != phone)
    ensures r.None? ==> forall i :: 0 <= i < |users| ==> users[i].phone != phone
  {
    if users == [] then None
    else if users[0].phone == phone then Some(0)
    else match FindByPhone(users[1..], phone)
      case None => None
      case Some(i) => Some(i + 1)
  }

  /** The outcome of a signup: the reply and the table afterwards. */
  datatype SignupOutcome = SignupOutcome(reply: Reply, users: seq<StoredUser>)

  /** What `/signup` does to a table whose next id is `nextId`. */
  function Signup(users: seq<StoredUser>, nextId: nat, phoneNum: Field, email: Field, name: Field, password: Field,
                  hash: string -> string, now: int): SignupOutcome
  {
    if !Truthy(phoneNum) || !Truthy(email) || !Truthy(name) || !Truthy(password) then
      SignupOutcome(Reply(400, Err(FieldsRequired)), users)
    else if Conflicts(users, email.value, phoneNum.value) then
      SignupOutcome(Reply(409, Err(AlreadyExists)), users)
    else
      var user := StoredUser(nextId, email.value, phoneNum.value, name.value, hash(password.value), now);
      SignupOutcome(Reply(201, Ok(Safe(user))), users + [user])
  }

  /** What `/login` answers; it changes nothing. */
  function Login(users: seq<StoredUser>, phoneNum: Field, password: Field, hash: string -> string): (r: Reply)
    ensures r.status == 400 <==> !Truthy(phoneNum) || !Truthy(password)
    ensures r.status == 200 ==>
      exists i :: (0 <= i < |users| && users[i].phone == phoneNum.value
                   && users[i].password == hash(password.value) && r.body == Ok(Safe(users[i])))
    ensures r.status in {200, 400, 401}
  {
    if !Truthy(phoneNum) || !Truthy(password) then Reply(400, Err(PhoneAndPasswordRequired))
    else match FindByPhone(users, phoneNum.value)
      case None => Reply(401, Err(InvalidCredentials))
      case Some(i) =>
        if hash(password.value) != users[i].password then Reply(401, Err(InvalidCredentials))
        else Reply(200, Ok(Safe(users[i])))
  }

  /**
   * The three outcomes of a signup: 400 with the table unchanged when a field
   * is missing, 409 with the table unchanged when the email or phone is on
   * file, and otherwise 201 with exactly one row added, holding the hash.
   */
  lemma SignupCases(users: seq<StoredUser>, nextId: nat, phoneNum: Field, email: Field, name: Field, password: Field,
                    hash: string -> string, now: int)
    ensures var o := Signup(users, nextId, phoneNum, email, name, password, hash, now);
      && (o.reply.status == 400 <==> !Truthy(phoneNum) || !Truthy(email) || !Truthy(name) || !Truthy(password))
      && (o.reply.status == 409 <==> Truthy(phoneNum) && Truthy(email) && Truthy(name) && Truthy(password)
                                     && Conflicts(users, email.value, phoneNum.value))
      && (o.reply.status == 201 <==>
            && Truthy(phoneNum) && Truthy(email) && Truthy(name) && Truthy(password)
            && !Conflicts(users, email.value, phoneNum.value))
      && (o.reply.status != 201 ==> o.users == users && o.reply.body.Err?)
      && (o.reply.status == 201 ==>
            && o.users[..|users|] == users && |o.users| == |users| + 1
            && o.users[|users|] == StoredUser(nextId, email.value, phoneNum.value, name.value, hash(password.value), now)
            && o.reply.body == Ok(Safe(o.users[|users|])))
  {
  }

  /** Signup keeps emails, phones and ids unique, the invariant the conflict check exists for. */
  lemma SignupKeepsUnique(users: seq<StoredUser>, nextId: nat, phoneNum: Field, email: Field, name: Field, password: Field,
                          hash: string -> string, now: int)
    requires UniqueUsers(users, nextId)
    ensures var o := Signup(users, nextId, phoneNum, email, name, password, hash, now);
      UniqueUsers(o.users, if o.reply.status == 201 then nextId + 1 else nextId)
  {
    var o := Signup(users, nextId, phoneNum, email, name, password, hash, now);
    if o.reply.status == 201 {
      var all := o.users;
      forall i, j | 0 <= i < j < |all|
        ensures all[i].email != all[j].email && all[i].phone != all[j].phone && all[i].id != all[j].id
      {
        if j == |users| {
          assert all[i] == users[i];
          assert !(users[i].email == email.value || users[i].phone == phoneNum.value);
        }
      }
    }
  }

  /** Unknown phone and wrong password get the same 401 reply. */
  lemma LoginFailuresAlike(users: seq<StoredUser>, nextId: nat, phoneNum: Field, password: Field, hash: string -> string)
    requires UniqueUsers(users, nextId) && Truthy(phoneNum) && Truthy(password)
    ensures var r := Login(users, phoneNum, password, hash);
      r.status == 401 <==> forall i :: 0 <= i < |users| && users[i].phone == phoneNum.value ==>
                               users[i].password != hash(password.value)
    ensures Login(users, phoneNum, password, hash).status == 401 ==>
      Login(users, phoneNum, password, hash) == Reply(401, Err(InvalidCredentials))
  {
  }

  /** After a successful signup, logging in with the same phone and password returns the new user. */
  lemma SignupThenLogin(users: seq<StoredUser>, nextId: nat, phoneNum: Field, email: Field, name: Field, password: Field,
                        hash: string -> string, now: int)
    requires Signup(users, nextId, phoneNum, email, name, password, hash, now).reply.status == 201
    ensures var o := Signup(users, nextId, phoneNum, email, name, password, hash, now);
      Login(o.users, phoneNum, password, hash) == Reply(200, o.reply.body)
  {
    var o := Signup(users, nextId, phoneNum, email, name, password, hash, now);
    FindByPhoneLast(users, o.users[|users|]);
  }

  /** A row whose phone is new is found at the end. */
  lemma {:induction false} FindByPhoneLast(users: seq<StoredUser>, u: StoredUser)
    requires forall i :: 0 <= i < |users| ==> users[i].phone != u.phone
    ensures FindByPhone(users + [u], u.phone) == Some(|users|)
  {
    if users != [] {
      assert (users + [u])[1..] == users[1..] + [u];
      FindByPhoneLast(users[1..], u);
    }
  }

  /** The user table with the id counter of its autoincrement column. */
  class UserTable {
    var users: seq<StoredUser>
    var nextId: nat

    constructor()
      ensures users == [] && nextId == 0
    {
      users := [];
      nextId := 0;
    }

    predicate Valid()
      reads this
    {
      UniqueUsers(users, nextId)
    }

    /** `POST /signup`. */
    method HandleSignup(phoneNum: Field, email: Field, name: Field, password: Field, hash: string -> string, now: int)
      returns (reply: Reply)
      requires Valid()
      modifies this
      ensures Valid()
      ensures var o := Signup(old(users), old(nextId), phoneNum, email, name, password, hash, now);
        reply == o.reply && users == o.users
      ensures nextId == if reply.status == 201 then old(nextId) + 1 else old(nextId)
    {
      SignupKeepsUnique(users, nextId, phoneNum, email, name, password, hash, now);
      if !Truthy(phoneNum) || !Truthy(email) || !Truthy(name) || !Truthy(password) {
        return Reply(400, Err(FieldsRequired));
      }
      if Conflicts(users, email.value, phoneNum.value) {
        return Reply(409, Err(AlreadyExists));
      }
      var hashedPassword := hash(password.value);
      var user := StoredUser(nextId, email.value, phoneNum.value, name.value, hashedPassword, now);
      users := users + [user];
      nextId := nextId + 1;
      return Reply(201, Ok(Safe(user)));
    }

    /** `POST /login`: the table is only read. */
    method HandleLogin(phoneNum: Field, password: Field, hash: string -> string) returns (reply: Reply)
      ensures reply == Login(users, phoneNum, password, hash)
    {
      if !Truthy(phoneNum) || !Truthy(password) {
        return Reply(400, Err(PhoneAndPasswordRequired));
      }
      var found := FindByPhone(users, phoneNum.value);
      if found.None? {
        return Reply(401, Err(InvalidCredentials));
      }
      var user := users[found.value];
      if hash(password.value) != user.password {
        return Reply(401, Err(InvalidCredentials));
      }
      return Reply(200, Ok(Safe(user)));
    }
  }
}
