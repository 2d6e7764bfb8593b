/** User registration of server/src/services/AuthService.ts: an insert into
    the user table guarded by the uniqueness of the email, storing a hash of
    the password and returning the row without it. */
module AuthService {

  import opened Common
  import opened Schema

  const UserExistsError := "L'utilisateur existe déjà"

  /** What `registerUser` returns (or throws), and the user table after it. */
  datatype Step = Step(result: Result<PublicUser>, users: seq<UserRow>)

  /** `prisma.user.findUnique({ where: { email } })` finds a row. */
  predicate EmailTaken(users: seq<UserRow>, email: string)
  {
    exists i | 0 <= i < |users| :: users[i].email == email
  }

  predicate FreshUserId(users: seq<UserRow>, id: UserId)
  {
    forall u :: u in users ==> u.id != id
  }

  /** No two users share an email (the column is unique). */
  ghost predicate UniqueEmails(users: seq<UserRow>)
  {
    forall i, j :: 0 <= i < j < |users| ==> users[i].email != users[j].email
  }

  /** The `select` of the insert: every column but the password. */
  function Public(u: UserRow): (p: PublicUser)
    ensures p.id == u.id && p.email == u.email && p.username == u.username && p.createdAt == u.createdAt
  {
    PublicUser(u.id, u.email, u.username, u.createdAt)
  }

  /** `registerUser(email, password, username)`. `hash` stands for
      `bcrypt.hash(password, SALT_ROUNDS)`; `id` and `now` are what the store
      generates. */
  function RegisterStep(users: seq<UserRow>, store: Store, hash: string -> string,
                        email: string, password: string, username: string, id: UserId, now: Time): (s: Step)
    requires FreshUserId(users, id)
    ensures store.Down? ==> s == Step(Err(store.error), users)
    ensures store.Up? && EmailTaken(users, email) ==> s == Step(Err(UserExistsError), users)
    ensures s.result.Ok? <==> store.Up? && !EmailTaken(users, email)
    ensures s.result.Err? ==> s.users == users
    ensures s.result.Ok? ==>
              && s.users == users + [UserRow(id, email, hash(password), username, now)]
              && s.result.value == Public(s.users[|users|])
  {
    if store.Down? then Step(Err(store.error), users)
    else if EmailTaken(users, email) then Step(Err(UserExistsError), users)
    else
      var row := UserRow(id, email, hash(password), username, now);
      Step(Ok(Public(row)), users + [row])
  }

  /** Registration keeps the emails unique. */
  lemma RegisterPreservesUniqueEmails(users: seq<UserRow>, store: Store, hash: string -> string,
                                      email: string, password: string, username: string, id: UserId, now: Time)
    requires UniqueEmails(users) && FreshUserId(users, id)
    ensures UniqueEmails(RegisterStep(users, store, hash, email, password, username, id, now).users)
  {
    var s := RegisterStep(users, store, hash, email, password, username, id, now);
    if s.result.Ok? {
      forall i, j | 0 <= i < j < |s.users|
        ensures s.users[i].email != s.users[j].email
      {
        if j == |users| {
          assert s.users[i] == users[i];
        }
      }
    }
  }

  /** Once an email is registered, every later registration with it fails,
      whatever the password and username. */
  lemma {:induction false} SecondRegistrationFails(users: seq<UserRow>, hash: string -> string, email: string,
                                                   password: string, username: string, id: UserId, now: Time,
                                                   store: Store, password2: string, username2: string, id2: UserId, now2: Time)
    requires FreshUserId(users, id)
    requires RegisterStep(users, Up, hash, email, password, username, id, now).result.Ok?
    requires FreshUserId(RegisterStep(users, Up, hash, email, password, username, id, now).users, id2)
    ensures var after := RegisterStep(users, Up, hash, email, password, username, id, now).users;
            RegisterStep(after, store, hash, email, password2, username2, id2, now2).result.Err?
  {
    var after := RegisterStep(users, Up, hash, email, password, username, id, now).users;
    assert after[|users|].email == email;
  }

  /** The stored row keeps `hash(password)` as its password; the returned
      record is that row without it. */
  lemma StoredPasswordIsHash(users: seq<UserRow>, hash: string -> string,
                             email: string, password: string, username: string, id: UserId, now: Time)
    requires FreshUserId(users, id) && !EmailTaken(users, email)
    ensures var s := RegisterStep(users, Up, hash, email, password, username, id, now);
            && |s.users| == |users| + 1
            && s.users[|users|].password == hash(password)
            && s.users[|users|].id == s.result.value.id
            && s.users[|users|].email == email
  {
  }

  /** The in-memory stand-in for the `user` table. */
  class UserTable {
    var users: seq<UserRow>

    constructor ()
      ensures users == []
    {
      users := [];
    }

    method RegisterUser(store: Store, hash: string -> string, email: string, password: string, username: string,
                        id: UserId, now: Time) returns (res: Result<PublicUser>)
      requires FreshUserId(users, id)
      modifies this
      ensures Step(res, users) == RegisterStep(old(users), store, hash, email, password, username, id, now)
      ensures UniqueEmails(old(users)) ==> UniqueEmails(users)
    {
      if UniqueEmails(users) {
        RegisterPreservesUniqueEmails(users, store, hash, email, password, username, id, now);
      }
      if store.Down? {
        return Err(store.error);
      }
      var existing := EmailTaken(users, email);
      if existing {
        return Err(UserExistsError);
      }
      var hashed := hash(password);
      var row := UserRow(id, email, hashed, username, now);
      users := users + [row];
      res := Ok(Public(row));
    }
  }
}
