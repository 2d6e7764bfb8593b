/** The request handlers of server/src/controllers/AuthController.ts: the
    email and password validators and the decisions of `register`, and the
    missing-field check of `login`. */
module AuthController {

  import opened Common
  import opened Schema
  import opened JsText
  import AuthService

  const MissingFieldsError := "Remplissez les champs manquants"
  const InvalidEmailError := "Email non valide"
  const InvalidPasswordError := "Mot de passe non valide"
  const RegisteredMessage := "Inscription réussie"
  const InternalRegisterError := "Erreur interne lors de l'inscription."

  // ---------------------------------------------------------------- email

  /** One `[^\s@]+` run of the email pattern. */
  predicate EmailRun(s: string)
  {
    |s| >= 1 && forall i :: 0 <= i < |s| ==> !IsJsSpace(s[i]) && s[i] != '@'
  }

  /** `^[^\s@]+@[^\s@]+\.[^\s@]+$`, read as the language it denotes. */
  ghost predicate MatchesEmailPattern(s: string)
  {
    exists a, b, c :: EmailRun(a) && EmailRun(b) && EmailRun(c) && s == a + "@" + b + "." + c
  }

  /** `@` at index `k` is the only one, and a `.` after it has a character
      on each side. */
  predicate AtSplit(s: string, k: int)
  {
    && 0 <= k < |s| && s[k] == '@'
    && (forall i | 0 <= i < |s| && i != k :: s[i] != '@')
    && exists j | k + 2 <= j < |s| - 1 :: s[j] == '.'
  }

  /** `emailRegex.test(email)`. */
  predicate IsValidEmail(s: string)
  {
    && (forall i | 0 <= i < |s| :: !IsJsSpace(s[i]))
    && exists k | 1 <= k < |s| :: AtSplit(s, k)
  }

  /** The validator accepts exactly the strings of the pattern. */
  lemma {:induction false} EmailValidIffPattern(s: string)
    ensures IsValidEmail(s) <==> MatchesEmailPattern(s)
  {
    if IsValidEmail(s) {
      var k :| 1 <= k < |s| && AtSplit(s, k);
      var j :| k + 2 <= j < |s| - 1 && s[j] == '.';
      var a, b, c := s[..k], s[k + 1..j], s[j + 1..];
      assert s == a + "@" + b + "." + c by {
        assert s == s[..k] + [s[k]] + s[k + 1..j] + [s[j]] + s[j + 1..];
      }
      assert EmailRun(a) && EmailRun(b) && EmailRun(c);
    }
    if MatchesEmailPattern(s) {
      var a, b, c :| EmailRun(a) && EmailRun(b) && EmailRun(c) && s == a + "@" + b + "." + c;
      var k, j := |a|, |a| + 1 + |b|;
      assert forall i :: 0 <= i < |a| ==> s[i] == a[i];
      assert forall i :: 0 <= i < |b| ==> s[k + 1 + i] == b[i];
      assert forall i :: 0 <= i < |c| ==> s[j + 1 + i] == c[i];
      assert s[k] == '@' && s[j] == '.';
      forall i | 0 <= i < |s|
        ensures !IsJsSpace(s[i]) && (i != k ==> s[i] != '@')
      {
        if i < k {
          assert s[i] == a[i];
        } else if k < i < j {
          assert s[i] == b[i - k - 1];
        } else if j < i {
          assert s[i] == c[i - j - 1];
        }
      }
      assert AtSplit(s, k);
    }
  }

  // ------------------------------------------------------------- password

  predicate IsLower(c: char) { 'a' <= c <= 'z' }
  predicate IsUpper(c: char) { 'A' <= c <= 'Z' }
  predicate IsDigit(c: char) { '0' <= c <= '9' }

  /** The class `[!@#$%^&*()_+[\]{};':"\\|,.<>/?-]`. */
  const SpecialChars := "!@#$%^&*()_+[]{};':\"\\|,.<>/?-"

  predicate IsSpecial(c: char) { c in SpecialChars }

  predicate Contains(s: string, p: char -> bool)
  {
    exists i | 0 <= i < |s| :: p(s[i])
  }

  predicate NoLineTerminator(s: string)
  {
    forall i | 0 <= i < |s| :: !IsLineTerminator(s[i])
  }

  /** `(?=.*[...])` at the start of the input: a character of the class,
      preceded only by characters that `.` matches. */
  ghost predicate LookaheadFinds(s: string, p: char -> bool)
  {
    exists i :: 0 <= i < |s| && p(s[i]) && NoLineTerminator(s[..i])
  }

  /** The password pattern, read as the language it denotes: the four
      lookaheads, then `.{8,}$`. */
  ghost predicate MatchesPasswordPattern(s: string)
  {
    && LookaheadFinds(s, IsLower) && LookaheadFinds(s, IsUpper)
    && LookaheadFinds(s, IsDigit) && LookaheadFinds(s, IsSpecial)
    && Utf16Length(s) >= 8 && NoLineTerminator(s)
  }

  /** `passwordRegex.test(password)`. */
  predicate IsValidPassword(s: string)
  {
    && Utf16Length(s) >= 8 && NoLineTerminator(s)
    && Contains(s, IsLower) && Contains(s, IsUpper) && Contains(s, IsDigit) && Contains(s, IsSpecial)
  }

  /** The validator accepts exactly the strings of the pattern: since `.{8,}$`
      rules out line terminators anywhere, each lookahead is a plain
      "contains". */
  lemma PasswordValidIffPattern(s: string)
    ensures IsValidPassword(s) <==> MatchesPasswordPattern(s)
  {
    if IsValidPassword(s) {
      forall p: char -> bool | Contains(s, p)
        ensures LookaheadFinds(s, p)
      {
        var i :| 0 <= i < |s| && p(s[i]);
        assert NoLineTerminator(s[..i]);
      }
    }
  }

  /** `.{8,}` without the `u` flag counts UTF-16 code units: six characters
      of which two are astral already make the length. */
  lemma AstralCharactersCountTwice()
    ensures IsValidPassword("aA1!\U{1F600}\U{1F600}")
    ensures !IsValidPassword("aA1!\U{E9}\U{E9}")
  {
    var s := "aA1!\U{1F600}\U{1F600}";
    assert IsLower(s[0]) && IsUpper(s[1]) && IsDigit(s[2]) && IsSpecial(s[3]);
    assert Utf16Length(s) == 8 by {
      assert s[1..][1..][1..][1..][1..][1..] == [];
    }
  }

  // ------------------------------------------------------------- handlers

  /** The fields of `req.body` the handlers read. */
  datatype RegisterBody = RegisterBody(email: Option<string>, password: Option<string>, username: Option<string>)

  /** The response of a handler and the user table after it. */
  datatype Outcome = Outcome(response: Response<PublicUser>, users: seq<UserRow>)

  /** `register(req, res)`: missing fields, then the email, then the
      password; only then the service, whose duplicate error is reported as
      is and every other error behind a generic prefix. */
  function Register(users: seq<UserRow>, store: Store, hash: string -> string, body: RegisterBody,
                    id: UserId, now: Time): (o: Outcome)
    requires AuthService.FreshUserId(users, id)
    ensures !(Truthy(body.email) && Truthy(body.password) && Truthy(body.username)) ==>
              o == Outcome(Response(400, ErrorBody(MissingFieldsError)), users)
    ensures Truthy(body.email) && Truthy(body.password) && Truthy(body.username) && !IsValidEmail(body.email.value) ==>
              o == Outcome(Response(400, ErrorBody(InvalidEmailError)), users)
    ensures Truthy(body.email) && Truthy(body.password) && Truthy(body.username)
            && IsValidEmail(body.email.value) && !IsValidPassword(body.password.value) ==>
              o == Outcome(Response(400, ErrorBody(InvalidPasswordError)), users)
    ensures o.response.status == 400 ==> o.users == users
    ensures o.response.status == 200 <==>
              && Truthy(body.email) && Truthy(body.password) && Truthy(body.username)
              && IsValidEmail(body.email.value) && IsValidPassword(body.password.value)
              && store.Up? && !AuthService.EmailTaken(users, body.email.value)
    ensures o.response.status in {200, 400, 500}
    ensures o.response.status == 200 ==>
              o.response.body.InfoData? && o.response.body.message == RegisteredMessage
              && o.response.body.data == AuthService.Public(UserRow(id, body.email.value, hash(body.password.value), body.username.value, now))
              && o.users == users + [UserRow(id, body.email.value, hash(body.password.value), body.username.value, now)]
    ensures o.response.status == 500 ==> o.users == users
    ensures Truthy(body.email) && Truthy(body.password) && Truthy(body.username)
            && IsValidEmail(body.email.value) && IsValidPassword(body.password.value)
            && store.Up? && AuthService.EmailTaken(users, body.email.value) ==>
              o.response == Response(500, ErrorBody(AuthService.UserExistsError))
    ensures Truthy(body.email) && Truthy(body.password) && Truthy(body.username)
            && IsValidEmail(body.email.value) && IsValidPassword(body.password.value) && store.Down? ==>
              o.response == Response(500, ErrorBody(if store.error == AuthService.UserExistsError then store.error
                                                    else InternalRegisterError + store.error))
  {
    if !Truthy(body.email) || !Truthy(body.password) || !Truthy(body.username) then
      Outcome(Response(400, ErrorBody(MissingFieldsError)), users)
    else if !IsValidEmail(body.email.value) then
      Outcome(Response(400, ErrorBody(InvalidEmailError)), users)
    else if !IsValidPassword(body.password.value) then
      Outcome(Response(400, ErrorBody(InvalidPasswordError)), users)
    else
      var step := AuthService.RegisterStep(users, store, hash, body.email.value, body.password.value, body.username.value, id, now);
      match step.result
      case Ok(user) => Outcome(Response(200, InfoData(RegisteredMessage, user)), step.users)
      case Err(e) =>
        if e == AuthService.UserExistsError then Outcome(Response(500, ErrorBody(e)), step.users)
        else Outcome(Response(500, ErrorBody(InternalRegisterError + e)), step.users)
  }

  /** Registering an email that is already taken answers 500 with the
      service's message and adds no user. */
  lemma DuplicateEmailIs500(users: seq<UserRow>, hash: string -> string, body: RegisterBody, id: UserId, now: Time)
    requires AuthService.FreshUserId(users, id)
    requires Truthy(body.email) && Truthy(body.password) && Truthy(body.username)
    requires IsValidEmail(body.email.value) && IsValidPassword(body.password.value)
    requires AuthService.EmailTaken(users, body.email.value)
    ensures Register(users, Up, hash, body, id, now) == Outcome(Response(500, ErrorBody(AuthService.UserExistsError)), users)
  {
  }

  /** An invalid password is reported only once the email is valid. */
  lemma InvalidPasswordNeedsValidEmail(users: seq<UserRow>, store: Store, hash: string -> string, body: RegisterBody,
                                       id: UserId, now: Time)
    requires AuthService.FreshUserId(users, id)
    requires Register(users, store, hash, body, id, now).response.body == ErrorBody(InvalidPasswordError)
    ensures IsValidEmail(body.email.value) && !IsValidPassword(body.password.value)
  {
  }

  /** `login(req, res)` up to the call of the (undefined) `loginUser`: the
      400 answer when a field is missing, `None` when the handler goes on. */
  function LoginGate(email: Option<string>, password: Option<string>): (r: Option<Response<PublicUser>>)
    ensures r.Some? <==> !Truthy(email) || !Truthy(password)
    ensures r.Some? ==> r.value == Response(400, ErrorBody(MissingFieldsError))
  {
    if !Truthy(email) || !Truthy(password) then Some(Response(400, ErrorBody(MissingFieldsError)))
    else None
  }
}
