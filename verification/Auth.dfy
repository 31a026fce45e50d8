/** Accounts and refresh tokens: the auth service, its token table, and what every sequence of
    service calls guarantees about token lineages. Each call is atomic. */
module Auth {
  import opened Wrappers

  const REFRESH_TTL := 7 * 24 * 3600  // seconds

  datatype User = User(email: string, passwordHash: string, admin: bool, disabled: bool, mustChangePassword: bool)

  /** A row of `refresh_tokens`. Only the digest of the token is stored. */
  datatype Token = Token(userId: int, hash: string, expiresAt: int, revoked: bool)

  datatype Verdict = Match | Mismatch | Malformed

  /** SHA-256 of a token, bcrypt of a password and its check, and the case fold under which the
      e-mail column compares. Nothing is assumed of them. */
  datatype Crypto = Crypto(
    digest: string -> string,
    foldEmail: string -> string,
    hashPassword: (string, string) -> Option<string>,  // plain text, salt
    verify: (string, string) -> Verdict)               // stored hash, plain text

  /** Which parts of a call the database lets through. */
  datatype Faults = Faults(readOk: bool, writeOk: bool, revokeOk: bool, issueOk: bool)

  datatype AuthError =
    | EmailTaken | InvalidCredentials | UserDisabled | RefreshInvalid | RefreshExpired | RefreshRevoked
    | UserNotFound | Internal

  /** The tables, and for each token the number of the call that began its lineage. */
  datatype State = State(
    users: map<int, User>,
    tokens: map<int, Token>,
    nextUser: int,
    nextToken: int,
    roots: map<int, nat>,
    calls: nat)

  const EMPTY := State(map[], map[], 1, 1, map[], 0)

  datatype Call =
    | Register(email: string, password: string, salt: string, raw: string)
    | Login(email: string, password: string, raw: string)
    | Refresh(presented: string, raw: string)
    | Logout(presented: string)
    | ChangePassword(userId: int, oldPassword: string, newPassword: string, salt: string)
    | ResetPassword(userId: int, temporary: string, salt: string)
    | SetDisabled(userId: int, disabled: bool)
    | Bootstrap(email: string, temporary: string, salt: string)

  /** A call with its clock reading and faults. `raw` is the random token it would hand out. */
  datatype Event = Event(call: Call, now: int, faults: Faults)

  /** Ok carries the user the call acted for; for a logout, and for disabling an account, it is 0. */
  type Outcome = (State, Result<int, AuthError>)

  // ---- tables ----

  ghost predicate HasHash(tokens: map<int, Token>, hash: string) {
    exists id :: id in tokens && tokens[id].hash == hash
  }

  ghost function FindByHash(tokens: map<int, Token>, hash: string): (id: Option<int>)
    ensures id.Some? <==> HasHash(tokens, hash)
    ensures id.Some? ==> id.value in tokens && tokens[id.value].hash == hash
  {
    if HasHash(tokens, hash) then
      var id :| id in tokens && tokens[id].hash == hash;
      Some(id)
    else None
  }

  predicate SameEmail(c: Crypto, a: string, b: string) {
    c.foldEmail(a) == c.foldEmail(b)
  }

  ghost predicate HasEmail(c: Crypto, users: map<int, User>, email: string) {
    exists id :: id in users && SameEmail(c, users[id].email, email)
  }

  ghost function FindByEmail(c: Crypto, users: map<int, User>, email: string): (id: Option<int>)
    ensures id.Some? <==> HasEmail(c, users, email)
    ensures id.Some? ==> id.value in users && SameEmail(c, users[id.value].email, email)
  {
    if HasEmail(c, users, email) then
      var id :| id in users && SameEmail(c, users[id].email, email);
      Some(id)
    else None
  }

  function Revoked(tokens: map<int, Token>, id: int): map<int, Token> {
    if id in tokens then tokens[id := tokens[id].(revoked := true)] else tokens
  }

  function AllRevoked(tokens: map<int, Token>, userId: int): map<int, Token> {
    map id | id in tokens :: if tokens[id].userId == userId then tokens[id].(revoked := true) else tokens[id]
  }

  predicate Live(t: Token) {
    !t.revoked
  }

  function LiveTokens(s: State, userId: int): set<int> {
    set id | id in s.tokens && s.tokens[id].userId == userId && Live(s.tokens[id])
  }

  // ---- calls ----

  /** `issueTokens`: the insert fails if the digest is already in the table. */
  ghost function Issue(c: Crypto, s: State, userId: int, raw: string, root: nat, now: int, ok: bool): Outcome {
    if !ok || HasHash(s.tokens, c.digest(raw)) then (s, Err(Internal))
    else
      (s.(tokens := s.tokens[s.nextToken := Token(userId, c.digest(raw), now + REFRESH_TTL, false)],
          roots := s.roots[s.nextToken := root],
          nextToken := s.nextToken + 1), Ok(userId))
  }

  ghost function ApplyRegister(
    c: Crypto, s: State, email: string, password: string, salt: string, raw: string, now: int, f: Faults): Outcome
  {
    if !f.readOk then (s, Err(Internal))
    else if HasEmail(c, s.users, email) then (s, Err(EmailTaken))
    else
      match c.hashPassword(password, salt)
      case None => (s, Err(Internal))
      case Some(hash) =>
        if !f.writeOk then (s, Err(Internal))
        else
          var id := s.nextUser;
          var t := s.(users := s.users[id := User(email, hash, false, false, false)], nextUser := id + 1);
          Issue(c, t, id, raw, s.calls, now, f.issueOk)
  }

  ghost function ApplyLogin(
    c: Crypto, s: State, email: string, password: string, raw: string, now: int, f: Faults): Outcome
  {
    if !f.readOk then (s, Err(Internal))
    else
      match FindByEmail(c, s.users, email)
      case None => (s, Err(InvalidCredentials))
      case Some(id) =>
        if s.users[id].disabled then (s, Err(UserDisabled))
        else
          match c.verify(s.users[id].passwordHash, password)
          case Mismatch => (s, Err(InvalidCredentials))
          case Malformed => (s, Err(Internal))
          case Match => Issue(c, s, id, raw, s.calls, now, f.issueOk)
  }

  /** The checks on a stored token, and the exchange if it passes them. */
  ghost function Redeem(c: Crypto, s: State, id: int, raw: string, now: int, f: Faults): Outcome
    requires id in s.tokens
  {
    var row := s.tokens[id];
    if row.revoked then (s, Err(RefreshRevoked))
    else if now > row.expiresAt then (s, Err(RefreshExpired))
    else if row.userId !in s.users then (s, Err(UserNotFound))
    else if s.users[row.userId].disabled then (s, Err(UserDisabled))
    else if !f.revokeOk then (s, Err(Internal))
    else
      Issue(c, s.(tokens := Revoked(s.tokens, id)), row.userId, raw,
            if id in s.roots then s.roots[id] else 0, now, f.issueOk)
  }

  ghost function ApplyRefresh(c: Crypto, s: State, presented: string, raw: string, now: int, f: Faults): Outcome {
    if !f.readOk then (s, Err(Internal))
    else
      match FindByHash(s.tokens, c.digest(presented))
      case None => (s, Err(RefreshInvalid))
      case Some(id) =>
        Redeem(c, s, id, raw, now, f)
  }

  ghost function ApplyLogout(c: Crypto, s: State, presented: string, f: Faults): Outcome {
    if !f.readOk then (s, Err(Internal))
    else
      match FindByHash(s.tokens, c.digest(presented))
      case None => (s, Ok(0))
      case Some(id) =>
        if !f.revokeOk then (s, Err(Internal)) else (s.(tokens := Revoked(s.tokens, id)), Ok(0))
  }

  /** Writes the hash, then revokes; a failing revocation leaves the new hash in place. */
  function WritePassword(s: State, userId: int, hash: Option<string>, mustChange: bool, f: Faults): Outcome
    requires userId in s.users
  {
    if hash.None? || !f.writeOk then (s, Err(Internal))
    else
      var user := s.users[userId].(passwordHash := hash.value, mustChangePassword := mustChange);
      var t := s.(users := s.users[userId := user]);
      if !f.revokeOk then (t, Err(Internal)) else (t.(tokens := AllRevoked(t.tokens, userId)), Ok(userId))
  }

  function ApplyChangePassword(
    c: Crypto, s: State, userId: int, oldPassword: string, newPassword: string, salt: string, f: Faults): Outcome
  {
    if !f.readOk then (s, Err(Internal))
    else if userId !in s.users then (s, Err(UserNotFound))
    else
      match c.verify(s.users[userId].passwordHash, oldPassword)
      case Mismatch => (s, Err(InvalidCredentials))
      case Malformed => (s, Err(Internal))
      case Match => WritePassword(s, userId, c.hashPassword(newPassword, salt), false, f)
  }

  function ApplyResetPassword(c: Crypto, s: State, userId: int, temporary: string, salt: string, f: Faults): Outcome {
    if !f.readOk then (s, Err(Internal))
    else if userId !in s.users then (s, Err(UserNotFound))
    else WritePassword(s, userId, c.hashPassword(temporary, salt), true, f)
  }

  function ApplySetDisabled(s: State, userId: int, disabled: bool, f: Faults): Outcome {
    if !f.writeOk then (s, Err(Internal))
    else if userId !in s.users then (s, Err(UserNotFound))
    else (s.(users := s.users[userId := s.users[userId].(disabled := disabled)]), Ok(0))
  }

  /** `EnsureAdmin`: promotes the account with this address, or creates it with a temporary password. */
  ghost function ApplyBootstrap(
    c: Crypto, s: State, email: string, temporary: string, salt: string, f: Faults): Outcome
  {
    if !f.readOk then (s, Err(Internal))
    else
      match FindByEmail(c, s.users, email)
      case Some(id) =>
        if s.users[id].admin then (s, Ok(id))
        else if !f.writeOk then (s, Err(Internal))
        else (s.(users := s.users[id := s.users[id].(admin := true)]), Ok(id))
      case None =>
        match c.hashPassword(temporary, salt)
        case None => (s, Err(Internal))
        case Some(hash) =>
          if !f.writeOk then (s, Err(Internal))
          else
            var id := s.nextUser;
            (s.(users := s.users[id := User(email, hash, true, false, true)], nextUser := id + 1), Ok(id))
  }

  ghost function Perform(c: Crypto, s: State, e: Event): Outcome {
    match e.call
    case Register(email, password, salt, raw) => ApplyRegister(c, s, email, password, salt, raw, e.now, e.faults)
    case Login(email, password, raw) => ApplyLogin(c, s, email, password, raw, e.now, e.faults)
    case Refresh(presented, raw) => ApplyRefresh(c, s, presented, raw, e.now, e.faults)
    case Logout(presented) => ApplyLogout(c, s, presented, e.faults)
    case ChangePassword(userId, oldPassword, newPassword, salt) =>
      ApplyChangePassword(c, s, userId, oldPassword, newPassword, salt, e.faults)
    case ResetPassword(userId, temporary, salt) => ApplyResetPassword(c, s, userId, temporary, salt, e.faults)
    case SetDisabled(userId, disabled) => ApplySetDisabled(s, userId, disabled, e.faults)
    case Bootstrap(email, temporary, salt) => ApplyBootstrap(c, s, email, temporary, salt, e.faults)
  }

  ghost function Next(c: Crypto, s: State, e: Event): State {
    Perform(c, s, e).0.(calls := s.calls + 1)
  }

  ghost predicate Succeeds(c: Crypto, s: State, e: Event) {
    Perform(c, s, e).1.Ok?
  }

  /** The state after a sequence of calls on an empty database. */
  ghost function After(c: Crypto, events: seq<Event>): State {
    if events == [] then EMPTY
    else Next(c, After(c, events[..|events| - 1]), events[|events| - 1])
  }

  /** A password change or an administrative reset for this user. */
  predicate IsRekeyOf(e: Event, userId: int) {
    (e.call.ChangePassword? || e.call.ResetPassword?) && e.call.userId == userId
  }

  /** The hash a password change or reset computes. */
  function NewHash(c: Crypto, e: Event): Option<string>
    requires e.call.ChangePassword? || e.call.ResetPassword?
  {
    if e.call.ChangePassword? then c.hashPassword(e.call.newPassword, e.call.salt)
    else c.hashPassword(e.call.temporary, e.call.salt)
  }

  // ---- the invariant ----

  predicate HashApart(tokens: map<int, Token>, a: int, b: int) {
    a in tokens && b in tokens && tokens[a].hash == tokens[b].hash ==> a == b
  }

  predicate EmailApart(c: Crypto, users: map<int, User>, a: int, b: int) {
    a in users && b in users && SameEmail(c, users[a].email, users[b].email) ==> a == b
  }

  ghost predicate HashesUnique(tokens: map<int, Token>) {
    forall a, b {:trigger HashApart(tokens, a, b)} :: HashApart(tokens, a, b)
  }

  ghost predicate EmailsUnique(c: Crypto, users: map<int, User>) {
    forall a, b {:trigger EmailApart(c, users, a, b)} :: EmailApart(c, users, a, b)
  }

  /** The row a digest finds is the only one with it. */
  lemma FoundIsOnly(tokens: map<int, Token>, hash: string, id: int)
    requires HashesUnique(tokens) && id in tokens && tokens[id].hash == hash
    ensures FindByHash(tokens, hash) == Some(id)
  {
    assert HashApart(tokens, FindByHash(tokens, hash).value, id);
  }

  lemma FoundEmailIsOnly(c: Crypto, users: map<int, User>, email: string, id: int)
    requires EmailsUnique(c, users) && id in users && SameEmail(c, users[id].email, email)
    ensures FindByEmail(c, users, email) == Some(id)
  {
    assert EmailApart(c, users, FindByEmail(c, users, email).value, id);
  }

  /** Changing anything but addresses keeps them unique. */
  lemma EmailsStayUnique(c: Crypto, users: map<int, User>, after: map<int, User>)
    requires EmailsUnique(c, users) && after.Keys == users.Keys
    requires forall id :: id in after ==> after[id].email == users[id].email
    ensures EmailsUnique(c, after)
  {
    forall a, b
      ensures EmailApart(c, after, a, b)
    {
      assert EmailApart(c, users, a, b);
    }
  }

  /** Changing anything but digests keeps them unique. */
  lemma HashesStayUnique(tokens: map<int, Token>, after: map<int, Token>)
    requires HashesUnique(tokens) && after.Keys == tokens.Keys
    requires forall id :: id in after ==> after[id].hash == tokens[id].hash
    ensures HashesUnique(after)
  {
    forall a, b
      ensures HashApart(after, a, b)
    {
      assert HashApart(tokens, a, b);
    }
  }

  ghost predicate Inv(c: Crypto, s: State) {
    && HashesUnique(s.tokens)
    && EmailsUnique(c, s.users)
    && (forall id :: id in s.users ==> id < s.nextUser)
    && (forall id :: id in s.tokens ==> id < s.nextToken && s.tokens[id].userId in s.users)
    && s.roots.Keys == s.tokens.Keys
    && (forall id :: id in s.roots ==> s.roots[id] < s.calls)
  }

  lemma IssueKeepsInv(c: Crypto, s: State, userId: int, raw: string, root: nat, now: int, ok: bool)
    requires Inv(c, s) && userId in s.users && root <= s.calls
    ensures Inv(c, Issue(c, s, userId, raw, root, now, ok).0.(calls := s.calls + 1))
  {
    var t := Issue(c, s, userId, raw, root, now, ok).0;
    forall a, b
      ensures HashApart(t.tokens, a, b)
    {
      assert HashApart(s.tokens, a, b);
      assert t != s && a in s.tokens ==> s.tokens[a].hash != c.digest(raw);
      assert t != s && b in s.tokens ==> s.tokens[b].hash != c.digest(raw);
    }
  }

  lemma RevokingKeepsInv(c: Crypto, s: State, tokens: map<int, Token>)
    requires Inv(c, s) && tokens.Keys == s.tokens.Keys
    requires forall id :: id in tokens ==> tokens[id].(revoked := s.tokens[id].revoked) == s.tokens[id]
    ensures Inv(c, s.(tokens := tokens)) && Inv(c, s.(tokens := tokens, calls := s.calls + 1))
  {
    assert forall id :: id in tokens ==> tokens[id].userId == s.tokens[id].userId;
    HashesStayUnique(s.tokens, tokens);
  }

  lemma WritePasswordKeepsInv(c: Crypto, s: State, userId: int, hash: Option<string>, mustChange: bool, f: Faults)
    requires Inv(c, s) && userId in s.users
    ensures Inv(c, WritePassword(s, userId, hash, mustChange, f).0.(calls := s.calls + 1))
  {
    if hash.Some? && f.writeOk {
      var user := s.users[userId].(passwordHash := hash.value, mustChangePassword := mustChange);
      var t := s.(users := s.users[userId := user]);
      EmailsStayUnique(c, s.users, t.users);
      RevokingKeepsInv(c, t, AllRevoked(t.tokens, userId));
    }
  }

  lemma NewUserKeepsInv(c: Crypto, s: State, user: User)
    requires Inv(c, s) && !HasEmail(c, s.users, user.email)
    ensures Inv(c, s.(users := s.users[s.nextUser := user], nextUser := s.nextUser + 1))
  {
    var users := s.users[s.nextUser := user];
    forall a, b
      ensures EmailApart(c, users, a, b)
    {
      assert EmailApart(c, s.users, a, b);
      assert a in s.users ==> !SameEmail(c, s.users[a].email, user.email);
      assert b in s.users ==> !SameEmail(c, s.users[b].email, user.email);
    }
  }

  /** A new account and its first token. */
  lemma NewAccountKeepsInv(c: Crypto, s: State, user: User, raw: string, now: int, ok: bool)
    requires Inv(c, s) && !HasEmail(c, s.users, user.email)
    ensures var t := s.(users := s.users[s.nextUser := user], nextUser := s.nextUser + 1);
            Inv(c, Issue(c, t, s.nextUser, raw, s.calls, now, ok).0.(calls := s.calls + 1))
  {
    NewUserKeepsInv(c, s, user);
    var t := s.(users := s.users[s.nextUser := user], nextUser := s.nextUser + 1);
    IssueKeepsInv(c, t, s.nextUser, raw, s.calls, now, ok);
  }

  lemma RegisterKeepsInv(c: Crypto, s: State, e: Event)
    requires Inv(c, s) && e.call.Register?
    ensures Inv(c, Next(c, s, e))
  {
    var Register(email, password, salt, raw) := e.call;
    var hash := c.hashPassword(password, salt);
    if e.faults.readOk && !HasEmail(c, s.users, email) && hash.Some? && e.faults.writeOk {
      NewAccountKeepsInv(c, s, User(email, hash.value, false, false, false), raw, e.now, e.faults.issueOk);
    }
  }

  lemma LoginKeepsInv(c: Crypto, s: State, e: Event)
    requires Inv(c, s) && e.call.Login?
    ensures Inv(c, Next(c, s, e))
  {
    var found := FindByEmail(c, s.users, e.call.email);
    if found.Some? {
      IssueKeepsInv(c, s, found.value, e.call.raw, s.calls, e.now, e.faults.issueOk);
    }
  }

  lemma RefreshKeepsInv(c: Crypto, s: State, e: Event)
    requires Inv(c, s) && e.call.Refresh?
    ensures Inv(c, Next(c, s, e))
  {
    var found := FindByHash(s.tokens, c.digest(e.call.presented));
    if found.Some? {
      RevokingKeepsInv(c, s, Revoked(s.tokens, found.value));
      IssueKeepsInv(c, s.(tokens := Revoked(s.tokens, found.value)), s.tokens[found.value].userId, e.call.raw,
                    s.roots[found.value], e.now, e.faults.issueOk);
    }
  }

  lemma LogoutKeepsInv(c: Crypto, s: State, e: Event)
    requires Inv(c, s) && e.call.Logout?
    ensures Inv(c, Next(c, s, e))
  {
    var found := FindByHash(s.tokens, c.digest(e.call.presented));
    if found.Some? {
      RevokingKeepsInv(c, s, Revoked(s.tokens, found.value));
    }
  }

  lemma BootstrapKeepsInv(c: Crypto, s: State, e: Event)
    requires Inv(c, s) && e.call.Bootstrap?
    ensures Inv(c, Next(c, s, e))
  {
    var found, hash := FindByEmail(c, s.users, e.call.email), c.hashPassword(e.call.temporary, e.call.salt);
    if found.Some? {
      EmailsStayUnique(c, s.users, Next(c, s, e).users);
    } else if hash.Some? {
      NewUserKeepsInv(c, s, User(e.call.email, hash.value, true, false, true));
    }
  }

  lemma RekeyKeepsInv(c: Crypto, s: State, e: Event)
    requires Inv(c, s) && (e.call.ChangePassword? || e.call.ResetPassword?)
    ensures Inv(c, Next(c, s, e))
  {
    if e.call.userId in s.users {
      WritePasswordKeepsInv(c, s, e.call.userId, NewHash(c, e), e.call.ResetPassword?, e.faults);
    }
  }

  lemma CallKeepsInv(c: Crypto, s: State, e: Event)
    requires Inv(c, s)
    ensures Inv(c, Next(c, s, e))
  {
    match e.call
    case Register(_, _, _, _) => RegisterKeepsInv(c, s, e);
    case Login(_, _, _) => LoginKeepsInv(c, s, e);
    case Refresh(_, _) => RefreshKeepsInv(c, s, e);
    case Logout(_) => LogoutKeepsInv(c, s, e);
    case ChangePassword(_, _, _, _) => RekeyKeepsInv(c, s, e);
    case ResetPassword(_, _, _) => RekeyKeepsInv(c, s, e);
    case Bootstrap(_, _, _) => BootstrapKeepsInv(c, s, e);
    case SetDisabled(_, _) => EmailsStayUnique(c, s.users, Next(c, s, e).users);
  }

  lemma {:induction false} RunKeepsInv(c: Crypto, events: seq<Event>)
    ensures Inv(c, After(c, events)) && After(c, events).calls == |events|
  {
    if events != [] {
      RunKeepsInv(c, events[..|events| - 1]);
      CallKeepsInv(c, After(c, events[..|events| - 1]), events[|events| - 1]);
    }
  }

  // ---- rotation ----

  /** The presented token is stored, live, not expired, and its user is not disabled; and the
      database answers up to the revocation. */
  ghost predicate Redeemable(c: Crypto, s: State, e: Event)
    requires e.call.Refresh? && Inv(c, s)
  {
    && e.faults.readOk && e.faults.revokeOk
    && exists id :: id in s.tokens && s.tokens[id].hash == c.digest(e.call.presented)
                    && Live(s.tokens[id]) && e.now <= s.tokens[id].expiresAt
                    && !s.users[s.tokens[id].userId].disabled
  }

  /** The redeemable token is the one the digest finds. */
  lemma RedeemableIsFound(c: Crypto, s: State, e: Event)
    requires Inv(c, s) && e.call.Refresh?
    ensures var found := FindByHash(s.tokens, c.digest(e.call.presented));
            Redeemable(c, s, e) <==>
              && e.faults.readOk && e.faults.revokeOk && found.Some?
              && Live(s.tokens[found.value]) && e.now <= s.tokens[found.value].expiresAt
              && !s.users[s.tokens[found.value].userId].disabled
  {
    forall id | id in s.tokens && s.tokens[id].hash == c.digest(e.call.presented)
      ensures FindByHash(s.tokens, c.digest(e.call.presented)) == Some(id)
    {
      FoundIsOnly(s.tokens, c.digest(e.call.presented), id);
    }
  }

  /** Exactly when a refresh succeeds: the token is redeemable and its successor can be stored. */
  lemma RefreshSucceedsIff(c: Crypto, s: State, e: Event)
    requires Inv(c, s) && e.call.Refresh?
    ensures Succeeds(c, s, e) <==>
              Redeemable(c, s, e) && e.faults.issueOk && !HasHash(s.tokens, c.digest(e.call.raw))
  {
    RedeemableIsFound(c, s, e);
    var found := FindByHash(s.tokens, c.digest(e.call.presented));
    if found.Some? {
      var revoked := Revoked(s.tokens, found.value);
      assert forall id :: id in s.tokens ==> id in revoked && revoked[id].hash == s.tokens[id].hash;
    }
  }

  /** Exactly when a sign-in succeeds. */
  lemma SignInSucceedsIff(c: Crypto, s: State, e: Event)
    requires Inv(c, s) && (e.call.Login? || e.call.Register?)
    ensures Succeeds(c, s, e) <==>
              && e.faults.readOk && e.faults.issueOk && !HasHash(s.tokens, c.digest(e.call.raw))
              && if e.call.Login? then
                   exists id :: id in s.users && SameEmail(c, s.users[id].email, e.call.email) && !s.users[id].disabled
                                && c.verify(s.users[id].passwordHash, e.call.password) == Match
                 else
                   && e.faults.writeOk && !HasEmail(c, s.users, e.call.email)
                   && c.hashPassword(e.call.password, e.call.salt).Some?
  {
    if e.call.Login? {
      forall id | id in s.users && SameEmail(c, s.users[id].email, e.call.email)
        ensures FindByEmail(c, s.users, e.call.email) == Some(id)
      {
        FoundEmailIsOnly(c, s.users, e.call.email, id);
      }
    }
  }

  /** A refresh that fails issues nothing, and costs at most the presented token: exactly when the
      revocation went through and the new token could not be stored. */
  lemma FailedRefresh(c: Crypto, s: State, e: Event)
    requires Inv(c, s) && e.call.Refresh? && !Succeeds(c, s, e)
    ensures var t, found := Next(c, s, e), FindByHash(s.tokens, c.digest(e.call.presented));
            && t.users == s.users && t.tokens.Keys == s.tokens.Keys
            && (t.tokens != s.tokens ==>
                  found.Some? && t.tokens == s.tokens[found.value := s.tokens[found.value].(revoked := true)])
            && (t.tokens != s.tokens <==> Redeemable(c, s, e))
  {
    RedeemableIsFound(c, s, e);
    RefreshSucceedsIff(c, s, e);
  }

  /** A successful refresh trades one live token of the user for one new live token in the same
      lineage, and leaves everybody else's tokens alone. */
  lemma RefreshRotates(c: Crypto, s: State, e: Event) returns (used: int)
    requires Inv(c, s) && e.call.Refresh? && Succeeds(c, s, e)
    ensures used in s.tokens && s.tokens[used].hash == c.digest(e.call.presented) && Live(s.tokens[used])
    ensures var t, user := Next(c, s, e), s.tokens[used].userId;
            && LiveTokens(t, user) == LiveTokens(s, user) - {used} + {s.nextToken}
            && |LiveTokens(t, user)| == |LiveTokens(s, user)|
            && (forall other :: other != user ==> LiveTokens(t, other) == LiveTokens(s, other))
            && t.tokens[s.nextToken] == Token(user, c.digest(e.call.raw), e.now + REFRESH_TTL, false)
            && t.roots[s.nextToken] == s.roots[used]
            && t.users == s.users
  {
    used := FindByHash(s.tokens, c.digest(e.call.presented)).value;
    var t, user := Next(c, s, e), s.tokens[used].userId;
    var successor := Token(user, c.digest(e.call.raw), e.now + REFRESH_TTL, false);
    assert t.tokens == Revoked(s.tokens, used)[s.nextToken := successor];
    assert s.nextToken !in s.tokens;
    forall other
      ensures LiveTokens(t, other)
              == if other == user then LiveTokens(s, other) - {used} + {s.nextToken} else LiveTokens(s, other)
    {
    }
    assert used in LiveTokens(s, user);
  }

  lemma TokenCallKeepsTokens(c: Crypto, s: State, e: Event, id: int)
    requires Inv(c, s) && id in s.tokens && (e.call.Refresh? || e.call.Logout?)
    ensures var t := Next(c, s, e);
            && id in t.tokens && t.tokens[id].(revoked := s.tokens[id].revoked) == s.tokens[id]
            && (s.tokens[id].revoked ==> t.tokens[id].revoked)
            && id in t.roots && t.roots[id] == s.roots[id]
  {
  }

  /** Rows stay, keep their user, digest and lineage, and a revoked row stays revoked. */
  lemma CallKeepsTokens(c: Crypto, s: State, e: Event, id: int)
    requires Inv(c, s) && id in s.tokens
    ensures var t := Next(c, s, e);
            && id in t.tokens && t.tokens[id].userId == s.tokens[id].userId && t.tokens[id].hash == s.tokens[id].hash
            && t.tokens[id].expiresAt == s.tokens[id].expiresAt
            && (s.tokens[id].revoked ==> t.tokens[id].revoked)
            && id in t.roots && t.roots[id] == s.roots[id]
  {
    if e.call.Refresh? || e.call.Logout? {
      TokenCallKeepsTokens(c, s, e, id);
    }
  }

  lemma {:induction false} RevocationPermanent(c: Crypto, events: seq<Event>, n: nat, id: int)
    requires n <= |events| && id in After(c, events[..n]).tokens
    ensures id in After(c, events).tokens
    ensures After(c, events).tokens[id].hash == After(c, events[..n]).tokens[id].hash
    ensures After(c, events).tokens[id].userId == After(c, events[..n]).tokens[id].userId
    ensures After(c, events[..n]).tokens[id].revoked ==> After(c, events).tokens[id].revoked
    decreases |events|
  {
    if n < |events| {
      var init := events[..|events| - 1];
      assert init[..n] == events[..n];
      RevocationPermanent(c, init, n, id);
      RunKeepsInv(c, init);
      CallKeepsTokens(c, After(c, init), events[|events| - 1], id);
    } else {
      assert events[..n] == events;
    }
  }

  /** The n-th call is a refresh that presents this token and succeeds. */
  ghost predicate Exchanges(c: Crypto, events: seq<Event>, n: nat, presented: string) {
    && n < |events|
    && events[n].call.Refresh? && events[n].call.presented == presented
    && Succeeds(c, After(c, events[..n]), events[n])
  }

  lemma ExchangeRevokes(c: Crypto, events: seq<Event>, n: nat, presented: string) returns (id: int)
    requires Exchanges(c, events, n, presented)
    ensures id in After(c, events[..n + 1]).tokens
    ensures After(c, events[..n + 1]).tokens[id].hash == c.digest(presented)
    ensures After(c, events[..n + 1]).tokens[id].revoked
  {
    var s := After(c, events[..n]);
    RunKeepsInv(c, events[..n]);
    assert events[..n + 1][..n] == events[..n];
    id := RefreshRotates(c, s, events[n]);
    var t := Next(c, s, events[n]);
    CallKeepsTokens(c, s, events[n], id);
    assert id !in LiveTokens(t, s.tokens[id].userId);
  }

  lemma RefreshNeedsLive(c: Crypto, s: State, e: Event, id: int)
    requires Inv(c, s) && id in s.tokens && s.tokens[id].revoked
    ensures e.call.Refresh? && c.digest(e.call.presented) == s.tokens[id].hash ==> !Succeeds(c, s, e)
  {
    if e.call.Refresh? && c.digest(e.call.presented) == s.tokens[id].hash {
      FoundIsOnly(s.tokens, s.tokens[id].hash, id);
    }
  }

  /** Over every sequence of calls a token is exchanged successfully at most once. */
  lemma SingleUse(c: Crypto, events: seq<Event>, m: nat, n: nat, presented: string)
    requires m < n && Exchanges(c, events, m, presented)
    ensures !Exchanges(c, events, n, presented)
  {
    if n < |events| {
      var id := ExchangeRevokes(c, events, m, presented);
      var before := events[..n];
      assert before[..m + 1] == events[..m + 1];
      RevocationPermanent(c, before, m + 1, id);
      RunKeepsInv(c, before);
      RefreshNeedsLive(c, After(c, before), events[n], id);
    }
  }

  // ---- what a sign-in and a logout do ----

  /** A successful sign-in issues exactly one token: live for seven days, stored by its digest. */
  lemma SignInIssues(c: Crypto, s: State, e: Event)
    requires Inv(c, s) && (e.call.Login? || e.call.Register?) && Succeeds(c, s, e)
    ensures var t, user := Next(c, s, e), Perform(c, s, e).1.value;
            && s.nextToken !in s.tokens && user in t.users
            && t.tokens == s.tokens[s.nextToken := Token(user, c.digest(e.call.raw), e.now + 604800, false)]
            && (e.call.Login? ==> t.users == s.users)
  {
  }

  /** When a logout succeeds; one that fails changes nothing. */
  lemma LogoutSucceedsIff(c: Crypto, s: State, e: Event)
    requires e.call.Logout?
    ensures Succeeds(c, s, e) <==>
              e.faults.readOk && (HasHash(s.tokens, c.digest(e.call.presented)) ==> e.faults.revokeOk)
    ensures var t := Next(c, s, e);
            t.users == s.users && (!Succeeds(c, s, e) ==> t.tokens == s.tokens)
  {
  }

  /** Why a refresh is refused. */
  lemma RefreshRefused(c: Crypto, s: State, e: Event)
    requires Inv(c, s) && e.call.Refresh? && e.faults.readOk
    ensures var hash, answer := c.digest(e.call.presented), Perform(c, s, e).1;
            && (answer == Err(RefreshInvalid) <==> forall id :: id in s.tokens ==> s.tokens[id].hash != hash)
            && (answer == Err(RefreshRevoked) <==>
                  exists id :: id in s.tokens && s.tokens[id].hash == hash && s.tokens[id].revoked)
            && (answer == Err(RefreshExpired) <==>
                  exists id :: id in s.tokens && s.tokens[id].hash == hash && !s.tokens[id].revoked
                               && e.now > s.tokens[id].expiresAt)
            && (answer == Err(UserDisabled) <==>
                  exists id :: id in s.tokens && s.tokens[id].hash == hash && !s.tokens[id].revoked
                               && e.now <= s.tokens[id].expiresAt && s.users[s.tokens[id].userId].disabled)
  {
    forall id | id in s.tokens && s.tokens[id].hash == c.digest(e.call.presented)
      ensures FindByHash(s.tokens, c.digest(e.call.presented)) == Some(id)
    {
      FoundIsOnly(s.tokens, c.digest(e.call.presented), id);
    }
  }

  /** Why a login or a registration is refused. */
  lemma SignInRefused(c: Crypto, s: State, e: Event)
    requires Inv(c, s) && (e.call.Login? || e.call.Register?) && e.faults.readOk
    ensures var answer := Perform(c, s, e).1;
            && (answer == Err(EmailTaken) <==> e.call.Register? && HasEmail(c, s.users, e.call.email))
            && (answer == Err(UserDisabled) <==>
                  e.call.Login? && exists id :: id in s.users && SameEmail(c, s.users[id].email, e.call.email)
                                                && s.users[id].disabled)
            && (answer == Err(InvalidCredentials) <==>
                  e.call.Login?
                  && forall id :: id in s.users && SameEmail(c, s.users[id].email, e.call.email) ==>
                       !s.users[id].disabled && c.verify(s.users[id].passwordHash, e.call.password) == Mismatch)
  {
    forall id | id in s.users && SameEmail(c, s.users[id].email, e.call.email)
      ensures FindByEmail(c, s.users, e.call.email) == Some(id)
    {
      FoundEmailIsOnly(c, s.users, e.call.email, id);
    }
  }

  /** Why a password change or reset is refused before it writes anything. */
  lemma RekeyRefused(c: Crypto, s: State, e: Event)
    requires (e.call.ChangePassword? || e.call.ResetPassword?) && e.faults.readOk
    ensures var id, answer := e.call.userId, Perform(c, s, e).1;
            && (answer == Err(UserNotFound) <==> id !in s.users)
            && (answer == Err(InvalidCredentials) <==>
                  e.call.ChangePassword? && id in s.users
                  && c.verify(s.users[id].passwordHash, e.call.oldPassword) == Mismatch)
  {
  }

  // ---- lineages ----

  /** The n-th call is a login or registration of this user that succeeds. */
  ghost predicate SignsIn(c: Crypto, events: seq<Event>, n: nat, userId: int) {
    && n < |events|
    && (events[n].call.Login? || events[n].call.Register?)
    && Perform(c, After(c, events[..n]), events[n]).1 == Ok(userId)
  }

  /** Where a token of the next state comes from: the same row, the live row a refresh consumed,
      or a sign-in that begins a lineage. */
  lemma TokenSource(c: Crypto, s: State, e: Event, id: int) returns (source: Option<int>)
    requires Inv(c, s) && id in Next(c, s, e).tokens
    ensures var t := Next(c, s, e);
            && id in t.roots
            && (source.Some? ==>
                  && source.value in s.tokens && s.tokens[source.value].userId == t.tokens[id].userId
                  && s.roots[source.value] == t.roots[id]
                  && (Live(t.tokens[id]) ==> Live(s.tokens[source.value])))
            && (source.None? ==>
                  && (e.call.Login? || e.call.Register?)
                  && Perform(c, s, e).1 == Ok(t.tokens[id].userId) && t.roots[id] == s.calls)
  {
    var t := Next(c, s, e);
    if id in s.tokens {
      CallKeepsTokens(c, s, e, id);
      source := Some(id);
    } else if e.call.Refresh? {
      source := FindByHash(s.tokens, c.digest(e.call.presented));
      assert id == s.nextToken;
    } else {
      source := None;
    }
  }

  /** Every token descends from a successful login or registration of its own user. */
  lemma {:induction false} LineageBeginsAtSignIn(c: Crypto, events: seq<Event>, id: int)
    requires id in After(c, events).tokens
    ensures id in After(c, events).roots
    ensures SignsIn(c, events, After(c, events).roots[id], After(c, events).tokens[id].userId)
    decreases |events|
  {
    var last := |events| - 1;
    var init, e := events[..last], events[last];
    var s := After(c, init);
    RunKeepsInv(c, init);
    RunKeepsInv(c, events);
    var source := TokenSource(c, s, e, id);
    if source.Some? {
      LineageBeginsAtSignIn(c, init, source.value);
      var root := s.roots[source.value];
      assert init[..root] == events[..root];
    }
  }

  /** The n-th call is a password change or an administrative reset for this user that succeeds. */
  ghost predicate Rekeys(c: Crypto, events: seq<Event>, n: nat, userId: int) {
    && n < |events|
    && (events[n].call.ChangePassword? || events[n].call.ResetPassword?)
    && Perform(c, After(c, events[..n]), events[n]).1 == Ok(userId)
  }

  lemma RekeyRevokesAll(c: Crypto, s: State, e: Event, userId: int)
    requires Inv(c, s) && (e.call.ChangePassword? || e.call.ResetPassword?) && Perform(c, s, e).1 == Ok(userId)
    ensures LiveTokens(Next(c, s, e), userId) == {}
    ensures forall other :: other != userId ==> LiveTokens(Next(c, s, e), other) == LiveTokens(s, other)
  {
    assert e.call.userId == userId;
    var t := Next(c, s, e);
    assert t.tokens == AllRevoked(s.tokens, userId);
    forall other
      ensures LiveTokens(t, other) == if other == userId then {} else LiveTokens(s, other)
    {
      forall id
        ensures id in LiveTokens(t, other) <==> other != userId && id in LiveTokens(s, other)
      {
        assert id in s.tokens ==>
            t.tokens[id] == if s.tokens[id].userId == userId then s.tokens[id].(revoked := true) else s.tokens[id];
      }
    }
  }

  /** A logout that succeeds leaves no live token with the presented digest and touches no other. */
  lemma LogoutRevokes(c: Crypto, s: State, e: Event, id: int)
    requires Inv(c, s) && e.call.Logout? && Succeeds(c, s, e) && id in s.tokens
    ensures var t := Next(c, s, e);
            && id in t.tokens
            && t.tokens[id] == if s.tokens[id].hash == c.digest(e.call.presented) then s.tokens[id].(revoked := true)
                               else s.tokens[id]
  {
    var found := FindByHash(s.tokens, c.digest(e.call.presented));
    assert found.Some? ==> HashApart(s.tokens, id, found.value);
  }

  /** Right after a successful change no token of the user is live. */
  lemma NoneLeftAlive(c: Crypto, s: State, e: Event, userId: int, id: int)
    requires Inv(c, s) && (e.call.ChangePassword? || e.call.ResetPassword?) && Perform(c, s, e).1 == Ok(userId)
    ensures id in Next(c, s, e).tokens && Next(c, s, e).tokens[id].userId == userId ==>
              !Live(Next(c, s, e).tokens[id])
  {
    RekeyRevokesAll(c, s, e, userId);
    assert id !in LiveTokens(Next(c, s, e), userId);
  }

  /** After a password change only lineages that began later have live tokens. */
  lemma {:induction false} LiveLineagesAreLater(c: Crypto, events: seq<Event>, n: nat, userId: int, id: int)
    requires Rekeys(c, events, n, userId)
    requires id in After(c, events).tokens && After(c, events).tokens[id].userId == userId
    requires Live(After(c, events).tokens[id])
    ensures id in After(c, events).roots && n < After(c, events).roots[id]
    decreases |events|
  {
    var last := |events| - 1;
    var init, e := events[..last], events[last];
    RunKeepsInv(c, init);
    if n == last {
      NoneLeftAlive(c, After(c, init), e, userId, id);
    } else {
      assert init[..n] == events[..n];
      var source := TokenSource(c, After(c, init), e, id);
      if source.Some? {
        LiveLineagesAreLater(c, init, n, userId, source.value);
      }
    }
  }

  /** The account is there, and its hash is the one this call computed. */
  predicate HashFrom(c: Crypto, s: State, userId: int, writer: Event) {
    && IsRekeyOf(writer, userId)
    && userId in s.users && NewHash(c, writer) == Some(s.users[userId].passwordHash)
  }

  lemma TokenCallKeepsUsers(c: Crypto, s: State, e: Event)
    requires e.call.Refresh? || e.call.Login? || e.call.Logout?
    ensures Next(c, s, e).users == s.users
  {
  }

  /** What a call other than a password change or reset leaves of an account that exists. */
  lemma OthersKeepHash(c: Crypto, s: State, e: Event, userId: int)
    requires Inv(c, s) && userId in s.users && !IsRekeyOf(e, userId)
    ensures userId in Next(c, s, e).users && Next(c, s, e).users[userId].passwordHash == s.users[userId].passwordHash
  {
    if e.call.Refresh? || e.call.Login? || e.call.Logout? {
      TokenCallKeepsUsers(c, s, e);
    }
  }

  /** The call gets as far as writing this user's hash, whatever becomes of the revocation. */
  predicate WritesHash(c: Crypto, s: State, e: Event, userId: int) {
    && IsRekeyOf(e, userId)
    && e.faults.readOk && e.faults.writeOk
    && userId in s.users && NewHash(c, e).Some?
    && (e.call.ChangePassword? ==> c.verify(s.users[userId].passwordHash, e.call.oldPassword) == Match)
  }

  /** What a password change or reset does to the accounts. If it gets that far, the hash is the new
      one and the flag says who chose it; otherwise nothing changes. Nobody else's account is touched. */
  lemma RekeyWritesHash(c: Crypto, s: State, e: Event, userId: int)
    requires IsRekeyOf(e, userId)
    ensures var t := Next(c, s, e);
            && t.users.Keys == s.users.Keys
            && (forall other :: other in s.users && other != userId ==> t.users[other] == s.users[other])
            && (WritesHash(c, s, e, userId) ==>
                  && HashFrom(c, t, userId, e) && t.users[userId].mustChangePassword == e.call.ResetPassword?
                  && t.users[userId].email == s.users[userId].email && t.users[userId].admin == s.users[userId].admin
                  && t.users[userId].disabled == s.users[userId].disabled)
            && (!WritesHash(c, s, e, userId) ==> t.users == s.users)
            && (Succeeds(c, s, e) <==> WritesHash(c, s, e, userId) && e.faults.revokeOk)
            && (!Succeeds(c, s, e) ==> t.tokens == s.tokens)
  {
  }

  /** The hash of an account changes only when a change or reset of its own writes it. */
  lemma OnlyWritesChangeHash(c: Crypto, s: State, e: Event, userId: int, writer: Event)
    requires Inv(c, s) && HashFrom(c, s, userId, writer) && !WritesHash(c, s, e, userId)
    ensures HashFrom(c, Next(c, s, e), userId, writer)
  {
    if IsRekeyOf(e, userId) {
      RekeyWritesHash(c, s, e, userId);
    } else {
      OthersKeepHash(c, s, e, userId);
    }
  }

  /** The k-th call writes this user's hash. */
  ghost predicate WritesAt(c: Crypto, events: seq<Event>, userId: int, k: nat)
    requires k < |events|
  {
    WritesHash(c, After(c, events[..k]), events[k], userId)
  }

  /** The j-th call wrote this user's hash, no later call did, and the hash is still stored. */
  ghost predicate LastWriter(c: Crypto, events: seq<Event>, userId: int, j: nat) {
    && j < |events|
    && WritesAt(c, events, userId, j)
    && HashFrom(c, After(c, events[..j + 1]), userId, events[j])
    && (forall k {:trigger WritesAt(c, events, userId, k)} :: j < k < |events| ==> !WritesAt(c, events, userId, k))
    && HashFrom(c, After(c, events), userId, events[j])
  }

  /** The first calls of a longer sequence write what they write in the shorter one. */
  lemma WritesInPrefix(c: Crypto, events: seq<Event>, userId: int, n: nat, k: nat)
    requires k < n <= |events|
    ensures WritesAt(c, events[..n], userId, k) == WritesAt(c, events, userId, k)
    ensures After(c, events[..n][..k + 1]) == After(c, events[..k + 1])
  {
    assert events[..n][..k] == events[..k] && events[..n][..k + 1] == events[..k + 1];
  }

  /** A call that writes the hash becomes the last writer. */
  lemma WriterIsLast(c: Crypto, events: seq<Event>, userId: int)
    requires events != [] && WritesAt(c, events, userId, |events| - 1)
    ensures LastWriter(c, events, userId, |events| - 1)
  {
    var last := |events| - 1;
    assert events[..last + 1] == events;
    RekeyWritesHash(c, After(c, events[..last]), events[last], userId);
  }

  lemma StoredStays(c: Crypto, events: seq<Event>, userId: int, writer: Event)
    requires events != [] && HashFrom(c, After(c, events[..|events| - 1]), userId, writer)
    requires !WritesAt(c, events, userId, |events| - 1)
    ensures HashFrom(c, After(c, events), userId, writer)
  {
    RunKeepsInv(c, events[..|events| - 1]);
    OnlyWritesChangeHash(c, After(c, events[..|events| - 1]), events[|events| - 1], userId, writer);
  }

  lemma EarlierWritesSame(c: Crypto, events: seq<Event>, userId: int, j: nat)
    requires events != [] && LastWriter(c, events[..|events| - 1], userId, j)
    ensures WritesAt(c, events, userId, j) && HashFrom(c, After(c, events[..j + 1]), userId, events[j])
    ensures forall k {:trigger WritesAt(c, events, userId, k)} ::
              j < k < |events| - 1 ==> !WritesAt(c, events, userId, k)
  {
    var last := |events| - 1;
    forall k | 0 <= k < last
      ensures WritesAt(c, events[..last], userId, k) == WritesAt(c, events, userId, k)
    {
      WritesInPrefix(c, events, userId, last, k);
    }
    WritesInPrefix(c, events, userId, last, j);
  }

  /** A call that does not write the hash leaves the last writer what it was. */
  lemma LastWriterStays(c: Crypto, events: seq<Event>, userId: int, j: nat)
    requires events != [] && LastWriter(c, events[..|events| - 1], userId, j)
    requires !WritesAt(c, events, userId, |events| - 1)
    ensures LastWriter(c, events, userId, j)
  {
    EarlierWritesSame(c, events, userId, j);
    StoredStays(c, events, userId, events[j]);
  }

  /** A change or reset that succeeds has written the hash. */
  lemma RekeysWrites(c: Crypto, events: seq<Event>, n: nat, userId: int)
    requires Rekeys(c, events, n, userId)
    ensures WritesAt(c, events, userId, n)
  {
    assert IsRekeyOf(events[n], userId);
    RekeyWritesHash(c, After(c, events[..n]), events[n], userId);
  }

  /** After a successful change the stored hash is the one last written for that user: by that
      change, or by a later change or reset, which may itself have failed to revoke tokens. */
  lemma {:induction false} HashSince(c: Crypto, events: seq<Event>, n: nat, userId: int) returns (j: nat)
    requires Rekeys(c, events, n, userId)
    ensures n <= j && LastWriter(c, events, userId, j)
    decreases |events|
  {
    var last := |events| - 1;
    if n == last {
      RekeysWrites(c, events, n, userId);
    } else {
      assert events[..last][..n] == events[..n];
      j := HashSince(c, events[..last], n, userId);
    }
    if WritesAt(c, events, userId, last) {
      WriterIsLast(c, events, userId);
      j := last;
    } else {
      LastWriterStays(c, events, userId, j);
    }
  }

  /** A sign-in of an account that exists already is a login, checked against the stored hash. */
  lemma KnownUserLogsIn(c: Crypto, s: State, e: Event, userId: int)
    requires Inv(c, s) && userId in s.users
    requires (e.call.Login? || e.call.Register?) && Perform(c, s, e).1 == Ok(userId)
    ensures e.call.Login? && c.verify(s.users[userId].passwordHash, e.call.password) == Match
  {
  }

  /** The row a successful refresh finds. */
  lemma ExchangedRow(c: Crypto, events: seq<Event>, m: nat, userId: int, presented: string) returns (used: int)
    requires Exchanges(c, events, m, presented) && Perform(c, After(c, events[..m]), events[m]).1 == Ok(userId)
    ensures var s := After(c, events[..m]);
            && Inv(c, s) && used in s.tokens && used in s.roots
            && s.tokens[used].hash == c.digest(presented) && s.tokens[used].userId == userId && Live(s.tokens[used])
  {
    RunKeepsInv(c, events[..m]);
    used := FindByHash(After(c, events[..m]).tokens, c.digest(presented)).value;
  }

  /** A live token's lineage began between the last change before it and now. */
  lemma RootBetween(c: Crypto, events: seq<Event>, n: nat, m: nat, userId: int, used: int) returns (signIn: nat)
    requires n < m <= |events| && Rekeys(c, events, n, userId)
    requires used in After(c, events[..m]).tokens && After(c, events[..m]).tokens[used].userId == userId
    requires Live(After(c, events[..m]).tokens[used])
    ensures used in After(c, events[..m]).roots && After(c, events[..m]).roots[used] == signIn
    ensures n < signIn < m && SignsIn(c, events, signIn, userId)
  {
    var before := events[..m];
    assert before[..n] == events[..n];
    LiveLineagesAreLater(c, before, n, userId, used);
    LineageBeginsAtSignIn(c, before, used);
    signIn := After(c, before).roots[used];
    assert before[..signIn] == events[..signIn];
  }

  lemma RefreshRootIsLater(c: Crypto, events: seq<Event>, n: nat, m: nat, userId: int, presented: string)
    returns (used: int, signIn: nat)
    requires n < m && Rekeys(c, events, n, userId) && Exchanges(c, events, m, presented)
    requires Perform(c, After(c, events[..m]), events[m]).1 == Ok(userId)
    ensures var s := After(c, events[..m]);
            && used in s.tokens && s.tokens[used].hash == c.digest(presented) && s.tokens[used].userId == userId
            && used in s.roots && s.roots[used] == signIn
    ensures n < signIn < m && SignsIn(c, events, signIn, userId)
  {
    used := ExchangedRow(c, events, m, userId, presented);
    signIn := RootBetween(c, events, n, m, userId, used);
  }

  /** Any refresh of a user's token that succeeds after a successful password change or reset uses
      a token whose lineage began with a login after that change. That login was verified against the
      hash stored at the time, and that hash was written by the change or by a later one. */
  lemma RefreshAfterRekey(c: Crypto, events: seq<Event>, n: nat, m: nat, userId: int, presented: string)
    returns (used: int, login: nat, written: nat)
    requires n < m && Rekeys(c, events, n, userId) && Exchanges(c, events, m, presented)
    requires Perform(c, After(c, events[..m]), events[m]).1 == Ok(userId)
    ensures var s := After(c, events[..m]);
            && used in s.tokens && s.tokens[used].hash == c.digest(presented) && s.tokens[used].userId == userId
            && used in s.roots && s.roots[used] == login
    ensures n <= written < login < m
    ensures events[login].call.Login? && Perform(c, After(c, events[..login]), events[login]).1 == Ok(userId)
    ensures WritesAt(c, events, userId, written)
    ensures HashFrom(c, After(c, events[..written + 1]), userId, events[written])
    ensures HashFrom(c, After(c, events[..login]), userId, events[written])
    ensures c.verify(After(c, events[..login]).users[userId].passwordHash, events[login].call.password) == Match
  {
    used, login := RefreshRootIsLater(c, events, n, m, userId, presented);
    var before := events[..login];
    RunKeepsInv(c, before);
    assert before[..n] == events[..n];
    written := HashSince(c, before, n, userId);
    WritesInPrefix(c, events, userId, login, written);
    KnownUserLogsIn(c, After(c, before), events[login], userId);
  }

  // ---- accounts ----

  /** A registration stores exactly one new account, with the hash of the password, if and only if
      the database answers, the address is free and the hash is computed; also if no token is issued. */
  lemma RegisterStores(c: Crypto, s: State, e: Event)
    requires Inv(c, s) && e.call.Register?
    ensures var t, id, hash := Next(c, s, e), s.nextUser, c.hashPassword(e.call.password, e.call.salt);
            if e.faults.readOk && e.faults.writeOk && !HasEmail(c, s.users, e.call.email) && hash.Some? then
              && id !in s.users && t.users.Keys == s.users.Keys + {id}
              && (forall other :: other in s.users ==> t.users[other] == s.users[other])
              && t.users[id].email == e.call.email && Some(t.users[id].passwordHash) == hash
              && !t.users[id].admin && !t.users[id].disabled && !t.users[id].mustChangePassword
            else t.users == s.users
  {
  }

  /** The boot either makes the account with the configured address an administrator, or creates one
      with the hash of the temporary password, which must be changed. */
  lemma BootstrapEffect(c: Crypto, s: State, e: Event)
    requires Inv(c, s) && e.call.Bootstrap?
    ensures var t, hash := Next(c, s, e), c.hashPassword(e.call.temporary, e.call.salt);
            && t.tokens == s.tokens && (!Succeeds(c, s, e) ==> t.users == s.users)
            && (Succeeds(c, s, e) ==>
                  var id := Perform(c, s, e).1.value;
                  && id in t.users && SameEmail(c, t.users[id].email, e.call.email) && t.users[id].admin
                  && (forall other :: other in s.users && other != id ==>
                        other in t.users && t.users[other] == s.users[other])
                  && (HasEmail(c, s.users, e.call.email) ==>
                        id in s.users && t.users.Keys == s.users.Keys
                        && t.users[id].(admin := s.users[id].admin) == s.users[id])
                  && (!HasEmail(c, s.users, e.call.email) ==>
                        && id !in s.users && t.users.Keys == s.users.Keys + {id}
                        && t.users[id].email == e.call.email && Some(t.users[id].passwordHash) == hash
                        && !t.users[id].disabled && t.users[id].mustChangePassword))
  {
    if HasEmail(c, s.users, e.call.email) {
      var id := FindByEmail(c, s.users, e.call.email).value;
    }
  }

  /** Disabling or enabling an account sets that flag and nothing else. */
  lemma SetDisabledEffect(c: Crypto, s: State, e: Event)
    requires e.call.SetDisabled?
    ensures var t, id := Next(c, s, e), e.call.userId;
            && t.tokens == s.tokens
            && (Succeeds(c, s, e) <==> e.faults.writeOk && id in s.users)
            && t.users.Keys == s.users.Keys
            && (forall other :: other in s.users && other != id ==> t.users[other] == s.users[other])
            && (id in s.users && Succeeds(c, s, e) ==>
                  t.users[id].disabled == e.call.disabled
                  && t.users[id].(disabled := s.users[id].disabled) == s.users[id])
            && (!Succeeds(c, s, e) ==> t.users == s.users)
  {
  }

  /** The call would disable this account. */
  predicate Disables(e: Event, userId: int) {
    e.call.SetDisabled? && e.call.userId == userId && e.call.disabled
  }

  /** An account keeps its address; its hash and its being enabled end only with a call for that. */
  lemma AccountKept(c: Crypto, s: State, e: Event, id: int)
    requires Inv(c, s) && id in s.users
    ensures var t := Next(c, s, e);
            && id in t.users && t.users[id].email == s.users[id].email
            && (!WritesHash(c, s, e, id) ==> t.users[id].passwordHash == s.users[id].passwordHash)
            && (!Disables(e, id) && !s.users[id].disabled ==> !t.users[id].disabled)
            && (s.users[id].admin ==> t.users[id].admin)
  {
    if IsRekeyOf(e, id) {
      RekeyWritesHash(c, s, e, id);
    } else if e.call.Bootstrap? {
      BootstrapEffect(c, s, e);
    } else if e.call.SetDisabled? {
      SetDisabledEffect(c, s, e);
    } else if e.call.Register? {
      RegisterStores(c, s, e);
    } else if e.call.Refresh? || e.call.Login? || e.call.Logout? {
      TokenCallKeepsUsers(c, s, e);
    } else {
      RekeyWritesHash(c, s, e, e.call.userId);
    }
  }

  /** No call from the n-th on rewrites this user's hash or disables the account. */
  ghost predicate LeftAlone(c: Crypto, events: seq<Event>, n: nat, userId: int) {
    forall k {:trigger WritesAt(c, events, userId, k)} :: n <= k < |events| ==>
      !WritesAt(c, events, userId, k) && !Disables(events[k], userId)
  }

  lemma LeftAloneBefore(c: Crypto, events: seq<Event>, n: nat, userId: int)
    requires events != [] && LeftAlone(c, events, n, userId)
    ensures LeftAlone(c, events[..|events| - 1], n, userId)
  {
    var last := |events| - 1;
    forall k | n <= k < last
      ensures !WritesAt(c, events[..last], userId, k) && !Disables(events[..last][k], userId)
    {
      WritesInPrefix(c, events, userId, last, k);
      assert !WritesAt(c, events, userId, k);
    }
  }

  /** An enabled account with this address and this hash. */
  predicate AccountIs(s: State, id: int, email: string, hash: string) {
    id in s.users && !s.users[id].disabled && s.users[id].email == email && s.users[id].passwordHash == hash
  }

  lemma AccountLastsOne(c: Crypto, events: seq<Event>, id: int, email: string, hash: string)
    requires events != [] && AccountIs(After(c, events[..|events| - 1]), id, email, hash)
    requires !WritesAt(c, events, id, |events| - 1) && !Disables(events[|events| - 1], id)
    ensures AccountIs(After(c, events), id, email, hash)
  {
    RunKeepsInv(c, events[..|events| - 1]);
    AccountKept(c, After(c, events[..|events| - 1]), events[|events| - 1], id);
  }

  lemma {:induction false} AccountLasts(c: Crypto, events: seq<Event>, n: nat, id: int, email: string, hash: string)
    requires n <= |events| && AccountIs(After(c, events[..n]), id, email, hash) && LeftAlone(c, events, n, id)
    ensures AccountIs(After(c, events), id, email, hash)
    decreases |events|
  {
    if n == |events| {
      assert events[..n] == events;
    } else {
      var last := |events| - 1;
      assert events[..last][..n] == events[..n];
      LeftAloneBefore(c, events, n, id);
      AccountLasts(c, events[..last], n, id, email, hash);
      assert !WritesAt(c, events, id, last);
      AccountLastsOne(c, events, id, email, hash);
    }
  }

  /** The login is for this account with a password its stored hash accepts, nothing fails, and the
      new token's digest is not taken. */
  ghost predicate ProperLogin(c: Crypto, s: State, e: Event, email: string, hash: string) {
    && e.call.Login? && e.faults.readOk && e.faults.issueOk && !HasHash(s.tokens, c.digest(e.call.raw))
    && SameEmail(c, email, e.call.email) && c.verify(hash, e.call.password) == Match
  }

  /** A password accepted once is accepted until the hash is rewritten or the account disabled. */
  lemma StoredPasswordLogsIn(c: Crypto, events: seq<Event>, n: nat, id: int, e: Event)
    requires n <= |events| && id in After(c, events[..n]).users && !After(c, events[..n]).users[id].disabled
    requires LeftAlone(c, events, n, id)
    requires var user := After(c, events[..n]).users[id];
             ProperLogin(c, After(c, events), e, user.email, user.passwordHash)
    ensures Perform(c, After(c, events), e).1 == Ok(id)
  {
    var user := After(c, events[..n]).users[id];
    AccountLasts(c, events, n, id, user.email, user.passwordHash);
    RunKeepsInv(c, events);
    FoundEmailIsOnly(c, After(c, events).users, e.call.email, id);
  }

  /** Who registered can log in with that password, under that address in any case, until the hash
      is rewritten or the account disabled. */
  lemma RegisteredLogsIn(c: Crypto, events: seq<Event>, n: nat, e: Event)
    requires n < |events| && events[n].call.Register? && events[n].faults.readOk && events[n].faults.writeOk
    requires !HasEmail(c, After(c, events[..n]).users, events[n].call.email)
    requires c.hashPassword(events[n].call.password, events[n].call.salt).Some?
    requires LeftAlone(c, events, n + 1, After(c, events[..n]).nextUser)
    requires ProperLogin(c, After(c, events), e, events[n].call.email,
                         c.hashPassword(events[n].call.password, events[n].call.salt).value)
    ensures Perform(c, After(c, events), e).1 == Ok(After(c, events[..n]).nextUser)
  {
    assert events[..n + 1][..n] == events[..n];
    RunKeepsInv(c, events[..n]);
    RegisterStores(c, After(c, events[..n]), events[n]);
    StoredPasswordLogsIn(c, events, n + 1, After(c, events[..n]).nextUser, e);
  }

  /** The same for the administrator the boot created. */
  lemma BootstrappedLogsIn(c: Crypto, events: seq<Event>, n: nat, id: int, e: Event)
    requires n < |events| && events[n].call.Bootstrap?
    requires !HasEmail(c, After(c, events[..n]).users, events[n].call.email)
    requires Perform(c, After(c, events[..n]), events[n]).1 == Ok(id)
    requires c.hashPassword(events[n].call.temporary, events[n].call.salt).Some?
    requires LeftAlone(c, events, n + 1, id)
    requires ProperLogin(c, After(c, events), e, events[n].call.email,
                         c.hashPassword(events[n].call.temporary, events[n].call.salt).value)
    ensures Perform(c, After(c, events), e).1 == Ok(id)
  {
    assert events[..n + 1][..n] == events[..n];
    RunKeepsInv(c, events[..n]);
    BootstrapEffect(c, After(c, events[..n]), events[n]);
    StoredPasswordLogsIn(c, events, n + 1, id, e);
  }

  // ---- the service object ----

  class Service {
    const crypto: Crypto
    var users: map<int, User>
    var tokens: map<int, Token>
    var nextUser: int
    var nextToken: int
    ghost var roots: map<int, nat>
    ghost var calls: nat

    ghost function View(): State
      reads this
    {
      State(users, tokens, nextUser, nextToken, roots, calls)
    }

    ghost predicate Valid()
      reads this
    {
      Inv(crypto, View())
    }

    constructor (crypto: Crypto)
      ensures Valid() && View() == EMPTY && this.crypto == crypto
    {
      this.crypto := crypto;
      users, tokens, nextUser, nextToken := map[], map[], 1, 1;
      roots, calls := map[], 0;
    }

    /** The token row with this digest, whether live or not. */
    method LookUp(hash: string) returns (id: Option<int>)
      requires HashesUnique(tokens)
      ensures id == FindByHash(tokens, hash)
    {
      if !exists id :: id in tokens && tokens[id].hash == hash {
        return None;
      }
      var row :| row in tokens && tokens[row].hash == hash;
      FoundIsOnly(tokens, hash, row);
      return Some(row);
    }

    /** The account with this address, whatever the case it is written in. */
    method LookUpEmail(email: string) returns (id: Option<int>)
      requires EmailsUnique(crypto, users)
      ensures id == FindByEmail(crypto, users, email)
    {
      if !exists id :: id in users && SameEmail(crypto, users[id].email, email) {
        return None;
      }
      var row :| row in users && SameEmail(crypto, users[row].email, email);
      FoundEmailIsOnly(crypto, users, email, row);
      return Some(row);
    }

    /** Signs an access token, draws a refresh token and stores its digest. */
    method IssueTokens(userId: int, raw: string, ghost root: nat, now: int, ok: bool)
      returns (r: Result<int, AuthError>)
      modifies this`tokens, this`nextToken, this`roots
      ensures (View(), r) == Issue(crypto, old(View()), userId, raw, root, now, ok)
    {
      var hash := crypto.digest(raw);
      if !ok || exists id :: id in tokens && tokens[id].hash == hash {
        return Err(Internal);
      }
      tokens := tokens[nextToken := Token(userId, hash, now + REFRESH_TTL, false)];
      roots := roots[nextToken := root];
      nextToken := nextToken + 1;
      return Ok(userId);
    }

    method Register(email: string, password: string, salt: string, raw: string, now: int, f: Faults)
      returns (r: Result<int, AuthError>)
      requires Valid()
      modifies this
      ensures Valid()
      ensures View() == Next(crypto, old(View()), Event(Call.Register(email, password, salt, raw), now, f))
      ensures r == Perform(crypto, old(View()), Event(Call.Register(email, password, salt, raw), now, f)).1
      ensures var hash := crypto.hashPassword(password, salt);
              if f.readOk && f.writeOk && !HasEmail(crypto, old(users), email) && hash.Some? then
                && old(nextUser) !in old(users)
                && users == old(users)[old(nextUser) := User(email, hash.value, false, false, false)]
              else users == old(users)
    {
      CallKeepsInv(crypto, View(), Event(Call.Register(email, password, salt, raw), now, f));
      ghost var root := calls;
      calls := calls + 1;
      if !f.readOk {
        return Err(Internal);
      }
      var taken := LookUpEmail(email);
      if taken.Some? {
        return Err(EmailTaken);
      }
      var hash := crypto.hashPassword(password, salt);
      if hash.None? || !f.writeOk {
        return Err(Internal);
      }
      var id := nextUser;
      users := users[id := User(email, hash.value, false, false, false)];
      nextUser := nextUser + 1;
      r := IssueTokens(id, raw, root, now, f.issueOk);
    }

    method Login(email: string, password: string, raw: string, now: int, f: Faults)
      returns (r: Result<int, AuthError>)
      requires Valid()
      modifies this
      ensures Valid()
      ensures View() == Next(crypto, old(View()), Event(Call.Login(email, password, raw), now, f))
      ensures r == Perform(crypto, old(View()), Event(Call.Login(email, password, raw), now, f)).1
    {
      CallKeepsInv(crypto, View(), Event(Call.Login(email, password, raw), now, f));
      ghost var root := calls;
      calls := calls + 1;
      if !f.readOk {
        return Err(Internal);
      }
      var found := LookUpEmail(email);
      if found.None? {
        return Err(InvalidCredentials);
      }
      var id := found.value;
      if users[id].disabled {
        return Err(UserDisabled);
      }
      match crypto.verify(users[id].passwordHash, password) {
        case Mismatch => return Err(InvalidCredentials);
        case Malformed => return Err(Internal);
        case Match =>
      }
      r := IssueTokens(id, raw, root, now, f.issueOk);
    }

    /** Checks a stored token, revokes it and issues its successor. */
    method RedeemStored(id: int, raw: string, now: int, f: Faults) returns (r: Result<int, AuthError>)
      requires id in tokens && id in roots
      modifies this`tokens, this`nextToken, this`roots
      ensures (View(), r) == Redeem(crypto, old(View()), id, raw, now, f)
    {
      var row := tokens[id];
      if row.revoked {
        return Err(RefreshRevoked);
      }
      if now > row.expiresAt {
        return Err(RefreshExpired);
      }
      if row.userId !in users {
        return Err(UserNotFound);
      }
      if users[row.userId].disabled {
        return Err(UserDisabled);
      }
      if !f.revokeOk {
        return Err(Internal);
      }
      tokens := tokens[id := row.(revoked := true)];
      r := IssueTokens(row.userId, raw, roots[id], now, f.issueOk);
    }

    /** Looks a token up and redeems it. */
    method Refresh(presented: string, raw: string, now: int, f: Faults) returns (r: Result<int, AuthError>)
      requires Valid()
      modifies this
      ensures Valid()
      ensures View() == Next(crypto, old(View()), Event(Call.Refresh(presented, raw), now, f))
      ensures r == Perform(crypto, old(View()), Event(Call.Refresh(presented, raw), now, f)).1
    {
      CallKeepsInv(crypto, View(), Event(Call.Refresh(presented, raw), now, f));
      calls := calls + 1;
      if !f.readOk {
        return Err(Internal);
      }
      var found := LookUp(crypto.digest(presented));
      if found.None? {
        return Err(RefreshInvalid);
      }
      r := RedeemStored(found.value, raw, now, f);
    }

    /** Revokes a token; an unknown token is a success. */
    method Logout(presented: string, now: int, f: Faults) returns (r: Result<int, AuthError>)
      requires Valid()
      modifies this
      ensures Valid()
      ensures View() == Next(crypto, old(View()), Event(Call.Logout(presented), now, f))
      ensures r == Perform(crypto, old(View()), Event(Call.Logout(presented), now, f)).1
    {
      CallKeepsInv(crypto, View(), Event(Call.Logout(presented), now, f));
      calls := calls + 1;
      if !f.readOk {
        return Err(Internal);
      }
      var found := LookUp(crypto.digest(presented));
      if found.None? {
        return Ok(0);
      }
      if !f.revokeOk {
        return Err(Internal);
      }
      tokens := tokens[found.value := tokens[found.value].(revoked := true)];
      return Ok(0);
    }

    /** The write and the revocation that a password change and a reset share. */
    method StorePassword(userId: int, hash: Option<string>, mustChange: bool, f: Faults)
      returns (r: Result<int, AuthError>)
      requires userId in users
      modifies this`users, this`tokens
      ensures (View(), r) == WritePassword(old(View()), userId, hash, mustChange, f)
    {
      if hash.None? || !f.writeOk {
        return Err(Internal);
      }
      users := users[userId := users[userId].(passwordHash := hash.value, mustChangePassword := mustChange)];
      if !f.revokeOk {
        return Err(Internal);
      }
      tokens := map id | id in tokens ::
        if tokens[id].userId == userId then tokens[id].(revoked := true) else tokens[id];
      return Ok(userId);
    }

    method ChangePassword(userId: int, oldPassword: string, newPassword: string, salt: string, now: int, f: Faults)
      returns (r: Result<int, AuthError>)
      requires Valid()
      modifies this
      ensures Valid()
      ensures var call := Call.ChangePassword(userId, oldPassword, newPassword, salt);
              && View() == Next(crypto, old(View()), Event(call, now, f))
              && r == Perform(crypto, old(View()), Event(call, now, f)).1
    {
      CallKeepsInv(crypto, View(), Event(Call.ChangePassword(userId, oldPassword, newPassword, salt), now, f));
      calls := calls + 1;
      if !f.readOk {
        return Err(Internal);
      }
      if userId !in users {
        return Err(UserNotFound);
      }
      match crypto.verify(users[userId].passwordHash, oldPassword) {
        case Mismatch => return Err(InvalidCredentials);
        case Malformed => return Err(Internal);
        case Match =>
      }
      r := StorePassword(userId, crypto.hashPassword(newPassword, salt), false, f);
    }

    method ResetPasswordByAdmin(userId: int, temporary: string, salt: string, now: int, f: Faults)
      returns (r: Result<int, AuthError>)
      requires Valid()
      modifies this
      ensures Valid()
      ensures View() == Next(crypto, old(View()), Event(Call.ResetPassword(userId, temporary, salt), now, f))
      ensures r == Perform(crypto, old(View()), Event(Call.ResetPassword(userId, temporary, salt), now, f)).1
    {
      CallKeepsInv(crypto, View(), Event(Call.ResetPassword(userId, temporary, salt), now, f));
      calls := calls + 1;
      if !f.readOk {
        return Err(Internal);
      }
      if userId !in users {
        return Err(UserNotFound);
      }
      r := StorePassword(userId, crypto.hashPassword(temporary, salt), true, f);
    }

    /** At boot, on the same tables: the configured address becomes an administrator's. */
    method EnsureAdmin(email: string, temporary: string, salt: string, now: int, f: Faults)
      returns (r: Result<int, AuthError>)
      requires Valid()
      modifies this
      ensures Valid()
      ensures View() == Next(crypto, old(View()), Event(Call.Bootstrap(email, temporary, salt), now, f))
      ensures r == Perform(crypto, old(View()), Event(Call.Bootstrap(email, temporary, salt), now, f)).1
    {
      CallKeepsInv(crypto, View(), Event(Call.Bootstrap(email, temporary, salt), now, f));
      calls := calls + 1;
      if !f.readOk {
        return Err(Internal);
      }
      var found := LookUpEmail(email);
      if found.Some? {
        var id := found.value;
        if !users[id].admin {
          if !f.writeOk {
            return Err(Internal);
          }
          users := users[id := users[id].(admin := true)];
        }
        return Ok(id);
      }
      var hash := crypto.hashPassword(temporary, salt);
      if hash.None? || !f.writeOk {
        return Err(Internal);
      }
      users := users[nextUser := User(email, hash.value, true, false, true)];
      nextUser := nextUser + 1;
      return Ok(nextUser - 1);
    }
  }
}
