/**
  Users and their login sessions. Each operation is a function on the service's state, and the service, which
  changes its dictionaries in place, is proved to compute that function.
*/
module Sessions {
  import opened Common

  datatype Role = Owner | Member

  /** Password hashing is ideal: the record keeps the password itself, only ever compared. */
  datatype User = User(
    id: int, email: string, name: string, password: string, role: Role, createdAt: Instant,
    lastLoginAt: Option<Instant>, disabledAt: Option<Instant>)

  /** A well-formed session token. Where a caller may pass any text, `None` is text of another form. */
  datatype Token = Token(prefix: string, secret: string)

  /** The digest is ideal: the record keeps the token it was issued for. */
  datatype Session = Session(userId: int, token: Token, expiresAt: Instant, revokedAt: Option<Instant>)

  datatype Directory = Directory(nextUserId: int, users: map<int, User>, sessions: map<string, Session>)

  datatype Error = DuplicateEmail | InvalidCredentials | SessionNotFound | BadToken | BadStatus

  const NOBODY := Directory(1, map[], map[])

  /** Thirty days. */
  const SESSION_LIFE: real := 2592000.0

  // ----- The operations --------------------------------------------------------------------------------------------

  function FirstMailed(d: Directory, email: string, from: int): Option<User>
    decreases d.nextUserId - from
  {
    if from >= d.nextUserId then None
    else if from in d.users && d.users[from].email == email then Some(d.users[from])
    else FirstMailed(d, email, from + 1)
  }

  function WithUser(d: Directory, u: User): Directory {
    d.(users := d.users[u.id := u])
  }

  function WithSession(d: Directory, userId: int, token: Token, now: Instant): Directory {
    d.(sessions := d.sessions[token.prefix := Session(userId, token, now + SESSION_LIFE, None)])
  }

  function Registered(d: Directory, email: string, password: string, name: string, token: Token, now: Instant)
    : (Directory, Result<User, Error>)
  {
    if FirstMailed(d, email, 1).Some? then (d, Err(DuplicateEmail))
    else
      var role := if d.users == map[] then Owner else Member;
      var u := User(d.nextUserId, email, name, password, role, now, None, None);
      (WithSession(WithUser(d, u).(nextUserId := d.nextUserId + 1), u.id, token, now), Ok(u))
  }

  function LoggedIn(d: Directory, email: string, password: string, token: Token, now: Instant)
    : (Directory, Result<User, Error>)
  {
    var found := FirstMailed(d, email, 1);
    if found.None? || found.value.disabledAt.Some? || found.value.password != password then
      (d, Err(InvalidCredentials))
    else
      var u := found.value.(lastLoginAt := Some(now));
      (WithSession(WithUser(d, u), u.id, token, now), Ok(u))
  }

  function Authenticated(d: Directory, raw: Option<Token>, now: Instant): Result<User, Error> {
    if raw.None? then Err(BadToken)
    else if raw.value.prefix !in d.sessions then Err(SessionNotFound)
    else
      var s := d.sessions[raw.value.prefix];
      if s.revokedAt.Some? || s.expiresAt <= now || s.token != raw.value then Err(SessionNotFound)
      else if s.userId !in d.users || d.users[s.userId].disabledAt.Some? then Err(SessionNotFound)
      else Ok(d.users[s.userId])
  }

  /** Only the prefix of the token is looked at. */
  function Revoked(d: Directory, raw: Option<Token>, now: Instant): (Directory, Option<Error>) {
    if raw.None? then (d, Some(BadToken))
    else if raw.value.prefix !in d.sessions then (d, None)
    else
      var p := raw.value.prefix;
      (d.(sessions := d.sessions[p := d.sessions[p].(revokedAt := Some(now))]), None)
  }

  predicate IsCurrent(current: Option<Token>, prefix: string) {
    current.Some? && current.value.prefix == prefix
  }

  function Ended(s: Session, userId: int, isCurrent: bool, now: Instant): Session {
    if s.userId == userId && !isCurrent && s.revokedAt.None? then s.(revokedAt := Some(now)) else s
  }

  function OthersEnded(sessions: map<string, Session>, userId: int, current: Option<Token>, now: Instant)
    : map<string, Session>
  {
    map p | p in sessions :: Ended(sessions[p], userId, IsCurrent(current, p), now)
  }

  function PasswordSet(d: Directory, userId: int, password: string, current: Option<Token>, now: Instant): Directory
    requires userId in d.users
  {
    d.(users := d.users[userId := d.users[userId].(password := password)],
       sessions := OthersEnded(d.sessions, userId, current, now))
  }

  function PasswordChanged(
    d: Directory, userId: int, oldPassword: string, newPassword: string, current: Option<Token>, now: Instant)
    : (Directory, Option<Error>)
  {
    if userId !in d.users || d.users[userId].password != oldPassword then (d, Some(InvalidCredentials))
    else (PasswordSet(d, userId, newPassword, current, now), None)
  }

  function PasswordReset(d: Directory, userId: int, newPassword: string, now: Instant): (Directory, Option<Error>) {
    if userId !in d.users then (d, Some(SessionNotFound)) else (PasswordSet(d, userId, newPassword, None, now), None)
  }

  function StatusUpdated(d: Directory, userId: int, status: string, now: Instant): (Directory, Option<Error>) {
    if userId !in d.users then (d, Some(SessionNotFound))
    else if status == "disabled" then (WithStatus(d, userId, Some(now)), None)
    else if status == "active" then (WithStatus(d, userId, None), None)
    else (d, Some(BadStatus))
  }

  function WithStatus(d: Directory, userId: int, disabledAt: Option<Instant>): Directory
    requires userId in d.users
  {
    d.(users := d.users[userId := d.users[userId].(disabledAt := disabledAt)])
  }

  // ----- The service ----------------------------------------------------------------------------------------------

  class UserService {
    var users: map<int, User>
    var sessions: map<string, Session>
    var nextUserId: int

    function State(): Directory
      reads this
    {
      Directory(nextUserId, users, sessions)
    }

    constructor ()
      ensures State() == NOBODY
    {
      users, sessions, nextUserId := map[], map[], 1;
    }

    method FindMailed(email: string) returns (found: Option<User>)
      ensures found == FirstMailed(State(), email, 1)
    {
      var i := 1;
      while i < nextUserId
        invariant FirstMailed(State(), email, i) == FirstMailed(State(), email, 1)
      {
        if i in users && users[i].email == email {
          return Some(users[i]);
        }
        i := i + 1;
      }
      return None;
    }

    method CreateSession(userId: int, token: Token, now: Instant)
      modifies this
      ensures State() == WithSession(old(State()), userId, token, now)
    {
      sessions := sessions[token.prefix := Session(userId, token, now + SESSION_LIFE, None)];
    }

    method Register(email: string, password: string, name: string, token: Token, now: Instant)
      returns (r: Result<User, Error>)
      modifies this
      ensures (State(), r) == Registered(old(State()), email, password, name, token, now)
    {
      var found := FindMailed(email);
      if found.Some? {
        return Err(DuplicateEmail);
      }
      var role := if users == map[] then Owner else Member;
      var u := User(nextUserId, email, name, password, role, now, None, None);
      nextUserId := nextUserId + 1;
      users := users[u.id := u];
      CreateSession(u.id, token, now);
      return Ok(u);
    }

    method Login(email: string, password: string, token: Token, now: Instant) returns (r: Result<User, Error>)
      modifies this
      ensures (State(), r) == LoggedIn(old(State()), email, password, token, now)
    {
      var found := FindMailed(email);
      if found.None? {
        return Err(InvalidCredentials);
      }
      var u := found.value;
      if u.disabledAt.Some? || u.password != password {
        return Err(InvalidCredentials);
      }
      u := u.(lastLoginAt := Some(now));
      users := users[u.id := u];
      CreateSession(u.id, token, now);
      return Ok(u);
    }

    method AuthenticateSession(raw: Option<Token>, now: Instant) returns (r: Result<User, Error>)
      ensures r == Authenticated(State(), raw, now)
    {
      if raw.None? {
        return Err(BadToken);
      }
      if raw.value.prefix !in sessions {
        return Err(SessionNotFound);
      }
      var s := sessions[raw.value.prefix];
      if s.revokedAt.Some? || s.expiresAt <= now || s.token != raw.value {
        return Err(SessionNotFound);
      }
      if s.userId !in users || users[s.userId].disabledAt.Some? {
        return Err(SessionNotFound);
      }
      return Ok(users[s.userId]);
    }

    method RevokeSession(raw: Option<Token>, now: Instant) returns (e: Option<Error>)
      modifies this
      ensures (State(), e) == Revoked(old(State()), raw, now)
    {
      if raw.None? {
        return Some(BadToken);
      }
      var p := raw.value.prefix;
      if p in sessions {
        sessions := sessions[p := sessions[p].(revokedAt := Some(now))];
      }
      return None;
    }

    method RevokeOtherSessions(userId: int, current: Option<Token>, now: Instant)
      modifies this`sessions
      ensures sessions == OthersEnded(old(sessions), userId, current, now)
    {
      var todo := sessions.Keys;
      while todo != {}
        invariant todo <= sessions.Keys == old(sessions).Keys
        invariant forall p :: p in todo ==> sessions[p] == old(sessions)[p]
        invariant forall p :: p in sessions && p !in todo ==>
          sessions[p] == Ended(old(sessions)[p], userId, IsCurrent(current, p), now)
        decreases |todo|
      {
        var p :| p in todo;
        var s := sessions[p];
        if s.userId == userId && !IsCurrent(current, p) && s.revokedAt.None? {
          sessions := sessions[p := s.(revokedAt := Some(now))];
        }
        todo := todo - {p};
      }
    }

    method ChangePassword(userId: int, oldPassword: string, newPassword: string, current: Option<Token>, now: Instant)
      returns (e: Option<Error>)
      modifies this
      ensures (State(), e) == PasswordChanged(old(State()), userId, oldPassword, newPassword, current, now)
    {
      if userId !in users || users[userId].password != oldPassword {
        return Some(InvalidCredentials);
      }
      users := users[userId := users[userId].(password := newPassword)];
      RevokeOtherSessions(userId, current, now);
      return None;
    }

    method ResetPassword(userId: int, newPassword: string, now: Instant) returns (e: Option<Error>)
      modifies this
      ensures (State(), e) == PasswordReset(old(State()), userId, newPassword, now)
    {
      if userId !in users {
        return Some(SessionNotFound);
      }
      users := users[userId := users[userId].(password := newPassword)];
      RevokeOtherSessions(userId, None, now);
      return None;
    }

    method UpdateUserStatus(userId: int, status: string, now: Instant) returns (e: Option<Error>)
      modifies this
      ensures (State(), e) == StatusUpdated(old(State()), userId, status, now)
    {
      if userId !in users {
        return Some(SessionNotFound);
      }
      if status == "disabled" {
        users := users[userId := users[userId].(disabledAt := Some(now))];
      } else if status == "active" {
        users := users[userId := users[userId].(disabledAt := None)];
      } else {
        return Some(BadStatus);
      }
      return None;
    }
  }

  // ----- Runs -----------------------------------------------------------------------------------------------------

  datatype Op =
    | Register(email: string, password: string, name: string, token: Token, now: Instant)
    | Login(email: string, password: string, token: Token, now: Instant)
    | Revoke(raw: Option<Token>, now: Instant)
    | ChangePassword(userId: int, oldPassword: string, newPassword: string, current: Option<Token>, now: Instant)
    | ResetPassword(userId: int, newPassword: string, now: Instant)
    | UpdateStatus(userId: int, status: string, now: Instant)

  function Apply(d: Directory, op: Op): Directory {
    match op
    case Register(email, password, name, token, now) => Registered(d, email, password, name, token, now).0
    case Login(email, password, token, now) => LoggedIn(d, email, password, token, now).0
    case Revoke(raw, now) => Revoked(d, raw, now).0
    case ChangePassword(userId, oldPassword, newPassword, current, now) =>
      PasswordChanged(d, userId, oldPassword, newPassword, current, now).0
    case ResetPassword(userId, newPassword, now) => PasswordReset(d, userId, newPassword, now).0
    case UpdateStatus(userId, status, now) => StatusUpdated(d, userId, status, now).0
  }

  function Run(d: Directory, ops: seq<Op>): Directory
    decreases |ops|
  {
    if ops == [] then d else Run(Apply(d, ops[0]), ops[1..])
  }

  /** The random token of `op` is `token`. */
  predicate Draws(op: Op, token: Token) {
    (op.Register? || op.Login?) && op.token == token
  }

  predicate DrawsPrefix(op: Op, prefix: string) {
    (op.Register? || op.Login?) && op.token.prefix == prefix
  }

  // ----- Users -----------------------------------------------------------------------------------------------------

  ghost predicate Orderly(d: Directory) {
    && d.nextUserId >= 1
    && (forall i :: i in d.users <==> 1 <= i < d.nextUserId)
    && (forall i :: i in d.users ==> d.users[i].id == i && (d.users[i].role == Owner <==> i == 1))
    && (forall i, j :: i in d.users && j in d.users && i != j ==> d.users[i].email != d.users[j].email)
    && (forall p :: p in d.sessions ==> d.sessions[p].token.prefix == p && d.sessions[p].userId in d.users)
  }

  lemma {:induction false} MailedFinds(d: Directory, email: string, from: int)
    ensures var found := FirstMailed(d, email, from);
            && (found.Some? ==> exists i :: from <= i < d.nextUserId && i in d.users && d.users[i] == found.value
                                            && found.value.email == email)
            && (found.None? ==> forall i :: from <= i < d.nextUserId && i in d.users ==> d.users[i].email != email)
    decreases d.nextUserId - from
  {
    if from < d.nextUserId && !(from in d.users && d.users[from].email == email) {
      MailedFinds(d, email, from + 1);
    }
  }

  lemma NobodyYet(d: Directory)
    requires Orderly(d)
    ensures d.users == map[] <==> d.nextUserId == 1
  {
    if d.nextUserId == 1 {
      assert forall i :: i !in d.users;
      assert d.users == map[];
    } else {
      assert 1 in d.users;
    }
  }

  lemma RegisterKeepsOrderly(
    d: Directory, email: string, password: string, name: string, token: Token, now: Instant)
    requires Orderly(d)
    ensures Orderly(Registered(d, email, password, name, token, now).0)
    ensures d.users.Keys <= Registered(d, email, password, name, token, now).0.users.Keys
  {
    MailedFinds(d, email, 1);
    NobodyYet(d);
  }

  lemma LoginKeepsOrderly(d: Directory, email: string, password: string, token: Token, now: Instant)
    requires Orderly(d)
    ensures Orderly(LoggedIn(d, email, password, token, now).0)
    ensures d.users.Keys <= LoggedIn(d, email, password, token, now).0.users.Keys
  {
    MailedFinds(d, email, 1);
  }

  lemma PasswordSetKeepsOrderly(
    d: Directory, userId: int, password: string, current: Option<Token>, now: Instant)
    requires Orderly(d) && userId in d.users
    ensures Orderly(PasswordSet(d, userId, password, current, now))
    ensures d.users.Keys <= PasswordSet(d, userId, password, current, now).users.Keys
  {
  }

  lemma RevokeKeepsOrderly(d: Directory, raw: Option<Token>, now: Instant)
    requires Orderly(d)
    ensures Orderly(Revoked(d, raw, now).0)
  {
  }

  lemma {:induction false} StepKeepsOrderly(d: Directory, op: Op)
    requires Orderly(d)
    ensures Orderly(Apply(d, op)) && d.users.Keys <= Apply(d, op).users.Keys
  {
    hide FirstMailed, Registered, LoggedIn, PasswordSet;
    match op {
      case Register(email, password, name, token, now) => RegisterKeepsOrderly(d, email, password, name, token, now);
      case Login(email, password, token, now) => LoginKeepsOrderly(d, email, password, token, now);
      case Revoke(raw, now) => RevokeKeepsOrderly(d, raw, now);
      case ChangePassword(userId, oldPassword, newPassword, current, now) =>
        if userId in d.users {
          PasswordSetKeepsOrderly(d, userId, newPassword, current, now);
        }
      case ResetPassword(userId, newPassword, now) =>
        if userId in d.users {
          PasswordSetKeepsOrderly(d, userId, newPassword, None, now);
        }
      case UpdateStatus(_, _, _) =>
    }
  }

  lemma {:induction false} RunKeepsOrderly(d: Directory, ops: seq<Op>)
    requires Orderly(d)
    ensures Orderly(Run(d, ops)) && d.users.Keys <= Run(d, ops).users.Keys
    decreases |ops|
  {
    hide Orderly, Apply;
    if ops == [] {
    } else {
      StepKeepsOrderly(d, ops[0]);
      RunKeepsOrderly(Apply(d, ops[0]), ops[1..]);
    }
  }

  /** However the users come and go, once there is one there is exactly one owner; and no two share an e-mail. */
  lemma {:induction false} ExactlyOneOwner(ops: seq<Op>)
    ensures var users := Run(NOBODY, ops).users;
            && (users != map[] ==> 1 in users && users[1].role == Owner)
            && (forall i :: i in users && users[i].role == Owner ==> i == 1)
            && (forall i, j :: i in users && j in users && users[i].email == users[j].email ==> i == j)
  {
    RunKeepsOrderly(NOBODY, ops);
    NobodyYet(Run(NOBODY, ops));
  }

  // ----- Sessions --------------------------------------------------------------------------------------------------

  /** What `op`, done in `d`, does to the session at `prefix`: does it end it? */
  predicate Ends(d: Directory, op: Op, userId: int, prefix: string) {
    match op
    case Revoke(raw, _) => IsCurrent(raw, prefix)
    case ChangePassword(u, oldPassword, _, current, _) =>
      u == userId && u in d.users && d.users[u].password == oldPassword && !IsCurrent(current, prefix)
    case ResetPassword(u, _, _) => u == userId && u in d.users
    case _ => false
  }

  predicate EndedIn(d: Directory, ops: seq<Op>, userId: int, prefix: string)
    decreases |ops|
  {
    ops != [] && (Ends(d, ops[0], userId, prefix) || EndedIn(Apply(d, ops[0]), ops[1..], userId, prefix))
  }

  lemma {:induction false} SessionStep(d: Directory, op: Op, prefix: string)
    requires prefix in d.sessions && !DrawsPrefix(op, prefix)
    ensures var s := d.sessions[prefix];
            && prefix in Apply(d, op).sessions
            && var s' := Apply(d, op).sessions[prefix];
            && s'.(revokedAt := None) == s.(revokedAt := None)
            && (s'.revokedAt.None? <==> s.revokedAt.None? && !Ends(d, op, s.userId, prefix))
  {
    match op {
      case Register(_, _, _, _, _) =>
      case Login(_, _, _, _) =>
      case _ =>
    }
  }

  lemma {:induction false} SessionRun(d: Directory, ops: seq<Op>, prefix: string)
    requires prefix in d.sessions && forall i :: 0 <= i < |ops| ==> !DrawsPrefix(ops[i], prefix)
    ensures var s := d.sessions[prefix];
            && prefix in Run(d, ops).sessions
            && var s' := Run(d, ops).sessions[prefix];
            && s'.(revokedAt := None) == s.(revokedAt := None)
            && (s'.revokedAt.None? <==> s.revokedAt.None? && !EndedIn(d, ops, s.userId, prefix))
    decreases |ops|
  {
    hide Apply, Ends, DrawsPrefix;
    if ops == [] {
    } else {
      SessionStep(d, ops[0], prefix);
      SessionRun(Apply(d, ops[0]), ops[1..], prefix);
    }
  }

  /** Operation `issue` logs user `userId` in. */
  predicate Issues(d: Directory, issue: Op, userId: int) {
    match issue
    case Register(email, password, name, token, now) =>
      Registered(d, email, password, name, token, now).1.Ok? && userId == d.nextUserId
    case Login(email, password, token, now) =>
      var r := LoggedIn(d, email, password, token, now).1;
      r.Ok? && userId == r.value.id
    case _ => false
  }

  lemma SessionIsIssued(d: Directory, issue: Op, userId: int)
    requires Orderly(d) && Issues(d, issue, userId)
    ensures var d' := Apply(d, issue);
            && userId in d'.users && issue.token.prefix in d'.sessions
            && d'.sessions[issue.token.prefix] == Session(userId, issue.token, issue.now + SESSION_LIFE, None)
  {
  }

  /**
    The life of a session, over every run in which its prefix is not drawn again: the token authenticates, as the
    user who logged in, exactly until thirty days have passed, an operation has ended it, or while that user is
    disabled.
   */
  lemma {:induction false} SessionLife(before: seq<Op>, issue: Op, userId: int, after: seq<Op>, now: Instant)
    requires Issues(Run(NOBODY, before), issue, userId)
    requires forall i :: 0 <= i < |after| ==> !DrawsPrefix(after[i], issue.token.prefix)
    ensures var d := Apply(Run(NOBODY, before), issue);
            var last := Run(d, after);
            && userId in last.users
            && Authenticated(last, Some(issue.token), now)
               == if now < issue.now + 2592000.0 && !EndedIn(d, after, userId, issue.token.prefix)
                     && last.users[userId].disabledAt.None?
                  then Ok(last.users[userId]) else Err(SessionNotFound)
  {
    RunKeepsOrderly(NOBODY, before);
    StepKeepsOrderly(Run(NOBODY, before), issue);
    SessionIsIssued(Run(NOBODY, before), issue, userId);
    hide Apply, Issues, Orderly;
    var d := Apply(Run(NOBODY, before), issue);
    RunKeepsOrderly(d, after);
    SessionRun(d, after, issue.token.prefix);
  }

  ghost predicate Dead(d: Directory, token: Token) {
    token.prefix in d.sessions && d.sessions[token.prefix].token == token ==>
      d.sessions[token.prefix].revokedAt.Some?
  }

  lemma {:induction false} DeadStaysDead(d: Directory, ops: seq<Op>, token: Token)
    requires Dead(d, token) && forall i :: 0 <= i < |ops| ==> !Draws(ops[i], token)
    ensures Dead(Run(d, ops), token)
    decreases |ops|
  {
    if ops == [] {
    } else {
      assert Dead(Apply(d, ops[0]), token) by {
        if !DrawsPrefix(ops[0], token.prefix) && token.prefix in d.sessions {
          SessionStep(d, ops[0], token.prefix);
        }
      }
      hide Apply, Dead, Draws;
      DeadStaysDead(Apply(d, ops[0]), ops[1..], token);
    }
  }

  /** Revocation is permanent: as long as that very token is not drawn again, nothing makes it authenticate. */
  lemma {:induction false} RevocationIsPermanent(d: Directory, token: Token, at: Instant, ops: seq<Op>, now: Instant)
    requires forall i :: 0 <= i < |ops| ==> !Draws(ops[i], token)
    ensures Authenticated(Run(Revoked(d, Some(token), at).0, ops), Some(token), now).Err?
  {
    DeadStaysDead(Revoked(d, Some(token), at).0, ops, token);
  }

  /**
    A new password ends exactly the user's other sessions: any other token authenticates afterwards if and only if
    it did before, and as the same user.
   */
  lemma {:induction false} PasswordSetIsExact(
    d: Directory, userId: int, password: string, current: Option<Token>, at: Instant, token: Token, now: Instant)
    requires userId in d.users
    ensures var earlier := Authenticated(d, Some(token), now);
            var later := Authenticated(PasswordSet(d, userId, password, current, at), Some(token), now);
            && (later.Ok? <==>
                  earlier.Ok? && (d.sessions[token.prefix].userId != userId || IsCurrent(current, token.prefix)))
            && (later.Ok? ==> later.value == if d.sessions[token.prefix].userId == userId
                                       then earlier.value.(password := password) else earlier.value)
  {
  }

  /** Disabling a user and enabling them again changes nothing if and only if they were enabled to begin with. */
  lemma {:induction false} EnablingUndoesDisabling(d: Directory, userId: int, at: Instant, later: Instant)
    requires userId in d.users
    ensures StatusUpdated(StatusUpdated(d, userId, "disabled", at).0, userId, "active", later).0 == d
            <==> d.users[userId].disabledAt.None?
  {
  }
}
