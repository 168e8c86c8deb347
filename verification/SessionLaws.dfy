/**
  What the operations on users and sessions mean for who can log in and which tokens work, told from the operations
  themselves, over every run of the service.
*/
module SessionLaws {
  import opened Common
  import opened Sessions

  lemma {:induction false} RunOfAppend(d: Directory, ops: seq<Op>, op: Op)
    ensures Run(d, ops + [op]) == Apply(Run(d, ops), op)
    decreases |ops|
  {
    hide Apply;
    if ops == [] {
      assert [] + [op] == [op] && [op][1..] == [];
    } else {
      assert (ops + [op])[1..] == ops[1..] + [op];
      RunOfAppend(Apply(d, ops[0]), ops[1..], op);
    }
  }

  // ----- Registering and logging in --------------------------------------------------------------------------------

  /** Registering is refused exactly for an e-mail that is taken; else it adds one user, and one session for them. */
  lemma {:induction false} RegisterAnswers(
    ops: seq<Op>, email: string, password: string, name: string, token: Token, now: Instant)
    ensures var d := Run(NOBODY, ops);
            var (d', r) := Registered(d, email, password, name, token, now);
            var taken := exists i :: i in d.users && d.users[i].email == email;
            && (r == Err(DuplicateEmail) <==> taken) && (r.Ok? <==> !taken)
            && (r.Err? ==> d' == d)
            && (r.Ok? ==>
                  && d.nextUserId !in d.users && r.value.id == d.nextUserId && d'.nextUserId == d.nextUserId + 1
                  && d'.users == d.users[r.value.id := r.value]
                  && r.value.email == email && r.value.password == password && r.value.name == name
                  && r.value.createdAt == now && r.value.disabledAt == None
                  && d'.sessions
                     == d.sessions[token.prefix := Session(r.value.id, token, now + 2592000.0, None)])
  {
    RunKeepsOrderly(NOBODY, ops);
    MailedFinds(Run(NOBODY, ops), email, 1);
    hide Run, FirstMailed;
  }

  /** A login succeeds exactly for an enabled user with that e-mail and that password, and opens one session. */
  lemma {:induction false} LoginAnswers(
    ops: seq<Op>, email: string, password: string, token: Token, now: Instant, i: int)
    ensures var d := Run(NOBODY, ops);
            var (d', r) := LoggedIn(d, email, password, token, now);
            var known := i in d.users && d.users[i].email == email;
            && (r.Err? ==> r == Err(InvalidCredentials) && d' == d)
            && ((forall j :: j in d.users ==> d.users[j].email != email) ==> r.Err?)
            && (known ==> (r.Ok? <==> d.users[i].disabledAt == None && d.users[i].password == password))
            && (known && r.Ok? ==>
                  && r.value == d.users[i].(lastLoginAt := Some(now))
                  && d' == d.(users := d.users[i := r.value],
                              sessions := d.sessions[token.prefix := Session(i, token, now + 2592000.0, None)]))
  {
    RunKeepsOrderly(NOBODY, ops);
    MailedFinds(Run(NOBODY, ops), email, 1);
    hide Run, FirstMailed;
  }

  // ----- Passwords -------------------------------------------------------------------------------------------------

  /** No operation of the run succeeds in setting the user's password. */
  ghost predicate NoneSets(d: Directory, ops: seq<Op>, userId: int)
    decreases |ops|
  {
    ops != [] ==>
      && (match ops[0]
          case ChangePassword(u, oldPassword, newPassword, current, now) =>
            u != userId || PasswordChanged(d, u, oldPassword, newPassword, current, now).1 != None
          case ResetPassword(u, newPassword, now) => u != userId || PasswordReset(d, u, newPassword, now).1 != None
          case _ => true)
      && NoneSets(Apply(d, ops[0]), ops[1..], userId)
  }

  lemma {:induction false} PasswordStays(d: Directory, ops: seq<Op>, userId: int)
    requires Orderly(d) && userId in d.users && NoneSets(d, ops, userId)
    ensures var users := Run(d, ops).users;
            && userId in users && users[userId].password == d.users[userId].password
            && users[userId].email == d.users[userId].email
    decreases |ops|
  {
    if ops == [] {
    } else {
      StepKeepsOrderly(d, ops[0]);
      UnsetStep(d, ops[0], userId);
      hide Apply, Orderly;
      PasswordStays(Apply(d, ops[0]), ops[1..], userId);
    }
  }

  lemma {:induction false} UnsetStep(d: Directory, op: Op, userId: int)
    requires Orderly(d) && userId in d.users && NoneSets(d, [op], userId)
    ensures var users := Apply(d, op).users;
            && userId in users && users[userId].password == d.users[userId].password
            && users[userId].email == d.users[userId].email
  {
    if op.Login? {
      MailedFinds(d, op.email, 1);
    }
  }

  lemma {:induction false} OnlyTheLastPasswordLogsIn(
    d: Directory, userId: int, after: seq<Op>, attempt: string, token: Token, now: Instant)
    requires Orderly(d) && userId in d.users && NoneSets(d, after, userId)
    ensures var last := Run(d, after);
            && userId in last.users && last.users[userId].email == d.users[userId].email
            && (LoggedIn(last, d.users[userId].email, attempt, token, now).1.Ok? <==>
                  attempt == d.users[userId].password && last.users[userId].disabledAt == None)
  {
    RunKeepsOrderly(d, after);
    PasswordStays(d, after, userId);
    MailedFinds(Run(d, after), d.users[userId].email, 1);
    hide Run, NoneSets, FirstMailed;
  }

  /** A new user logs in with the password registered, while enabled and until it is set again, and with no other. */
  lemma {:induction false} RegisteredPasswordLogsIn(
    before: seq<Op>, email: string, password: string, name: string, drawn: Token, at: Instant,
    after: seq<Op>, attempt: string, token: Token, now: Instant)
    requires Registered(Run(NOBODY, before), email, password, name, drawn, at).1.Ok?
    requires NoneSets(
               Registered(Run(NOBODY, before), email, password, name, drawn, at).0, after,
               Run(NOBODY, before).nextUserId)
    ensures var id := Run(NOBODY, before).nextUserId;
            var last := Run(Registered(Run(NOBODY, before), email, password, name, drawn, at).0, after);
            && id in last.users
            && (LoggedIn(last, email, attempt, token, now).1.Ok? <==>
                  attempt == password && last.users[id].disabledAt == None)
  {
    RunKeepsOrderly(NOBODY, before);
    RegisterKeepsOrderly(Run(NOBODY, before), email, password, name, drawn, at);
    var d := Registered(Run(NOBODY, before), email, password, name, drawn, at).0;
    OnlyTheLastPasswordLogsIn(d, Run(NOBODY, before).nextUserId, after, attempt, token, now);
    hide Run, NoneSets, LoggedIn, Orderly, FirstMailed;
  }

  /** After a successful change the user logs in with the new password, and with no other. */
  lemma {:induction false} ChangedPasswordLogsIn(
    before: seq<Op>, userId: int, oldPassword: string, newPassword: string, current: Option<Token>, at: Instant,
    after: seq<Op>, attempt: string, token: Token, now: Instant)
    requires PasswordChanged(Run(NOBODY, before), userId, oldPassword, newPassword, current, at).1 == None
    requires NoneSets(
               PasswordChanged(Run(NOBODY, before), userId, oldPassword, newPassword, current, at).0, after, userId)
    ensures var changed := PasswordChanged(Run(NOBODY, before), userId, oldPassword, newPassword, current, at).0;
            var last := Run(changed, after);
            && userId in Run(NOBODY, before).users && userId in last.users
            && (LoggedIn(last, Run(NOBODY, before).users[userId].email, attempt, token, now).1.Ok? <==>
                  attempt == newPassword && last.users[userId].disabledAt == None)
  {
    RunKeepsOrderly(NOBODY, before);
    PasswordSetKeepsOrderly(Run(NOBODY, before), userId, newPassword, current, at);
    var d := PasswordChanged(Run(NOBODY, before), userId, oldPassword, newPassword, current, at).0;
    OnlyTheLastPasswordLogsIn(d, userId, after, attempt, token, now);
    hide Run, NoneSets, LoggedIn, Orderly;
  }

  /** And so after a reset. */
  lemma {:induction false} ResetPasswordLogsIn(
    before: seq<Op>, userId: int, newPassword: string, at: Instant,
    after: seq<Op>, attempt: string, token: Token, now: Instant)
    requires PasswordReset(Run(NOBODY, before), userId, newPassword, at).1 == None
    requires NoneSets(PasswordReset(Run(NOBODY, before), userId, newPassword, at).0, after, userId)
    ensures var last := Run(PasswordReset(Run(NOBODY, before), userId, newPassword, at).0, after);
            && userId in Run(NOBODY, before).users && userId in last.users
            && (LoggedIn(last, Run(NOBODY, before).users[userId].email, attempt, token, now).1.Ok? <==>
                  attempt == newPassword && last.users[userId].disabledAt == None)
  {
    RunKeepsOrderly(NOBODY, before);
    PasswordSetKeepsOrderly(Run(NOBODY, before), userId, newPassword, None, at);
    var d := PasswordReset(Run(NOBODY, before), userId, newPassword, at).0;
    OnlyTheLastPasswordLogsIn(d, userId, after, attempt, token, now);
    hide Run, NoneSets, LoggedIn, Orderly;
  }

  /** After these sessions were ended, but for the current prefix, the user's open ones are stamped and no others. */
  ghost predicate EndsOpen(d: Directory, d': Directory, userId: int, spared: Option<string>, at: Instant) {
    && (forall p :: p in d'.sessions <==> p in d.sessions)
    && forall p :: p in d.sessions ==>
         d'.sessions[p] == if d.sessions[p].userId == userId && d.sessions[p].revokedAt == None && spared != Some(p)
                           then d.sessions[p].(revokedAt := Some(at)) else d.sessions[p]
  }

  /**
    A change of password is refused exactly for an unknown user or a wrong old password, and then changes nothing.
    Otherwise a token works afterwards, for the same user as before, if and only if it worked before and is another
    user's or has the prefix of the current session.
   */
  lemma {:induction false} ChangeAnswers(
    before: seq<Op>, userId: int, oldPassword: string, newPassword: string, current: Option<Token>, at: Instant,
    token: Token, now: Instant)
    ensures var d := Run(NOBODY, before);
            var (d', e) := PasswordChanged(d, userId, oldPassword, newPassword, current, at);
            && (e == None <==> userId in d.users && d.users[userId].password == oldPassword)
            && (e != None ==> e == Some(InvalidCredentials) && d' == d)
            && (e == None ==> EndsOpen(d, d', userId, if current.Some? then Some(current.value.prefix) else None, at))
            && (e == None ==>
                  var was, after := Authenticated(d, Some(token), now), Authenticated(d', Some(token), now);
                  && (after.Ok? <==>
                        was.Ok? && (was.value.id != userId || (current.Some? && current.value.prefix == token.prefix)))
                  && (after.Ok? ==> after.value.id == was.value.id))
  {
    RunKeepsOrderly(NOBODY, before);
    hide Run, Orderly;
    if userId in Run(NOBODY, before).users {
      PasswordStamps(Run(NOBODY, before), userId, newPassword, current, at);
    }
    hide EndsOpen;
  }

  lemma PasswordStamps(d: Directory, userId: int, newPassword: string, current: Option<Token>, at: Instant)
    requires userId in d.users
    ensures EndsOpen(
              d, PasswordSet(d, userId, newPassword, current, at), userId,
              if current.Some? then Some(current.value.prefix) else None, at)
  {
  }

  /** A reset is refused exactly for an unknown user; otherwise no token of that user works, and all others still do. */
  lemma {:induction false} ResetAnswers(
    before: seq<Op>, userId: int, newPassword: string, at: Instant, token: Token, now: Instant)
    ensures var d := Run(NOBODY, before);
            var (d', e) := PasswordReset(d, userId, newPassword, at);
            && (e == None <==> userId in d.users)
            && (e != None ==> e == Some(SessionNotFound) && d' == d)
            && (e == None ==> EndsOpen(d, d', userId, None, at))
            && (e == None ==>
                  var was, after := Authenticated(d, Some(token), now), Authenticated(d', Some(token), now);
                  && (after.Ok? <==> was.Ok? && was.value.id != userId)
                  && (after.Ok? ==> after.value == was.value))
  {
    RunKeepsOrderly(NOBODY, before);
    hide Run, Orderly;
    if userId in Run(NOBODY, before).users {
      PasswordStamps(Run(NOBODY, before), userId, newPassword, None, at);
    }
    hide EndsOpen;
  }

  // ----- Disabling -------------------------------------------------------------------------------------------------

  /** The status goes by its word; an unknown user or word is refused and changes nothing. */
  lemma {:induction false} StatusAnswers(d: Directory, userId: int, status: string, at: Instant)
    ensures var (d', e) := StatusUpdated(d, userId, status, at);
            && (e == Some(SessionNotFound) <==> userId !in d.users)
            && (e == Some(BadStatus) <==> userId in d.users && status != "disabled" && status != "active")
            && (e == None <==> userId in d.users && (status == "disabled" || status == "active"))
            && (e != None ==> d' == d)
            && (e == None ==>
                  && d'.sessions == d.sessions && d'.nextUserId == d.nextUserId
                  && d'.users == d.users[userId := d.users[userId].(
                       disabledAt := if status == "disabled" then Some(at) else None)])
  {
    assert "disabled" != "active" by {
      assert |"disabled"| != |"active"|;
    }
  }

  predicate Activates(op: Op, userId: int) {
    op.UpdateStatus? && op.userId == userId && op.status == "active"
  }

  lemma {:induction false} DisabledStep(d: Directory, op: Op, userId: int)
    requires Orderly(d) && userId in d.users && d.users[userId].disabledAt != None && !Activates(op, userId)
    ensures var users := Apply(d, op).users;
            userId in users && users[userId].disabledAt != None && users[userId].email == d.users[userId].email
  {
    if op.Login? {
      MailedFinds(d, op.email, 1);
    }
  }

  lemma {:induction false} DisabledStays(d: Directory, ops: seq<Op>, userId: int)
    requires Orderly(d) && userId in d.users && d.users[userId].disabledAt != None
    requires forall i :: 0 <= i < |ops| ==> !Activates(ops[i], userId)
    ensures var users := Run(d, ops).users;
            userId in users && users[userId].disabledAt != None && users[userId].email == d.users[userId].email
    decreases |ops|
  {
    hide Apply, Orderly, Activates;
    if ops == [] {
    } else {
      StepKeepsOrderly(d, ops[0]);
      DisabledStep(d, ops[0], userId);
      DisabledStays(Apply(d, ops[0]), ops[1..], userId);
    }
  }

  /** A user who is disabled neither logs in nor authenticates with any token, until made active again. */
  lemma {:induction false} DisabledIsShutOut(
    before: seq<Op>, userId: int, at: Instant, after: seq<Op>, password: string, drawn: Token,
    token: Option<Token>, now: Instant)
    requires StatusUpdated(Run(NOBODY, before), userId, "disabled", at).1 == None
    requires forall i :: 0 <= i < |after| ==> !Activates(after[i], userId)
    ensures var d := Run(NOBODY, before);
            var last := Run(StatusUpdated(d, userId, "disabled", at).0, after);
            && userId in d.users
            && LoggedIn(last, d.users[userId].email, password, drawn, now).1.Err?
            && (Authenticated(last, token, now).Ok? ==> Authenticated(last, token, now).value.id != userId)
  {
    var d := Run(NOBODY, before);
    RunKeepsOrderly(NOBODY, before);
    StepKeepsOrderly(d, UpdateStatus(userId, "disabled", at));
    var d' := StatusUpdated(d, userId, "disabled", at).0;
    StatusAnswers(d, userId, "disabled", at);
    hide Apply, StatusUpdated, Activates;
    RunKeepsOrderly(d', after);
    DisabledStays(d', after, userId);
    MailedFinds(Run(d', after), d.users[userId].email, 1);
    hide Run, FirstMailed;
  }

  // ----- Tokens ----------------------------------------------------------------------------------------------------

  /** Revoking ends the one session behind the token's prefix, and no other; text of another form is refused. */
  lemma {:induction false} RevokeAnswers(d: Directory, raw: Option<Token>, at: Instant, token: Token, now: Instant)
    ensures var (d', e) := Revoked(d, raw, at);
            && (e == Some(BadToken) <==> raw == None) && (e == None <==> raw != None)
            && d'.users == d.users && d'.nextUserId == d.nextUserId
            && (Authenticated(d', Some(token), now).Ok? <==>
                  Authenticated(d, Some(token), now).Ok? && !(raw != None && raw.value.prefix == token.prefix))
            && (Authenticated(d', Some(token), now).Ok? ==>
                  Authenticated(d', Some(token), now) == Authenticated(d, Some(token), now))
  {
  }

  /** Operation `i` of the run logged user `userId` in with this very token. */
  ghost predicate IssuedAt(ops: seq<Op>, i: nat, userId: int, token: Token) {
    i < |ops| && Issues(Run(NOBODY, ops[..i]), ops[i], userId) && ops[i].token == token
  }

  lemma {:induction false} SessionsAreIssued(ops: seq<Op>, prefix: string) returns (i: nat)
    requires prefix in Run(NOBODY, ops).sessions
    ensures var s := Run(NOBODY, ops).sessions[prefix];
            IssuedAt(ops, i, s.userId, s.token) && s.expiresAt == ops[i].now + 2592000.0 && s.token.prefix == prefix
    decreases |ops|
  {
    assert ops != [];
    var n := |ops| - 1;
    var older, op := ops[..n], ops[n];
    assert ops == older + [op];
    RunOfAppend(NOBODY, older, op);
    RunKeepsOrderly(NOBODY, older);
    var d := Run(NOBODY, older);
    hide Run, Apply, Issues, Issuing, Orderly;
    if Issuing(d, op, prefix) {
      i := n;
      SessionStarts(d, op, prefix);
    } else {
      OldSession(d, op, prefix);
      i := SessionsAreIssued(older, prefix);
      assert older[..i] == ops[..i];
    }
  }

  ghost predicate Issuing(d: Directory, op: Op, prefix: string) {
    DrawsPrefix(op, prefix) && exists userId :: Issues(d, op, userId)
  }

  lemma SessionStarts(d: Directory, op: Op, prefix: string)
    requires Orderly(d) && Issuing(d, op, prefix)
    ensures op.Register? || op.Login?
    ensures var s := Apply(d, op).sessions;
            prefix in s && s[prefix].token == op.token && op.token.prefix == prefix
            && s[prefix].expiresAt == op.now + 2592000.0 && Issues(d, op, s[prefix].userId)
  {
    var userId :| Issues(d, op, userId);
    SessionIsIssued(d, op, userId);
  }

  lemma OldSession(d: Directory, op: Op, prefix: string)
    requires prefix in Apply(d, op).sessions && !Issuing(d, op, prefix)
    ensures prefix in d.sessions
    ensures Apply(d, op).sessions[prefix].(revokedAt := None) == d.sessions[prefix].(revokedAt := None)
  {
    if op.Register? {
      assert Issues(d, op, d.nextUserId) <==> Registered(d, op.email, op.password, op.name, op.token, op.now).1.Ok?;
    } else if op.Login? {
      var r := LoggedIn(d, op.email, op.password, op.token, op.now).1;
      assert r.Ok? ==> Issues(d, op, r.value.id);
    }
  }

  /** Whatever token works was given out, whole, at a login or a registration of that user, within thirty days. */
  lemma {:induction false} WorkingTokensWereIssued(ops: seq<Op>, raw: Option<Token>, now: Instant) returns (i: nat)
    requires Authenticated(Run(NOBODY, ops), raw, now).Ok?
    ensures raw != None
    ensures IssuedAt(ops, i, Authenticated(Run(NOBODY, ops), raw, now).value.id, raw.value)
    ensures now < ops[i].now + 2592000.0
  {
    RunKeepsOrderly(NOBODY, ops);
    i := SessionsAreIssued(ops, raw.value.prefix);
    hide Run, Issues;
  }
}
