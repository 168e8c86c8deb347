/**
  What each transaction of the repository service answers and leaves behind, told by the rows there are. A refused
  transaction leaves everything as it was: an error carries no new state.
*/
module MailboxLaws {
  import opened Common
  import opened Crypto
  import A = Accounts
  import opened Mailboxes
  import opened MailboxRuns

  ghost predicate EmailUsed(db: Db, userId: Option<int>, email: string, besides: set<int>) {
    exists i :: i in db.mailboxes && i !in besides && db.mailboxes[i].userId == userId && db.mailboxes[i].email == email
  }

  ghost predicate NameUsed(db: Db, userId: Option<int>, name: string, besides: set<int>) {
    exists i :: i in db.mailboxes && i !in besides && db.mailboxes[i].userId == userId && db.mailboxes[i].name == name
  }

  lemma TakenMeansUsed(db: Db, userId: Option<int>, name: string, email: string, besides: set<int>)
    ensures EmailTaken(db, userId, email, besides) <==> EmailUsed(db, userId, email, besides)
    ensures NameTaken(db, userId, name, besides) <==> NameUsed(db, userId, name, besides)
  {
    if EmailUsed(db, userId, email, besides) {
      var i :| i in db.mailboxes && i !in besides && db.mailboxes[i].userId == userId && db.mailboxes[i].email == email;
      assert i in db.mailboxes.Keys - besides;
    }
    if NameUsed(db, userId, name, besides) {
      var i :| i in db.mailboxes && i !in besides && db.mailboxes[i].userId == userId && db.mailboxes[i].name == name;
      assert i in db.mailboxes.Keys - besides;
    }
  }

  // ----- Creating and verifying ------------------------------------------------------------------------------------

  lemma {:induction false} CreateAnswers(
    c: Cipher, db: Db, id: int, userId: Option<int>, name: string, email: string, provider: string, password: string)
    ensures var r := Body(c, db, Create(id, userId, name, email, provider, password));
            && (r == Err(InvalidName) <==> !A.ValidName(name))
            && (r == Err(UnsupportedProvider) <==> A.ValidName(name) && provider != "gmail")
            && (r == Err(DuplicateName) <==>
                  A.ValidName(name) && provider == "gmail" && !EmailUsed(db, userId, email, {})
                  && NameUsed(db, userId, name, {}))
            && (r.Ok? <==>
                  A.ValidName(name) && provider == "gmail" && !EmailUsed(db, userId, email, {})
                  && !NameUsed(db, userId, name, {}) && id !in db.mailboxes)
            && (r.Ok? ==>
                  var m := r.value.mailboxes[id];
                  && r.value.mailboxes == db.mailboxes[id := m] && r.value.verifications == db.verifications
                  && r.value.outbox == db.outbox + [Record(AccountCreate, Some(id))]
                  && m.userId == userId && m.name == name && m.email == email && m.provider == provider
                  && m.authType == A.AppPassword && m.refreshToken == None && m.accessToken == None
                  && m.password.Some? && Decrypt(c, m.password.value, m.keyVersion) == Ok(password))
  {
    TakenMeansUsed(db, userId, name, email, {});
    hide EmailTaken, NameTaken, EmailUsed, NameUsed, A.ValidName;
  }

  lemma {:induction false} StartAnswers(c: Cipher, db: Db, op: Op)
    requires op.StartVerification?
    ensures var r := Body(c, db, op);
            && (r == Err(InvalidName) <==> !A.ValidName(op.name))
            && (r == Err(DuplicateEmail) <==> A.ValidName(op.name) && EmailUsed(db, Some(op.user), op.email, {}))
            && (r == Err(DuplicateName) <==>
                  A.ValidName(op.name) && !EmailUsed(db, Some(op.user), op.email, {})
                  && NameUsed(db, Some(op.user), op.name, {}))
            && (r.Ok? <==>
                  A.ValidName(op.name) && !EmailUsed(db, Some(op.user), op.email, {})
                  && !NameUsed(db, Some(op.user), op.name, {}) && A.ValidCode(op.code))
            && (r.Ok? ==>
                  var v := r.value.verifications[op.vid];
                  && r.value.verifications == db.verifications[op.vid := v] && r.value.mailboxes == db.mailboxes
                  && r.value.outbox == db.outbox + [Record(VerifySent, None)]
                  && v.userId == op.user && v.name == op.name && v.email == op.email && v.provider == op.provider
                  && Decrypt(c, v.password.ciphertext, v.password.keyVersion) == Ok(op.password)
                  && v.code == op.code && v.expiresAt == op.expiresAt
                  && v.attempts == 0 && v.status == A.Verifying && v.mailboxId == None)
  {
    TakenMeansUsed(db, Some(op.user), op.name, op.email, {});
    hide EmailTaken, NameTaken, EmailUsed, NameUsed, A.ValidName, A.ValidCode;
  }

  /** No event draws the id of the verification again. */
  predicate NotRedrawn(events: seq<Event>, vid: string) {
    forall i :: 0 <= i < |events| && events[i].Txn? && events[i].op.StartVerification? ==> events[i].op.vid != vid
  }

  /** What was submitted, and that nothing was counted. */
  ghost predicate SubmittedBy(v: Verification, start: Op)
    requires start.StartVerification?
  {
    && v.userId == start.user && v.name == start.name && v.email == start.email && v.provider == start.provider
    && v.code == start.code && v.expiresAt == start.expiresAt
  }

  lemma {:induction false} BodyKeepsSubmitted(c: Cipher, db: Db, op: Op, start: Op)
    requires start.StartVerification? && start.vid in db.verifications
    requires SubmittedBy(db.verifications[start.vid], start)
    requires (op.StartVerification? ==> op.vid != start.vid) && Body(c, db, op).Ok?
    ensures var db' := Body(c, db, op).value;
            start.vid in db'.verifications && SubmittedBy(db'.verifications[start.vid], start)
  {
  }

  lemma {:induction false} RunKeepsSubmitted(s: Service, events: seq<Event>, start: Op)
    requires start.StartVerification? && NotRedrawn(events, start.vid)
    requires start.vid in s.db.verifications && SubmittedBy(s.db.verifications[start.vid], start)
    ensures var db := Run(s, events).db;
            start.vid in db.verifications && SubmittedBy(db.verifications[start.vid], start)
    decreases |events|
  {
    hide Body, SubmittedBy;
    if events == [] {
    } else {
      if Commits(s, events[0]) {
        BodyKeepsSubmitted(s.cipher, s.db, events[0].op, start);
      }
      RunKeepsSubmitted(Handle(s, events[0]), events[1..], start);
    }
  }

  /**
    From the moment a verification is submitted, whatever else happens: handing in a code for it is answered not
    found if it is another user's or verified already; expired from its expiry on; and failed for every text but the
    very code submitted.
   */
  lemma {:induction false} CompletionAnswers(
    s: Service, start: Op, events: seq<Event>, id: int, user: int, code: string, now: Instant)
    requires start.StartVerification? && Body(s.cipher, s.db, start).Ok? && NotRedrawn(events, start.vid)
    ensures var last := Run(Handle(s, Txn(start, true)), events);
            var r := Body(last.cipher, last.db, CompleteVerification(id, user, start.vid, code, now));
            start.vid in last.db.verifications
            && var v := last.db.verifications[start.vid];
            && (user != start.user || v.status != A.Verifying ==> r == Err(NotFound))
            && (user == start.user && v.status == A.Verifying && start.expiresAt <= now ==>
                  r == Err(VerificationExpired))
            && (user == start.user && v.status == A.Verifying && now < start.expiresAt && code != start.code ==>
                  r == Err(VerificationFailed))
            && (user == start.user && v.status == A.Verifying && now < start.expiresAt && code == start.code ==>
                  r != Err(VerificationExpired) && r != Err(VerificationFailed) && r != Err(NotFound))
  {
    StartAnswers(s.cipher, s.db, start);
    var s1 := Handle(s, Txn(start, true));
    assert SubmittedBy(s1.db.verifications[start.vid], start);
    RunKeepsSubmitted(s1, events, start);
    hide Run, A.ValidCode, Started;
  }

  // ----- Connecting ------------------------------------------------------------------------------------------------

  lemma {:induction false} ConnectAnswers(c: Cipher, db: Db, op: Op, existing: int)
    requires op.ConnectOauth? && UniqueRows(db)
    ensures var r := Body(c, db, op);
            var known := existing in db.mailboxes && db.mailboxes[existing].userId == Some(op.user)
                         && db.mailboxes[existing].name == op.name;
            && (r == Err(InvalidName) <==> !A.ValidName(op.name))
            && (known ==>
                  var m := db.mailboxes[existing];
                  && (r == Err(DuplicateName) <==>
                        A.ValidName(op.name) && (m.authType != A.OAuth2 || m.provider != op.provider))
                  && (r.Ok? <==>
                        A.ValidName(op.name) && m.authType == A.OAuth2 && m.provider == op.provider
                        && !EmailUsed(db, Some(op.user), op.email, {existing}))
                  && (r.Ok? ==>
                        Connects(c, db, r.value, op, existing) && r.value.mailboxes[existing].provider == m.provider))
            && (!NameUsed(db, Some(op.user), op.name, {}) ==>
                  && (r.Ok? <==>
                        A.ValidName(op.name) && !EmailUsed(db, Some(op.user), op.email, {}) && op.id !in db.mailboxes)
                  && (r.Ok? ==>
                        Connects(c, db, r.value, op, op.id) && r.value.mailboxes[op.id].provider == op.provider))
  {
    TakenMeansUsed(db, Some(op.user), op.name, op.email, {});
    TakenMeansUsed(db, Some(op.user), op.name, op.email, {existing});
    var ids := NamedIds(db, Some(op.user), op.name);
    if existing in ids {
      TheOneNamed(db, Some(op.user), op.name, existing);
    }
    hide EmailTaken, NameTaken, EmailUsed, A.ValidName, UniqueRows;
  }

  /** Row `id` now holds the e-mail and both tokens of the connection, and no password; no other row changed. */
  ghost predicate Connects(c: Cipher, db: Db, db': Db, op: Op, id: int)
    requires op.ConnectOauth?
  {
    && id in db'.mailboxes
    && var m := db'.mailboxes[id];
    && db'.mailboxes == db.mailboxes[id := m] && db'.verifications == db.verifications
    && db'.outbox == db.outbox + [Record(OauthCompleted, Some(id))]
    && m.userId == Some(op.user) && m.name == op.name && m.email == op.email && m.authType == A.OAuth2
    && m.password == None && m.expiresAt == op.tokenExpiry
    && m.refreshToken.Some? && Decrypt(c, m.refreshToken.value, m.keyVersion) == Ok(op.refresh)
    && (m.accessToken.Some? <==> op.access.Some?)
    && (m.accessToken.Some? ==> Decrypt(c, m.accessToken.value, m.keyVersion) == Ok(op.access.value))
  }

  // ----- Changing and deleting -------------------------------------------------------------------------------------

  lemma {:induction false} RenameAnswers(c: Cipher, db: Db, user: int, id: int, name: string)
    ensures var r := Body(c, db, Rename(user, id, name));
            var own := id in db.mailboxes && db.mailboxes[id].userId == Some(user);
            && (r == Err(InvalidName) <==> !A.ValidName(name))
            && (r == Err(NotFound) <==> A.ValidName(name) && !own)
            && (r == Err(DuplicateName) <==> A.ValidName(name) && own && NameUsed(db, Some(user), name, {id}))
            && (r.Ok? <==> A.ValidName(name) && own && !NameUsed(db, Some(user), name, {id}))
            && (r.Ok? ==>
                  && r.value.mailboxes == db.mailboxes[id := db.mailboxes[id].(name := name)]
                  && r.value.verifications == db.verifications
                  && r.value.outbox == db.outbox + [Record(NameUpdated, Some(id))])
  {
    TakenMeansUsed(db, Some(user), name, "", {id});
    hide NameTaken, NameUsed, EmailTaken, EmailUsed, A.ValidName;
  }

  /** A user changes the password of a mailbox of their own and of no other; a key holder, of the key's mailbox. */
  lemma {:induction false} UpdateAnswers(c: Cipher, db: Db, caller: Caller, id: int, password: string)
    ensures var r := Body(c, db, UpdateCredentials(caller, id, password));
            var allowed := match caller
                           case User(user) => id in db.mailboxes && db.mailboxes[id].userId == Some(user)
                           case KeyHolder(fits) => id in db.mailboxes && fits
                           case Anyone => id in db.mailboxes;
            && (r.Ok? <==> allowed) && (r.Err? ==> r == Err(NotFound))
            && (r.Ok? ==>
                  && id in r.value.mailboxes
                  && var m := r.value.mailboxes[id];
                  && r.value.mailboxes == db.mailboxes[id := m] && r.value.verifications == db.verifications
                  && r.value.outbox == db.outbox + [Record(CredentialsUpdate, Some(id))]
                  && m.(password := None, keyVersion := 0) == db.mailboxes[id].(password := None, keyVersion := 0)
                  && m.password.Some? && Decrypt(c, m.password.value, m.keyVersion) == Ok(password))
  {
  }

  /** A user deletes a mailbox of their own and no other; deletion takes the one row and nothing else. */
  lemma {:induction false} DeleteAnswers(c: Cipher, db: Db, caller: Caller, id: int)
    ensures var r := Body(c, db, Delete(caller, id));
            var allowed := match caller
                           case User(user) => id in db.mailboxes && db.mailboxes[id].userId == Some(user)
                           case KeyHolder(fits) => id in db.mailboxes && fits
                           case Anyone => id in db.mailboxes;
            && (r.Ok? <==> allowed) && (r.Err? ==> r == Err(NotFound))
            && (r.Ok? ==>
                  && (forall i :: i in r.value.mailboxes <==> i in db.mailboxes && i != id)
                  && (forall i :: i in r.value.mailboxes ==> r.value.mailboxes[i] == db.mailboxes[i])
                  && r.value.verifications == db.verifications
                  && r.value.outbox == db.outbox + [Record(AccountDelete, Some(id))])
  {
  }

  /** A mailbox is handed to a user, as it is and on nobody's record, unless they have its name or e-mail already. */
  lemma {:induction false} AssignAnswers(c: Cipher, db: Db, id: int, user: int)
    ensures var r := Body(c, db, AssignUser(id, user));
            && (r == Err(NotFound) <==> id !in db.mailboxes)
            && (id in db.mailboxes ==>
                  var m := db.mailboxes[id];
                  var used := EmailUsed(db, Some(user), m.email, {id}) || NameUsed(db, Some(user), m.name, {id});
                  && (r == Err(Conflict) <==> used)
                  && (!used ==> r == Ok(db.(mailboxes := db.mailboxes[id := m.(userId := Some(user))]))))
  {
    if id in db.mailboxes {
      TakenMeansUsed(db, Some(user), db.mailboxes[id].name, db.mailboxes[id].email, {id});
    }
    hide EmailTaken, NameTaken, EmailUsed, NameUsed;
  }

  /** The events of a run that a user did not cause, and connections, renames and deletions by other users. */
  predicate ByOthers(e: Event, user: int) {
    e.Txn? ==>
      match e.op
      case Delete(caller, _) => caller.User? && caller.user != user
      case UpdateCredentials(caller, _, _) => caller.User? && caller.user != user
      case Rename(u, _, _) => u != user
      case ConnectOauth(_, u, _, _, _, _, _, _) => u != user
      case AssignUser(_, _) => false
      case _ => true
  }

  /** What other users may cause to a mailbox: its tokens may be refreshed. */
  ghost predicate SameBut(m: Mailbox, m': Mailbox) {
    && m'.userId == m.userId && m'.name == m.name && m'.email == m.email && m'.provider == m.provider
    && m'.authType == m.authType && m'.password == m.password
  }

  lemma {:induction false} BodyByOthers(c: Cipher, db: Db, e: Event, user: int, id: int)
    requires e.Txn? && ByOthers(e, user) && Body(c, db, e.op).Ok?
    requires id in db.mailboxes && db.mailboxes[id].userId == Some(user)
    ensures var db' := Body(c, db, e.op).value;
            id in db'.mailboxes && SameBut(db.mailboxes[id], db'.mailboxes[id])
  {
  }

  /** In every run of what others do, a user's mailbox stays, with its name, e-mail, kind and password. */
  lemma {:induction false} OthersChangeNothing(s: Service, events: seq<Event>, user: int, id: int)
    requires forall i :: 0 <= i < |events| ==> ByOthers(events[i], user)
    requires id in s.db.mailboxes && s.db.mailboxes[id].userId == Some(user)
    ensures id in Run(s, events).db.mailboxes
    ensures SameBut(s.db.mailboxes[id], Run(s, events).db.mailboxes[id])
    decreases |events|
  {
    hide Body, ByOthers;
    if events == [] {
    } else {
      if Commits(s, events[0]) {
        BodyByOthers(s.cipher, s.db, events[0], user, id);
      }
      OthersChangeNothing(Handle(s, events[0]), events[1..], user, id);
    }
  }

  // ----- Handing out credentials -----------------------------------------------------------------------------------

  /** A token that expires within five minutes is refreshed, and any other is handed out as it is. */
  lemma {:induction false} ResolveAnswers(c: Cipher, db: Db, id: int, now: Instant, answer: Answer)
    requires id in db.mailboxes && db.mailboxes[id].authType == A.OAuth2
    ensures var m := db.mailboxes[id];
            var r := Body(c, db, Resolve(id, now, answer));
            if m.accessToken.None? then r == Err(ReconnectRequired)
            else if m.expiresAt.None? || m.expiresAt.value > now + 300.0 then
              r == if Decrypt(c, m.accessToken.value, m.keyVersion).Ok? then Ok(db) else Err(Undecryptable)
            else if answer.NoRefresher? || m.refreshToken.None? then r == Err(ReconnectRequired)
            else if Decrypt(c, m.refreshToken.value, m.keyVersion).Err? then r == Err(Undecryptable)
            else if answer.ExchangeFails? then r == Err(ReconnectRequired)
            else
              && r.Ok? && id in r.value.mailboxes
              && var m' := r.value.mailboxes[id];
              && r.value.mailboxes == db.mailboxes[id := m'] && r.value.verifications == db.verifications
              && r.value.outbox == db.outbox + [Record(TokenRefreshed, Some(id))]
              && m'.expiresAt == answer.expiresAt && Credential(c, m') == Ok(answer.accessToken)
              && m'.refreshToken.Some?
              && Decrypt(c, m'.refreshToken.value, m'.keyVersion) == Decrypt(c, m.refreshToken.value, m.keyVersion)
              && SameBut(m, m')
  {
  }

  /** A password mailbox hands out its password and never changes by it. */
  lemma {:induction false} ResolvePasswordAnswers(c: Cipher, db: Db, id: int, now: Instant, answer: Answer)
    requires id in db.mailboxes && db.mailboxes[id].authType == A.AppPassword
    ensures var m := db.mailboxes[id];
            var r := Body(c, db, Resolve(id, now, answer));
            && (r == Err(NotFound) <==> m.password.None?)
            && (m.password.Some? ==>
                  match Decrypt(c, m.password.value, m.keyVersion)
                  case Ok(password) => r == Ok(db) && Credential(c, m) == Ok(password)
                  case Err(_) => r == Err(Undecryptable))
  {
  }
}
