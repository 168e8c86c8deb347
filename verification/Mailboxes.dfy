/**
  The repository-backed account service. Every operation is one transaction that changes mailbox rows and adds
  an audit record to the outbox of the same database; an exception anywhere rolls all of it back. Credentials
  are stored encrypted, and both OAuth tokens or the password of a mailbox share one key version.
*/
module Mailboxes {
  import opened Common
  import opened Crypto
  import A = Accounts

  datatype Mailbox = Mailbox(
    userId: Option<int>, name: string, email: string, provider: string, authType: A.AuthType,
    password: Option<Sealed>, keyVersion: nat, refreshToken: Option<Sealed>, accessToken: Option<Sealed>,
    expiresAt: Option<Instant>)

  datatype Verification = Verification(
    userId: int, name: string, email: string, provider: string, password: Encrypted, code: string,
    expiresAt: Instant, attempts: nat, status: A.Status, mailboxId: Option<int>)

  /** The audit actions of the service. */
  datatype Action =
    | AccountCreate
    | VerifySent
    | VerifyCompleted
    | OauthCompleted
    | TokenRefreshed
    | NameUpdated
    | CredentialsUpdate
    | KeyRotated
    | AccountDelete
    | MarkSeen

  datatype Record = Record(action: Action, target: Option<int>)

  datatype Db = Db(mailboxes: map<int, Mailbox>, verifications: map<string, Verification>, outbox: seq<Record>)

  datatype Error =
    | InvalidName
    | InvalidCode
    | DuplicateEmail
    | DuplicateName
    | UnsupportedProvider
    | NotFound
    | VerificationExpired
    | VerificationFailed
    | ReconnectRequired
    | Undecryptable
    | Conflict

  /** What becomes of a refresh: no client for the provider, a failed exchange, or a new access token. */
  datatype Answer = NoRefresher | ExchangeFails | Refreshed(accessToken: string, expiresAt: Option<Instant>)

  /** On whose behalf: a user's own mailbox, the holder of an API key that fits the mailbox or not, or no check. */
  datatype Caller = User(user: int) | KeyHolder(fits: bool) | Anyone

  /** `id` is the number the database draws for a new row; `vid` the random id of a verification. */
  datatype Op =
    | Create(id: int, userId: Option<int>, name: string, email: string, provider: string, password: string)
    | StartVerification(
        vid: string, user: int, name: string, email: string, provider: string, password: string, code: string,
        expiresAt: Instant)
    | CompleteVerification(id: int, user: int, vid: string, code: string, now: Instant)
    | ConnectOauth(
        id: int, user: int, name: string, email: string, provider: string, refresh: string,
        access: Option<string>, tokenExpiry: Option<Instant>)
    | Rename(user: int, id: int, name: string)
    | UpdateCredentials(caller: Caller, id: int, password: string)
    | RotateApiKey(caller: Caller, id: int)
    | Resolve(id: int, now: Instant, answer: Answer)
    | RecordSeen(id: int)
    | Delete(caller: Caller, id: int)
    | AssignUser(id: int, user: int)

  predicate EmailTaken(db: Db, userId: Option<int>, email: string, besides: set<int>) {
    exists i :: i in db.mailboxes.Keys - besides && db.mailboxes[i].userId == userId && db.mailboxes[i].email == email
  }

  predicate NameTaken(db: Db, userId: Option<int>, name: string, besides: set<int>) {
    exists i :: i in db.mailboxes.Keys - besides && db.mailboxes[i].userId == userId && db.mailboxes[i].name == name
  }

  predicate Owned(db: Db, user: int, id: int) {
    id in db.mailboxes && db.mailboxes[id].userId == Some(user)
  }

  predicate Allowed(db: Db, caller: Caller, id: int) {
    id in db.mailboxes && (caller.User? ==> Owned(db, caller.user, id)) && (caller.KeyHolder? ==> caller.fits)
  }

  function Logged(db: Db, action: Action, target: Option<int>): Db {
    db.(outbox := db.outbox + [Record(action, target)])
  }

  function Stored(db: Db, id: int, m: Mailbox): Db {
    db.(mailboxes := db.mailboxes[id := m])
  }

  // ----- The transaction bodies -----------------------------------------------------------------------------------

  function PasswordRow(
    c: Cipher, userId: Option<int>, name: string, email: string, provider: string, password: string): Mailbox
  {
    var e := Encrypt(c, password);
    Mailbox(userId, name, email, provider, A.AppPassword, Some(e.ciphertext), e.keyVersion, None, None, None)
  }

  function Created(
    c: Cipher, db: Db, id: int, userId: Option<int>, name: string, email: string, provider: string, password: string)
    : Result<Db, Error>
  {
    if !A.ValidName(name) then Err(InvalidName)
    else if provider != "gmail" then Err(UnsupportedProvider)
    else if EmailTaken(db, userId, email, {}) then Err(DuplicateEmail)
    else if NameTaken(db, userId, name, {}) then Err(DuplicateName)
    else if id in db.mailboxes then Err(DuplicateEmail)
    else Ok(Stored(db, id, PasswordRow(c, userId, name, email, provider, password)))
  }

  function Started(c: Cipher, db: Db, op: Op): Result<Db, Error>
    requires op.StartVerification?
  {
    if !A.ValidName(op.name) then Err(InvalidName)
    else if EmailTaken(db, Some(op.user), op.email, {}) then Err(DuplicateEmail)
    else if NameTaken(db, Some(op.user), op.name, {}) then Err(DuplicateName)
    else if !A.ValidCode(op.code) then Err(InvalidCode)
    else
      var v := Verification(
        op.user, op.name, op.email, op.provider, Encrypt(c, op.password), op.code, op.expiresAt, 0, A.Verifying, None);
      Ok(db.(verifications := db.verifications[op.vid := v]))
  }

  /** The attempt count and the status are written here too, but an exception takes the writes with it. */
  function Completed(c: Cipher, db: Db, id: int, user: int, vid: string, code: string, now: Instant)
    : Result<Db, Error>
  {
    if vid !in db.verifications || db.verifications[vid].userId != user || !db.verifications[vid].status.Verifying? then
      Err(NotFound)
    else
      var v := db.verifications[vid];
      if v.expiresAt <= now then Err(VerificationExpired)
      else if !A.CodeMatches(code, v.code) then Err(VerificationFailed)
      else
        var password := Decrypt(c, v.password.ciphertext, v.password.keyVersion);
        if password.Err? then Err(Undecryptable)
        else
          var made := Created(c, db, id, Some(user), v.name, v.email, v.provider, password.value);
          if made.Err? then made
          else Ok(made.value.(verifications :=
                 db.verifications[vid := v.(mailboxId := Some(id), status := A.Verified)]))
  }

  /** Reconnecting writes both tokens afresh, under the key version of the refresh token. */
  function WithTokens(
    c: Cipher, m: Mailbox, email: string, refresh: string, access: Option<string>, expiresAt: Option<Instant>): Mailbox
  {
    var e := Encrypt(c, refresh);
    m.(email := email, password := None, keyVersion := e.keyVersion, refreshToken := Some(e.ciphertext),
       accessToken := if access.Some? then Some(Encrypt(c, access.value).ciphertext) else None,
       expiresAt := expiresAt)
  }

  function NamedIds(db: Db, userId: Option<int>, name: string): set<int> {
    set i | i in db.mailboxes && db.mailboxes[i].userId == userId && db.mailboxes[i].name == name
  }

  /** Reconnects the mailbox `existing` if there is one of that name, and otherwise makes row `id`. */
  function Connected(c: Cipher, db: Db, op: Op, existing: Option<int>): Result<(Db, int), Error>
    requires op.ConnectOauth? && (existing.Some? ==> existing.value in db.mailboxes)
  {
    if !A.ValidName(op.name) then Err(InvalidName)
    else if existing.Some? then
      var m := db.mailboxes[existing.value];
      if !m.authType.OAuth2? || m.provider != op.provider then Err(DuplicateName)
      else if EmailTaken(db, Some(op.user), op.email, {existing.value}) then Err(DuplicateEmail)
      else
        var connected := WithTokens(c, m, op.email, op.refresh, op.access, op.tokenExpiry);
        Ok((Stored(db, existing.value, connected), existing.value))
    else if EmailTaken(db, Some(op.user), op.email, {}) then Err(DuplicateEmail)
    else if op.id in db.mailboxes then Err(DuplicateEmail)
    else
      var blank := Mailbox(Some(op.user), op.name, op.email, op.provider, A.OAuth2, None, 0, None, None, None);
      Ok((Stored(db, op.id, WithTokens(c, blank, op.email, op.refresh, op.access, op.tokenExpiry)), op.id))
  }

  function WithPassword(c: Cipher, m: Mailbox, password: string): Mailbox {
    var e := Encrypt(c, password);
    m.(password := Some(e.ciphertext), keyVersion := e.keyVersion)
  }

  predicate NeedsRefresh(m: Mailbox, now: Instant) {
    m.expiresAt.Some? && m.expiresAt.value <= now + 300.0
  }

  /** The credential handed to the runtime: a password, or an access token. */
  function Credential(c: Cipher, m: Mailbox): Result<string, Error> {
    if m.authType.AppPassword? then
      if m.password.None? then Err(NotFound)
      else if Decrypt(c, m.password.value, m.keyVersion).Err? then Err(Undecryptable)
      else Ok(m.password.value.plaintext)
    else
      if m.accessToken.None? then Err(ReconnectRequired)
      else if Decrypt(c, m.accessToken.value, m.keyVersion).Err? then Err(Undecryptable)
      else Ok(m.accessToken.value.plaintext)
  }

  /** A refresh opens the refresh token and writes both tokens back under the active version. */
  function Refresh(c: Cipher, m: Mailbox, answer: Answer): Result<Mailbox, Error> {
    if answer.NoRefresher? || m.refreshToken.None? then Err(ReconnectRequired)
    else
      var unsealed := Decrypt(c, m.refreshToken.value, m.keyVersion);
      if unsealed.Err? then Err(Undecryptable)
      else if answer.ExchangeFails? then Err(ReconnectRequired)
      else
        var access := Encrypt(c, answer.accessToken);
        Ok(m.(refreshToken := Some(Encrypt(c, unsealed.value).ciphertext), accessToken := Some(access.ciphertext),
              keyVersion := access.keyVersion, expiresAt := answer.expiresAt))
  }

  function Resolved(c: Cipher, db: Db, id: int, now: Instant, answer: Answer): Result<Db, Error> {
    if id !in db.mailboxes then Err(NotFound)
    else
      var m := db.mailboxes[id];
      if m.authType.AppPassword? || m.accessToken.None? || !NeedsRefresh(m, now) then
        var credential := Credential(c, m);
        if credential.Err? then Err(credential.error) else Ok(db)
      else
        var refreshed := Refresh(c, m, answer);
        if refreshed.Err? then Err(refreshed.error)
        else Ok(Logged(Stored(db, id, refreshed.value), TokenRefreshed, Some(id)))
  }

  function LoggedIfOk(r: Result<Db, Error>, action: Action, target: Option<int>): Result<Db, Error> {
    if r.Ok? then Ok(Logged(r.value, action, target)) else r
  }

  /** One mailbox of that name, whichever the database finds first. */
  ghost function Existing(db: Db, userId: Option<int>, name: string): (r: Option<int>)
    ensures r.Some? ==> r.value in db.mailboxes && r.value in NamedIds(db, userId, name)
    ensures r.None? ==> NamedIds(db, userId, name) == {}
  {
    var ids := NamedIds(db, userId, name);
    if exists i :: i in ids then
      var i :| i in ids;
      Some(i)
    else None
  }

  /** What the transaction of an operation leaves behind if it commits, or the exception that ends it. */
  ghost function Body(c: Cipher, db: Db, op: Op): Result<Db, Error> {
    match op
    case Create(id, userId, name, email, provider, password) =>
      LoggedIfOk(Created(c, db, id, userId, name, email, provider, password), AccountCreate, Some(id))
    case StartVerification(_, _, _, _, _, _, _, _) => LoggedIfOk(Started(c, db, op), VerifySent, None)
    case CompleteVerification(id, user, vid, code, now) =>
      LoggedIfOk(Completed(c, db, id, user, vid, code, now), VerifyCompleted, Some(id))
    case ConnectOauth(_, user, name, _, _, _, _, _) =>
      var r := Connected(c, db, op, Existing(db, Some(user), name));
      if r.Ok? then Ok(Logged(r.value.0, OauthCompleted, Some(r.value.1))) else Err(r.error)
    case Rename(user, id, name) =>
      if !A.ValidName(name) then Err(InvalidName)
      else if !Owned(db, user, id) then Err(NotFound)
      else if NameTaken(db, Some(user), name, {id}) then Err(DuplicateName)
      else Ok(Logged(Stored(db, id, db.mailboxes[id].(name := name)), NameUpdated, Some(id)))
    case UpdateCredentials(caller, id, password) =>
      if !Allowed(db, caller, id) then Err(NotFound)
      else Ok(Logged(Stored(db, id, WithPassword(c, db.mailboxes[id], password)), CredentialsUpdate, Some(id)))
    case RotateApiKey(caller, id) =>
      if !Allowed(db, caller, id) then Err(NotFound) else Ok(Logged(db, KeyRotated, Some(id)))
    case Resolve(id, now, answer) => Resolved(c, db, id, now, answer)
    case RecordSeen(id) => Ok(Logged(db, MarkSeen, Some(id)))
    case Delete(caller, id) =>
      if !Allowed(db, caller, id) then Err(NotFound)
      else Ok(Logged(db.(mailboxes := db.mailboxes - {id}), AccountDelete, Some(id)))
    case AssignUser(id, user) =>
      if id !in db.mailboxes then Err(NotFound)
      else
        var m := db.mailboxes[id];
        if EmailTaken(db, Some(user), m.email, {id}) || NameTaken(db, Some(user), m.name, {id}) then Err(Conflict)
        else Ok(Stored(db, id, m.(userId := Some(user))))
  }

  /** The committed state after an operation: the body's if it got through and the commit did too. */
  ghost function Transact(c: Cipher, db: Db, op: Op, commits: bool): Db {
    if commits && Body(c, db, op).Ok? then Body(c, db, op).value else db
  }

  function Raised<T>(r: Result<T, Error>): Option<Error> {
    if r.Err? then Some(r.error) else None
  }

  // ----- Names and e-mails are unique ------------------------------------------------------------------------------

  ghost predicate UniqueRows(db: Db) {
    forall i, j :: i in db.mailboxes && j in db.mailboxes && i != j
                   && db.mailboxes[i].userId == db.mailboxes[j].userId ==>
      db.mailboxes[i].name != db.mailboxes[j].name && db.mailboxes[i].email != db.mailboxes[j].email
  }

  /** So the mailbox a query by name finds first is the only one. */
  lemma TheOneNamed(db: Db, userId: Option<int>, name: string, id: int)
    requires UniqueRows(db) && id in NamedIds(db, userId, name)
    ensures Existing(db, userId, name) == Some(id)
  {
    var found := Existing(db, userId, name);
    assert found.Some? ==> found.value in NamedIds(db, userId, name);
  }

  lemma {:induction false} ConnectKeepsUnique(c: Cipher, db: Db, op: Op, commits: bool)
    requires UniqueRows(db) && op.ConnectOauth?
    ensures UniqueRows(Transact(c, db, op, commits))
  {
    var ids := NamedIds(db, Some(op.user), op.name);
    assert forall i :: i in db.mailboxes && db.mailboxes[i].userId == Some(op.user) && db.mailboxes[i].name == op.name
             ==> i in ids;
  }

  /** Every operation, whether it commits or not, keeps names and e-mails unique per user. */
  lemma {:induction false} TransactKeepsUnique(c: Cipher, db: Db, op: Op, commits: bool)
    requires UniqueRows(db)
    ensures UniqueRows(Transact(c, db, op, commits))
  {
    if op.ConnectOauth? {
      ConnectKeepsUnique(c, db, op, commits);
    }
  }

  /** A session works on its own copy of the database, and only a commit publishes it. */
  class RepositoryAccountService {
    var cipher: Cipher
    var db: Db

    /** Kept by every method, and used to know the one mailbox of a name. */
    ghost predicate Valid()
      reads this
    {
      UniqueRows(db)
    }

    constructor (cipher: Cipher)
      ensures Valid() && this.cipher == cipher && db == Db(map[], map[], [])
    {
      this.cipher := cipher;
      db := Db(map[], map[], []);
    }

    method CreateForUser(
      newId: int, userId: Option<int>, name: string, email: string, provider: string, password: string, commits: bool)
      returns (r: Option<Error>)
      requires Valid()
      modifies this`db
      ensures Valid()
      ensures db == Transact(cipher, old(db), Create(newId, userId, name, email, provider, password), commits)
      ensures r == Raised(Body(cipher, old(db), Create(newId, userId, name, email, provider, password)))
    {
      TransactKeepsUnique(cipher, db, Create(newId, userId, name, email, provider, password), commits);
      var session := db;
      if !A.ValidName(name) {
        return Some(InvalidName);
      }
      if provider != "gmail" {
        return Some(UnsupportedProvider);
      }
      if EmailTaken(session, userId, email, {}) {
        return Some(DuplicateEmail);
      }
      if NameTaken(session, userId, name, {}) {
        return Some(DuplicateName);
      }
      if newId in session.mailboxes {
        return Some(DuplicateEmail);
      }
      var encrypted := Encrypt(cipher, password);
      var account := Mailbox(
        userId, name, email, provider, A.AppPassword, Some(encrypted.ciphertext), encrypted.keyVersion,
        None, None, None);
      session := session.(mailboxes := session.mailboxes[newId := account]);
      session := session.(outbox := session.outbox + [Record(AccountCreate, Some(newId))]);
      if commits {
        db := session;
      }
      r := None;
    }

    method StartAppPasswordVerification(
      vid: string, user: int, name: string, email: string, provider: string, password: string, code: string,
      expiresAt: Instant, commits: bool) returns (r: Option<Error>)
      requires Valid()
      modifies this`db
      ensures Valid()
      ensures db == Transact(
                cipher, old(db), StartVerification(vid, user, name, email, provider, password, code, expiresAt),
                commits)
      ensures r == Raised(Body(
                cipher, old(db), StartVerification(vid, user, name, email, provider, password, code, expiresAt)))
    {
      var session := db;
      if !A.ValidName(name) {
        return Some(InvalidName);
      }
      if EmailTaken(session, Some(user), email, {}) {
        return Some(DuplicateEmail);
      }
      if NameTaken(session, Some(user), name, {}) {
        return Some(DuplicateName);
      }
      var encrypted := Encrypt(cipher, password);
      if !A.ValidCode(code) {
        return Some(InvalidCode);
      }
      var v := Verification(user, name, email, provider, encrypted, code, expiresAt, 0, A.Verifying, None);
      session := session.(verifications := session.verifications[vid := v]);
      session := session.(outbox := session.outbox + [Record(VerifySent, None)]);
      if commits {
        db := session;
      }
      r := None;
    }

    /** Reconnects the mailbox of that name, field by field, or adds one; the flush reports a taken e-mail. */
    method CreateWithOauth(
      newId: int, user: int, name: string, email: string, provider: string, refresh: string, access: Option<string>,
      expiresAt: Option<Instant>, commits: bool) returns (r: Option<Error>)
      requires Valid()
      modifies this`db
      ensures Valid()
      ensures db == Transact(
                cipher, old(db), ConnectOauth(newId, user, name, email, provider, refresh, access, expiresAt), commits)
      ensures r == Raised(Body(
                cipher, old(db), ConnectOauth(newId, user, name, email, provider, refresh, access, expiresAt)))
    {
      ghost var op := ConnectOauth(newId, user, name, email, provider, refresh, access, expiresAt);
      TransactKeepsUnique(cipher, db, op, commits);
      hide UniqueRows;
      var session := db;
      if !A.ValidName(name) {
        return Some(InvalidName);
      }
      var encryptedRefresh := Encrypt(cipher, refresh);
      var encryptedAccess := None;
      if access.Some? {
        var encrypted := Encrypt(cipher, access.value);
        encryptedAccess := Some(encrypted.ciphertext);
      }
      var existing: Option<int> := None;
      var account := Mailbox(Some(user), name, email, provider, A.OAuth2, None, 0, None, None, None);
      if i :| i in NamedIds(session, Some(user), name) {
        TheOneNamed(db, Some(user), name, i);
        existing := Some(i);
        account := session.mailboxes[i];
        if !account.authType.OAuth2? || account.provider != provider {
          return Some(DuplicateName);
        }
        account := account.(email := email);
        account := account.(password := None);
      }
      assert existing == Existing(session, Some(user), name);
      var id := existing.GetOr(newId);
      account := account.(keyVersion := encryptedRefresh.keyVersion);
      account := account.(refreshToken := Some(encryptedRefresh.ciphertext));
      account := account.(accessToken := encryptedAccess);
      account := account.(expiresAt := expiresAt);
      if EmailTaken(session, Some(user), email, if existing.Some? then {id} else {}) {
        return Some(DuplicateEmail);
      }
      if existing.None? && newId in session.mailboxes {
        return Some(DuplicateEmail);
      }
      session := session.(mailboxes := session.mailboxes[id := account]);
      session := session.(outbox := session.outbox + [Record(OauthCompleted, Some(id))]);
      if commits {
        db := session;
      }
      r := None;
    }

    method UpdateNameForUser(user: int, id: int, name: string, commits: bool) returns (r: Option<Error>)
      requires Valid()
      modifies this`db
      ensures Valid()
      ensures db == Transact(cipher, old(db), Rename(user, id, name), commits)
      ensures r == Raised(Body(cipher, old(db), Rename(user, id, name)))
    {
      TransactKeepsUnique(cipher, db, Rename(user, id, name), commits);
      var session := db;
      if !A.ValidName(name) {
        return Some(InvalidName);
      }
      if id !in session.mailboxes || session.mailboxes[id].userId != Some(user) {
        return Some(NotFound);
      }
      if NameTaken(session, Some(user), name, {id}) {
        return Some(DuplicateName);
      }
      session := session.(mailboxes := session.mailboxes[id := session.mailboxes[id].(name := name)]);
      session := session.(outbox := session.outbox + [Record(NameUpdated, Some(id))]);
      if commits {
        db := session;
      }
      r := None;
    }

    method UpdateCredentialsForUser(user: int, id: int, password: string, commits: bool) returns (r: Option<Error>)
      requires Valid()
      modifies this`db
      ensures Valid()
      ensures db == Transact(cipher, old(db), Op.UpdateCredentials(User(user), id, password), commits)
      ensures r == Raised(Body(cipher, old(db), Op.UpdateCredentials(User(user), id, password)))
    {
      TransactKeepsUnique(cipher, db, Op.UpdateCredentials(User(user), id, password), commits);
      var session := db;
      if id !in session.mailboxes || session.mailboxes[id].userId != Some(user) {
        return Some(NotFound);
      }
      var account := session.mailboxes[id];
      var encrypted := Encrypt(cipher, password);
      account := account.(password := Some(encrypted.ciphertext));
      account := account.(keyVersion := encrypted.keyVersion);
      session := session.(mailboxes := session.mailboxes[id := account]);
      session := session.(outbox := session.outbox + [Record(CredentialsUpdate, Some(id))]);
      if commits {
        db := session;
      }
      r := None;
    }

    method UpdateCredentials(id: int, keyFits: bool, password: string, commits: bool) returns (r: Option<Error>)
      requires Valid()
      modifies this`db
      ensures Valid()
      ensures db == Transact(cipher, old(db), Op.UpdateCredentials(KeyHolder(keyFits), id, password), commits)
      ensures r == Raised(Body(cipher, old(db), Op.UpdateCredentials(KeyHolder(keyFits), id, password)))
    {
      TransactKeepsUnique(cipher, db, Op.UpdateCredentials(KeyHolder(keyFits), id, password), commits);
      var session := db;
      if id !in session.mailboxes || !keyFits {
        return Some(NotFound);
      }
      var account := session.mailboxes[id];
      var encrypted := Encrypt(cipher, password);
      account := account.(password := Some(encrypted.ciphertext));
      account := account.(keyVersion := encrypted.keyVersion);
      session := session.(mailboxes := session.mailboxes[id := account]);
      session := session.(outbox := session.outbox + [Record(CredentialsUpdate, Some(id))]);
      if commits {
        db := session;
      }
      r := None;
    }

    /** Answers the runtime's question for a credential, refreshing the tokens first if they are about to expire. */
    method ResolveRuntimeCredential(id: int, now: Instant, answer: Answer, commits: bool)
      returns (credential: Result<string, Error>)
      requires Valid()
      modifies this`db
      ensures Valid()
      ensures db == Transact(cipher, old(db), Resolve(id, now, answer), commits)
      ensures Raised(credential) == Raised(Body(cipher, old(db), Resolve(id, now, answer)))
      ensures credential.Ok? && commits ==> id in db.mailboxes && credential == Credential(cipher, db.mailboxes[id])
    {
      TransactKeepsUnique(cipher, db, Resolve(id, now, answer), commits);
      var session := db;
      if id !in session.mailboxes {
        return Err(NotFound);
      }
      var account := session.mailboxes[id];
      if account.authType.AppPassword? {
        if account.password.None? {
          return Err(NotFound);
        }
        var unsealed := Decrypt(cipher, account.password.value, account.keyVersion);
        return if unsealed.Ok? then Ok(unsealed.value) else Err(Undecryptable);
      }
      if account.accessToken.None? {
        return Err(ReconnectRequired);
      }
      if NeedsRefresh(account, now) {
        if answer.NoRefresher? || account.refreshToken.None? {
          return Err(ReconnectRequired);
        }
        var refreshToken := Decrypt(cipher, account.refreshToken.value, account.keyVersion);
        if refreshToken.Err? {
          return Err(Undecryptable);
        }
        if answer.ExchangeFails? {
          return Err(ReconnectRequired);
        }
        var encryptedRefresh := Encrypt(cipher, refreshToken.value);
        var encryptedAccess := Encrypt(cipher, answer.accessToken);
        account := account.(refreshToken := Some(encryptedRefresh.ciphertext));
        account := account.(accessToken := Some(encryptedAccess.ciphertext));
        account := account.(keyVersion := encryptedAccess.keyVersion);
        account := account.(expiresAt := answer.expiresAt);
        session := session.(mailboxes := session.mailboxes[id := account]);
        session := session.(outbox := session.outbox + [Record(TokenRefreshed, Some(id))]);
      }
      var unsealed := Decrypt(cipher, account.accessToken.value, account.keyVersion);
      if unsealed.Err? {
        return Err(Undecryptable);
      }
      if commits {
        db := session;
      }
      credential := Ok(unsealed.value);
    }

    method Delete(id: int, commits: bool) returns (r: Option<Error>)
      requires Valid()
      modifies this`db
      ensures Valid()
      ensures db == Transact(cipher, old(db), Op.Delete(Anyone, id), commits)
      ensures r == Raised(Body(cipher, old(db), Op.Delete(Anyone, id)))
    {
      TransactKeepsUnique(cipher, db, Op.Delete(Anyone, id), commits);
      var session := db;
      if id !in session.mailboxes {
        return Some(NotFound);
      }
      session := session.(mailboxes := session.mailboxes - {id});
      session := session.(outbox := session.outbox + [Record(AccountDelete, Some(id))]);
      if commits {
        db := session;
      }
      r := None;
    }

    method DeleteForUser(user: int, id: int, commits: bool) returns (r: Option<Error>)
      requires Valid()
      modifies this`db
      ensures Valid()
      ensures db == Transact(cipher, old(db), Op.Delete(User(user), id), commits)
      ensures r == Raised(Body(cipher, old(db), Op.Delete(User(user), id)))
    {
      TransactKeepsUnique(cipher, db, Op.Delete(User(user), id), commits);
      var session := db;
      if id !in session.mailboxes || session.mailboxes[id].userId != Some(user) {
        return Some(NotFound);
      }
      session := session.(mailboxes := session.mailboxes - {id});
      session := session.(outbox := session.outbox + [Record(AccountDelete, Some(id))]);
      if commits {
        db := session;
      }
      r := None;
    }

    /** The wrong code is counted on the session's copy, which the exception then discards. */
    method CompleteAppPasswordVerification(
      newId: int, user: int, vid: string, code: string, now: Instant, commits: bool) returns (r: Option<Error>)
      requires Valid()
      modifies this`db
      ensures Valid()
      ensures db == Transact(cipher, old(db), CompleteVerification(newId, user, vid, code, now), commits)
      ensures r == Raised(Body(cipher, old(db), CompleteVerification(newId, user, vid, code, now)))
    {
      TransactKeepsUnique(cipher, db, CompleteVerification(newId, user, vid, code, now), commits);
      var session := db;
      if vid !in session.verifications || session.verifications[vid].userId != user
         || !session.verifications[vid].status.Verifying?
      {
        return Some(NotFound);
      }
      var v := session.verifications[vid];
      if v.expiresAt <= now {
        session := session.(verifications := session.verifications[vid := v.(status := A.Expired)]);
        return Some(VerificationExpired);
      }
      if !A.CodeMatches(code, v.code) {
        v := v.(attempts := v.attempts + 1);
        if v.attempts >= 5 {
          v := v.(status := A.Failed);
        }
        session := session.(verifications := session.verifications[vid := v]);
        return Some(VerificationFailed);
      }
      var password := Decrypt(cipher, v.password.ciphertext, v.password.keyVersion);
      if password.Err? {
        return Some(Undecryptable);
      }
      var made := Created(cipher, session, newId, Some(user), v.name, v.email, v.provider, password.value);
      if made.Err? {
        return Some(made.error);
      }
      session := made.value;
      v := v.(mailboxId := Some(newId));
      v := v.(status := A.Verified);
      session := session.(verifications := session.verifications[vid := v]);
      session := session.(outbox := session.outbox + [Record(VerifyCompleted, Some(newId))]);
      if commits {
        db := session;
      }
      r := None;
    }
  }
}
