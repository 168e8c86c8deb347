/**
  The account service: mailboxes of users, their names and e-mails, and the verification of app passwords.
  Each operation is a function on the service's state, and the service below it, which changes its
  dictionaries in place, is proved to compute that function.
*/
module Accounts {
  import opened Common
  import opened Crypto

  datatype AuthType = AppPassword | OAuth2

  datatype Account = Account(
    id: int, userId: Option<int>, name: string, email: string, provider: string, authType: AuthType,
    password: Option<Sealed>, keyVersion: nat, refreshToken: Option<Sealed>, accessToken: Option<Sealed>)

  datatype Status = Verifying | Verified | Failed | Expired

  /** What a user submits for verification; the code is kept as an ideal hash. */
  datatype Submission = Submission(
    userId: int, name: string, email: string, provider: string, password: Encrypted, code: string, expiresAt: Instant)

  datatype Verification = Verification(
    submitted: Submission, mailboxId: Option<int>, attempts: nat, status: Status)

  datatype Book = Book(nextId: int, accounts: map<int, Account>, pending: map<string, Verification>)

  datatype Error =
    | InvalidName
    | InvalidCode
    | DuplicateEmail
    | DuplicateName
    | UnsupportedProvider
    | AccountNotFound
    | VerificationNotFound
    | VerificationExpired
    | VerificationFailed
    | Undecryptable

  const EMPTY := Book(1, map[], map[])

  // ----- Validation ---------------------------------------------------------------------------------------------

  predicate NameChar(c: char) {
    'A' <= c <= 'Z' || 'a' <= c <= 'z' || '0' <= c <= '9' || c == '-'
  }

  predicate ValidName(name: string) {
    name != "" && forall i :: 0 <= i < |name| ==> NameChar(name[i])
  }

  predicate ValidCode(code: string) {
    |code| == 6 && forall i :: 0 <= i < 6 ==> '0' <= code[i] <= '9'
  }

  /** The code is compared by its hash; a malformed one never matches. */
  predicate CodeMatches(code: string, hashed: string) {
    ValidCode(code) && code == hashed
  }

  // ----- Looking accounts up, in the order they were created ------------------------------------------------------

  predicate IsNamed(a: Account, userId: Option<int>, name: string) {
    a.userId == userId && a.name == name
  }

  predicate IsMailed(a: Account, userId: Option<int>, email: string) {
    a.userId == userId && a.email == email
  }

  function FirstNamed(b: Book, userId: Option<int>, name: string, from: int): Option<Account>
    decreases b.nextId - from
  {
    if from >= b.nextId then None
    else if from in b.accounts && IsNamed(b.accounts[from], userId, name) then Some(b.accounts[from])
    else FirstNamed(b, userId, name, from + 1)
  }

  function FirstMailed(b: Book, userId: Option<int>, email: string, from: int): Option<Account>
    decreases b.nextId - from
  {
    if from >= b.nextId then None
    else if from in b.accounts && IsMailed(b.accounts[from], userId, email) then Some(b.accounts[from])
    else FirstMailed(b, userId, email, from + 1)
  }

  function Named(b: Book, userId: Option<int>, name: string): Option<Account> {
    FirstNamed(b, userId, name, 1)
  }

  function Mailed(b: Book, userId: Option<int>, email: string): Option<Account> {
    FirstMailed(b, userId, email, 1)
  }

  function Owned(b: Book, userId: int, id: int): Option<Account> {
    if id in b.accounts && b.accounts[id].userId == Some(userId) then Some(b.accounts[id]) else None
  }

  // ----- The operations --------------------------------------------------------------------------------------------

  function PasswordAccount(
    id: int, userId: Option<int>, name: string, email: string, provider: string, e: Encrypted): Account
  {
    Account(id, userId, name, email, provider, AppPassword, Some(e.ciphertext), e.keyVersion, None, None)
  }

  function Added(b: Book, a: Account): Book {
    b.(nextId := b.nextId + 1, accounts := b.accounts[b.nextId := a])
  }

  function CreateError(b: Book, userId: Option<int>, name: string, email: string, provider: string): Option<Error> {
    if !ValidName(name) then Some(InvalidName)
    else if Mailed(b, userId, email).Some? then Some(DuplicateEmail)
    else if Named(b, userId, name).Some? then Some(DuplicateName)
    else if provider != "gmail" then Some(UnsupportedProvider)
    else None
  }

  function Created(
    c: Cipher, b: Book, userId: Option<int>, name: string, email: string, provider: string, password: string)
    : (Book, Result<Account, Error>)
  {
    var error := CreateError(b, userId, name, email, provider);
    if error.Some? then (b, Err(error.value))
    else
      var a := PasswordAccount(b.nextId, userId, name, email, provider, Encrypt(c, password));
      (Added(b, a), Ok(a))
  }

  function StartError(b: Book, userId: int, name: string, email: string, code: string): Option<Error> {
    if !ValidName(name) then Some(InvalidName)
    else if Mailed(b, Some(userId), email).Some? then Some(DuplicateEmail)
    else if Named(b, Some(userId), name).Some? then Some(DuplicateName)
    else if !ValidCode(code) then Some(InvalidCode)
    else None
  }

  /** `vid` is the random id drawn for the new verification. */
  function Started(
    c: Cipher, b: Book, vid: string, userId: int, name: string, email: string, provider: string, password: string,
    code: string, expiresAt: Instant): (Book, Result<Verification, Error>)
  {
    var error := StartError(b, userId, name, email, code);
    if error.Some? then (b, Err(error.value))
    else
      var v := Verification(
        Submission(userId, name, email, provider, Encrypt(c, password), code, expiresAt), None, 0, Verifying);
      (b.(pending := b.pending[vid := v]), Ok(v))
  }

  function Refiled(b: Book, vid: string, v: Verification): Book {
    b.(pending := b.pending[vid := v])
  }

  function WithWrongCode(v: Verification): Verification {
    v.(attempts := v.attempts + 1, status := if v.attempts + 1 >= 5 then Failed else v.status)
  }

  function Completed(c: Cipher, b: Book, userId: int, vid: string, code: string, now: Instant)
    : (Book, Result<Account, Error>)
  {
    if vid !in b.pending || b.pending[vid].submitted.userId != userId || !b.pending[vid].status.Verifying? then
      (b, Err(VerificationNotFound))
    else
      var v := b.pending[vid];
      var s := v.submitted;
      if s.expiresAt <= now then (Refiled(b, vid, v.(status := Expired)), Err(VerificationExpired))
      else if !CodeMatches(code, s.code) then (Refiled(b, vid, WithWrongCode(v)), Err(VerificationFailed))
      else
        var password := Decrypt(c, s.password.ciphertext, s.password.keyVersion);
        if password.Err? then (b, Err(Undecryptable))
        else
          var (b', made) := Created(c, b, Some(userId), s.name, s.email, s.provider, password.value);
          if made.Err? then (b', made)
          else (Refiled(b', vid, v.(mailboxId := Some(made.value.id), status := Verified)), made)
  }

  function Reconnected(a: Account, c: Cipher, email: string, refresh: string, access: Option<string>): Account {
    var sealedRefresh := Encrypt(c, refresh);
    a.(email := email, password := None, keyVersion := sealedRefresh.keyVersion,
       refreshToken := Some(sealedRefresh.ciphertext),
       accessToken := if access.Some? then Some(Encrypt(c, access.value).ciphertext) else None)
  }

  /** `email` is the canonical one: the address the provider reports, or else the one given. */
  function Connected(
    c: Cipher, b: Book, userId: int, name: string, email: string, provider: string, refresh: string,
    access: Option<string>): (Book, Result<Account, Error>)
  {
    var mailed := Mailed(b, Some(userId), email);
    var named := Named(b, Some(userId), name);
    if !ValidName(name) then (b, Err(InvalidName))
    else if mailed.Some? && mailed.value.name != name then (b, Err(DuplicateEmail))
    else if named.Some? then
      if !named.value.authType.OAuth2? || named.value.provider != provider then (b, Err(DuplicateName))
      else
        var a := Reconnected(named.value, c, email, refresh, access);
        (b.(accounts := b.accounts[a.id := a]), Ok(a))
    else if provider != "gmail" then (b, Err(UnsupportedProvider))
    else
      var blank := Account(b.nextId, Some(userId), name, email, provider, OAuth2, None, 0, None, None);
      var a := Reconnected(blank, c, email, refresh, access);
      (Added(b, a), Ok(a))
  }

  function Renamed(b: Book, userId: int, id: int, name: string): (Book, Result<Account, Error>) {
    if !ValidName(name) then (b, Err(InvalidName))
    else if Owned(b, userId, id).None? then (b, Err(AccountNotFound))
    else if NamedByOther(b, userId, id, name, 1) then (b, Err(DuplicateName))
    else
      var a := b.accounts[id].(name := name);
      (b.(accounts := b.accounts[id := a]), Ok(a))
  }

  predicate NamedByOther(b: Book, userId: int, id: int, name: string, from: int)
    decreases b.nextId - from
  {
    from < b.nextId &&
    ((from in b.accounts && from != id && IsNamed(b.accounts[from], Some(userId), name))
     || NamedByOther(b, userId, id, name, from + 1))
  }

  function Deleted(b: Book, userId: int, id: int): (Book, Result<Account, Error>) {
    if Owned(b, userId, id).None? then (b, Err(AccountNotFound))
    else (b.(accounts := b.accounts - {id}), Ok(b.accounts[id]))
  }

  class AccountService {
    const cipher: Cipher
    var nextId: int
    var accounts: map<int, Account>
    var pendingVerifications: map<string, Verification>

    ghost function State(): Book
      reads this
    {
      Book(nextId, accounts, pendingVerifications)
    }

    constructor (cipher: Cipher)
      ensures State() == EMPTY && this.cipher == cipher
    {
      this.cipher := cipher;
      nextId := 1;
      accounts := map[];
      pendingVerifications := map[];
    }

    method FindNamed(userId: Option<int>, name: string) returns (a: Option<Account>)
      ensures a == Named(State(), userId, name)
    {
      var id := 1;
      while id < nextId
        invariant FirstNamed(State(), userId, name, id) == Named(State(), userId, name)
      {
        if id in accounts && IsNamed(accounts[id], userId, name) {
          return Some(accounts[id]);
        }
        id := id + 1;
      }
      a := None;
    }

    method FindMailed(userId: Option<int>, email: string) returns (a: Option<Account>)
      ensures a == Mailed(State(), userId, email)
    {
      var id := 1;
      while id < nextId
        invariant FirstMailed(State(), userId, email, id) == Mailed(State(), userId, email)
      {
        if id in accounts && IsMailed(accounts[id], userId, email) {
          return Some(accounts[id]);
        }
        id := id + 1;
      }
      a := None;
    }

    method Create(userId: Option<int>, name: string, email: string, provider: string, password: string)
      returns (r: Result<Account, Error>)
      modifies this
      ensures (State(), r) == Created(cipher, old(State()), userId, name, email, provider, password)
    {
      if !ValidName(name) {
        return Err(InvalidName);
      }
      var mailed := FindMailed(userId, email);
      if mailed.Some? {
        return Err(DuplicateEmail);
      }
      var named := FindNamed(userId, name);
      if named.Some? {
        return Err(DuplicateName);
      }
      if provider != "gmail" {
        return Err(UnsupportedProvider);
      }
      var account := PasswordAccount(nextId, userId, name, email, provider, Encrypt(cipher, password));
      accounts := accounts[nextId := account];
      nextId := nextId + 1;
      r := Ok(account);
    }

    method StartAppPasswordVerification(
      vid: string, userId: int, name: string, email: string, provider: string, password: string, code: string,
      expiresAt: Instant) returns (r: Result<Verification, Error>)
      modifies this`pendingVerifications
      ensures (State(), r)
           == Started(cipher, old(State()), vid, userId, name, email, provider, password, code, expiresAt)
    {
      if !ValidName(name) {
        return Err(InvalidName);
      }
      var mailed := FindMailed(Some(userId), email);
      if mailed.Some? {
        return Err(DuplicateEmail);
      }
      var named := FindNamed(Some(userId), name);
      if named.Some? {
        return Err(DuplicateName);
      }
      if !ValidCode(code) {
        return Err(InvalidCode);
      }
      var submitted := Submission(userId, name, email, provider, Encrypt(cipher, password), code, expiresAt);
      var verification := Verification(submitted, None, 0, Verifying);
      pendingVerifications := pendingVerifications[vid := verification];
      r := Ok(verification);
    }

    method CompleteAppPasswordVerification(userId: int, vid: string, code: string, now: Instant)
      returns (r: Result<Account, Error>)
      modifies this
      ensures (State(), r) == Completed(cipher, old(State()), userId, vid, code, now)
    {
      if vid !in pendingVerifications || pendingVerifications[vid].submitted.userId != userId
         || !pendingVerifications[vid].status.Verifying?
      {
        return Err(VerificationNotFound);
      }
      var verification := pendingVerifications[vid];
      if verification.submitted.expiresAt <= now {
        verification := verification.(status := Expired);
        pendingVerifications := pendingVerifications[vid := verification];
        return Err(VerificationExpired);
      }
      if !CodeMatches(code, verification.submitted.code) {
        verification := verification.(attempts := verification.attempts + 1);
        if verification.attempts >= 5 {
          verification := verification.(status := Failed);
        }
        pendingVerifications := pendingVerifications[vid := verification];
        return Err(VerificationFailed);
      }
      var s := verification.submitted;
      var password := Decrypt(cipher, s.password.ciphertext, s.password.keyVersion);
      if password.Err? {
        return Err(Undecryptable);
      }
      r := Create(Some(userId), s.name, s.email, s.provider, password.value);
      if r.Ok? {
        verification := verification.(mailboxId := Some(r.value.id));
        verification := verification.(status := Verified);
        pendingVerifications := pendingVerifications[vid := verification];
      }
    }

    method CreateWithOauth(
      userId: int, name: string, email: string, provider: string, refresh: string, access: Option<string>)
      returns (r: Result<Account, Error>)
      modifies this
      ensures (State(), r) == Connected(cipher, old(State()), userId, name, email, provider, refresh, access)
    {
      if !ValidName(name) {
        return Err(InvalidName);
      }
      var mailed := FindMailed(Some(userId), email);
      if mailed.Some? && mailed.value.name != name {
        return Err(DuplicateEmail);
      }
      var existing := FindNamed(Some(userId), name);
      if existing.Some? {
        if !existing.value.authType.OAuth2? || existing.value.provider != provider {
          return Err(DuplicateName);
        }
        var updated := Reconnected(existing.value, cipher, email, refresh, access);
        accounts := accounts[updated.id := updated];
        return Ok(updated);
      }
      if provider != "gmail" {
        return Err(UnsupportedProvider);
      }
      var blank := Account(nextId, Some(userId), name, email, provider, OAuth2, None, 0, None, None);
      var account := Reconnected(blank, cipher, email, refresh, access);
      accounts := accounts[nextId := account];
      nextId := nextId + 1;
      r := Ok(account);
    }

    method UpdateNameForUser(userId: int, id: int, name: string) returns (r: Result<Account, Error>)
      modifies this`accounts
      ensures (State(), r) == Renamed(old(State()), userId, id, name)
    {
      if !ValidName(name) {
        return Err(InvalidName);
      }
      if id !in accounts || accounts[id].userId != Some(userId) {
        return Err(AccountNotFound);
      }
      var other := 1;
      while other < nextId
        invariant NamedByOther(State(), userId, id, name, other) == NamedByOther(State(), userId, id, name, 1)
      {
        if other in accounts && other != id && IsNamed(accounts[other], Some(userId), name) {
          return Err(DuplicateName);
        }
        other := other + 1;
      }
      accounts := accounts[id := accounts[id].(name := name)];
      r := Ok(accounts[id]);
    }

    method DeleteForUser(userId: int, id: int) returns (r: Result<Account, Error>)
      modifies this`accounts
      ensures (State(), r) == Deleted(old(State()), userId, id)
    {
      if id !in accounts || accounts[id].userId != Some(userId) {
        return Err(AccountNotFound);
      }
      r := Ok(accounts[id]);
      accounts := accounts - {id};
    }
  }
}
