/** What every run of the account service keeps: uniqueness, fresh ids, and the life of a verification. */
module AccountRuns {
  import opened Common
  import opened Crypto
  import opened Accounts

  datatype Op =
    | Create(userId: Option<int>, name: string, email: string, provider: string, password: string)
    | Start(
        vid: string, user: int, name: string, email: string, provider: string, password: string, code: string,
        expiresAt: Instant)
    | Complete(user: int, vid: string, code: string, now: Instant)
    | Connect(user: int, name: string, email: string, provider: string, refresh: string, access: Option<string>)
    | Rename(user: int, id: int, name: string)
    | Delete(user: int, id: int)

  datatype Reply = Gave(account: Account) | Pending | Refused(error: Error)

  function ReplyOf(r: Result<Account, Error>): Reply {
    if r.Ok? then Gave(r.value) else Refused(r.error)
  }

  function Apply(c: Cipher, b: Book, op: Op): (Book, Reply) {
    match op
    case Create(userId, name, email, provider, password) =>
      var (b', r) := Created(c, b, userId, name, email, provider, password);
      (b', ReplyOf(r))
    case Start(vid, user, name, email, provider, password, code, expiresAt) =>
      var (b', r) := Started(c, b, vid, user, name, email, provider, password, code, expiresAt);
      (b', if r.Ok? then Pending else Refused(r.error))
    case Complete(user, vid, code, now) =>
      var (b', r) := Completed(c, b, user, vid, code, now);
      (b', ReplyOf(r))
    case Connect(user, name, email, provider, refresh, access) =>
      var (b', r) := Connected(c, b, user, name, email, provider, refresh, access);
      (b', ReplyOf(r))
    case Rename(user, id, name) =>
      var (b', r) := Renamed(b, user, id, name);
      (b', ReplyOf(r))
    case Delete(user, id) =>
      var (b', r) := Deleted(b, user, id);
      (b', ReplyOf(r))
  }

  function Run(c: Cipher, b: Book, ops: seq<Op>): Book
    decreases |ops|
  {
    if ops == [] then b else Run(c, Apply(c, b, ops[0]).0, ops[1..])
  }

  /** The random ids drawn for verifications do not repeat. */
  ghost predicate FreshDraws(c: Cipher, b: Book, ops: seq<Op>)
    decreases |ops|
  {
    ops != [] ==>
      && (ops[0].Start? ==> ops[0].vid !in b.pending)
      && FreshDraws(c, Apply(c, b, ops[0]).0, ops[1..])
  }

  // ----- Accounts -------------------------------------------------------------------------------------------------

  /** No two accounts of a user share a name or an e-mail. */
  ghost predicate Unique(b: Book) {
    forall i, j :: i in b.accounts && j in b.accounts && i != j && b.accounts[i].userId == b.accounts[j].userId ==>
      b.accounts[i].name != b.accounts[j].name && b.accounts[i].email != b.accounts[j].email
  }

  ghost predicate Numbered(b: Book) {
    b.nextId >= 1 && forall i :: i in b.accounts ==> 1 <= i < b.nextId && b.accounts[i].id == i
  }

  /** Id `id` was given out and its account is gone. */
  predicate Gone(b: Book, id: int) {
    id < b.nextId && id !in b.accounts
  }

  lemma {:induction false} NamedFinds(b: Book, userId: Option<int>, name: string, from: int)
    ensures var found := FirstNamed(b, userId, name, from);
            && (found.Some? ==> exists i :: i in b.accounts && b.accounts[i] == found.value
                                            && IsNamed(b.accounts[i], userId, name))
            && (found.None? ==> forall i :: from <= i < b.nextId && i in b.accounts ==>
                                            !IsNamed(b.accounts[i], userId, name))
    decreases b.nextId - from
  {
    if from < b.nextId && !(from in b.accounts && IsNamed(b.accounts[from], userId, name)) {
      NamedFinds(b, userId, name, from + 1);
    }
  }

  lemma {:induction false} MailedFinds(b: Book, userId: Option<int>, email: string, from: int)
    ensures var found := FirstMailed(b, userId, email, from);
            && (found.Some? ==> exists i :: i in b.accounts && b.accounts[i] == found.value
                                            && IsMailed(b.accounts[i], userId, email))
            && (found.None? ==> forall i :: from <= i < b.nextId && i in b.accounts ==>
                                            !IsMailed(b.accounts[i], userId, email))
    decreases b.nextId - from
  {
    if from < b.nextId && !(from in b.accounts && IsMailed(b.accounts[from], userId, email)) {
      MailedFinds(b, userId, email, from + 1);
    }
  }

  lemma {:induction false} OtherFinds(b: Book, userId: int, id: int, name: string, from: int)
    ensures NamedByOther(b, userId, id, name, from) <==>
            exists i :: from <= i < b.nextId && i != id && i in b.accounts && IsNamed(b.accounts[i], Some(userId), name)
    decreases b.nextId - from
  {
    if from < b.nextId {
      OtherFinds(b, userId, id, name, from + 1);
    }
  }

  ghost predicate Sound(b: Book) {
    Numbered(b) && Unique(b)
  }

  lemma {:induction false} AddingKeepsSound(b: Book, a: Account)
    requires Sound(b) && a.id == b.nextId
    requires Named(b, a.userId, a.name).None? && Mailed(b, a.userId, a.email).None?
    ensures Sound(Added(b, a))
  {
    NamedFinds(b, a.userId, a.name, 1);
    MailedFinds(b, a.userId, a.email, 1);
    assert forall i :: i in b.accounts ==>
      !IsNamed(b.accounts[i], a.userId, a.name) && !IsMailed(b.accounts[i], a.userId, a.email);
  }

  lemma {:induction false} ConnectKeepsSound(
    c: Cipher, b: Book, user: int, name: string, email: string, provider: string, refresh: string,
    access: Option<string>)
    requires Sound(b)
    ensures Sound(Connected(c, b, user, name, email, provider, refresh, access).0)
  {
    NamedFinds(b, Some(user), name, 1);
    MailedFinds(b, Some(user), email, 1);
    var (b', r) := Connected(c, b, user, name, email, provider, refresh, access);
    if r.Ok? && Named(b, Some(user), name).None? {
      AddingKeepsSound(b, r.value);
    }
  }

  lemma {:induction false} RenameKeepsSound(b: Book, user: int, id: int, name: string)
    requires Sound(b)
    ensures Sound(Renamed(b, user, id, name).0)
  {
    OtherFinds(b, user, id, name, 1);
    assert forall i :: i in b.accounts && i != id && IsNamed(b.accounts[i], Some(user), name) ==>
      NamedByOther(b, user, id, name, 1);
  }

  lemma {:induction false} CreateKeepsSound(
    c: Cipher, b: Book, userId: Option<int>, name: string, email: string, provider: string, password: string)
    requires Sound(b)
    ensures Sound(Created(c, b, userId, name, email, provider, password).0)
  {
    if CreateError(b, userId, name, email, provider).None? {
      AddingKeepsSound(b, PasswordAccount(b.nextId, userId, name, email, provider, Encrypt(c, password)));
    }
  }

  lemma {:induction false} CompleteKeepsSound(c: Cipher, b: Book, user: int, vid: string, code: string, now: Instant)
    requires Sound(b)
    ensures Sound(Completed(c, b, user, vid, code, now).0)
  {
    if vid in b.pending {
      var s := b.pending[vid].submitted;
      var password := Decrypt(c, s.password.ciphertext, s.password.keyVersion);
      if password.Ok? {
        CreateKeepsSound(c, b, Some(user), s.name, s.email, s.provider, password.value);
      }
    }
  }

  /** Every operation keeps the books sound, never steps the id counter back, and revives no deleted id. */
  lemma {:induction false} StepKeepsSound(c: Cipher, b: Book, op: Op)
    requires Sound(b)
    ensures Sound(Apply(c, b, op).0)
    ensures b.nextId <= Apply(c, b, op).0.nextId
    ensures forall id :: Gone(b, id) ==> Gone(Apply(c, b, op).0, id)
  {
    match op {
      case Create(userId, name, email, provider, password) =>
        CreateKeepsSound(c, b, userId, name, email, provider, password);
      case Start(_, _, _, _, _, _, _, _) =>
      case Complete(user, vid, code, now) => CompleteKeepsSound(c, b, user, vid, code, now);
      case Connect(user, name, email, provider, refresh, access) =>
        ConnectKeepsSound(c, b, user, name, email, provider, refresh, access);
        NamedFinds(b, Some(user), name, 1);
      case Rename(user, id, name) => RenameKeepsSound(b, user, id, name);
      case Delete(user, id) =>
    }
  }

  lemma {:induction false} RunKeepsSound(c: Cipher, b: Book, ops: seq<Op>, id: int)
    requires Sound(b)
    ensures Sound(Run(c, b, ops)) && b.nextId <= Run(c, b, ops).nextId
    ensures Gone(b, id) ==> Gone(Run(c, b, ops), id)
    decreases |ops|
  {
    hide Sound, Apply;
    if ops == [] {
    } else {
      StepKeepsSound(c, b, ops[0]);
      RunKeepsSound(c, Apply(c, b, ops[0]).0, ops[1..], id);
    }
  }

  /** In every run names and e-mails are unique per user, and an id once deleted never names an account again. */
  lemma {:induction false} AccountsAreUniqueAndFresh(c: Cipher, ops: seq<Op>, more: seq<Op>, id: int)
    requires Gone(Run(c, EMPTY, ops), id)
    ensures Unique(Run(c, EMPTY, ops))
    ensures id !in Run(c, Run(c, EMPTY, ops), more).accounts
  {
    RunKeepsSound(c, EMPTY, ops, id);
    RunKeepsSound(c, Run(c, EMPTY, ops), more, id);
  }

  // ----- Verifications --------------------------------------------------------------------------------------------

  /** Failed exactly at five wrong codes, verified exactly with a mailbox, and the password still opens. */
  ghost predicate Regular(c: Cipher, v: Verification, nextId: int) {
    && v.attempts <= 5
    && (v.status.Failed? <==> v.attempts == 5)
    && (v.status.Verified? <==> v.mailboxId.Some?)
    && (v.mailboxId.Some? ==> v.mailboxId.value < nextId)
    && v.submitted.password == Encrypt(c, v.submitted.password.ciphertext.plaintext)
  }

  ghost predicate Orderly(c: Cipher, b: Book) {
    && (forall vid :: vid in b.pending ==> Regular(c, b.pending[vid], b.nextId))
    && (forall v, w :: v in b.pending && w in b.pending && v != w && b.pending[v].mailboxId.Some? ==>
          b.pending[v].mailboxId != b.pending[w].mailboxId)
  }

  /** What one operation may do to a verification: nothing once it is settled, and never touch the submission. */
  ghost predicate Settles(before: Verification, after: Verification) {
    && after.submitted == before.submitted
    && before.attempts <= after.attempts
    && (!before.status.Verifying? ==> after == before)
  }

  predicate IsWrongCode(op: Op, reply: Reply, vid: string) {
    op.Complete? && op.vid == vid && reply == Refused(VerificationFailed)
  }

  lemma {:induction false} StepSettles(c: Cipher, b: Book, op: Op, vid: string)
    requires vid in b.pending && (op.Start? ==> op.vid !in b.pending)
    ensures vid in Apply(c, b, op).0.pending
    ensures Settles(b.pending[vid], Apply(c, b, op).0.pending[vid])
    ensures Apply(c, b, op).0.pending[vid].attempts
         == b.pending[vid].attempts + if IsWrongCode(op, Apply(c, b, op).1, vid) then 1 else 0
  {
  }

  lemma {:induction false} CompleteKeepsOrderly(c: Cipher, b: Book, user: int, vid: string, code: string, now: Instant)
    requires Orderly(c, b)
    ensures Orderly(c, Completed(c, b, user, vid, code, now).0)
  {
    if vid in b.pending {
      assert Regular(c, b.pending[vid], b.nextId);
    }
  }

  lemma {:induction false} StepKeepsOrderly(c: Cipher, b: Book, op: Op)
    requires Orderly(c, b) && (op.Start? ==> op.vid !in b.pending)
    ensures Orderly(c, Apply(c, b, op).0)
  {
    match op {
      case Complete(user, vid, code, now) => CompleteKeepsOrderly(c, b, user, vid, code, now);
      case _ =>
    }
  }

  function WrongCodes(c: Cipher, b: Book, ops: seq<Op>, vid: string): nat
    decreases |ops|
  {
    if ops == [] then 0
    else
      var (b', reply) := Apply(c, b, ops[0]);
      (if IsWrongCode(ops[0], reply, vid) then 1 else 0) + WrongCodes(c, b', ops[1..], vid)
  }

  lemma {:induction false} RunSettles(c: Cipher, b: Book, ops: seq<Op>, vid: string)
    requires vid in b.pending && FreshDraws(c, b, ops)
    ensures vid in Run(c, b, ops).pending
    ensures Settles(b.pending[vid], Run(c, b, ops).pending[vid])
    ensures Run(c, b, ops).pending[vid].attempts == b.pending[vid].attempts + WrongCodes(c, b, ops, vid)
    decreases |ops|
  {
    hide Apply, IsWrongCode;
    if ops == [] {
    } else {
      StepSettles(c, b, ops[0], vid);
      RunSettles(c, Apply(c, b, ops[0]).0, ops[1..], vid);
    }
  }

  lemma {:induction false} RunKeepsOrderly(c: Cipher, b: Book, ops: seq<Op>)
    requires Orderly(c, b) && FreshDraws(c, b, ops)
    ensures Orderly(c, Run(c, b, ops))
    decreases |ops|
  {
    hide Apply, Orderly;
    if ops == [] {
    } else {
      StepKeepsOrderly(c, b, ops[0]);
      RunKeepsOrderly(c, Apply(c, b, ops[0]).0, ops[1..]);
    }
  }

  /**
    From the moment it is submitted, whatever else happens: a verification takes at most five wrong codes and has
    failed exactly after the fifth; it is verified exactly when it has a mailbox; its submission never changes;
    and no two verifications share a mailbox.
   */
  lemma {:induction false} VerificationLife(
    c: Cipher, before: seq<Op>, start: Op, after: seq<Op>, other: string)
    requires start.Start? && FreshDraws(c, EMPTY, before)
    requires var b := Run(c, EMPTY, before);
             && start.vid !in b.pending && Apply(c, b, start).1 == Pending
             && FreshDraws(c, Apply(c, b, start).0, after)
    ensures var b1 := Apply(c, Run(c, EMPTY, before), start).0;
            var b2 := Run(c, b1, after);
            && start.vid in b2.pending
            && var v := b2.pending[start.vid];
            && v.attempts == WrongCodes(c, b1, after, start.vid) <= 5
            && (v.status.Failed? <==> v.attempts == 5)
            && (v.status.Verified? <==> v.mailboxId.Some?)
            && v.submitted == Submission(
                 start.user, start.name, start.email, start.provider, Encrypt(c, start.password), start.code,
                 start.expiresAt)
            && (v.mailboxId.Some? && other in b2.pending && other != start.vid ==>
                  b2.pending[other].mailboxId != v.mailboxId)
  {
    var b := Run(c, EMPTY, before);
    var b1 := Apply(c, b, start).0;
    RunKeepsOrderly(c, EMPTY, before);
    StepKeepsOrderly(c, b, start);
    RunKeepsOrderly(c, b1, after);
    RunSettles(c, b1, after, start.vid);
    assert Regular(c, Run(c, b1, after).pending[start.vid], Run(c, b1, after).nextId);
  }

  /** A settled verification stays exactly as it is. */
  lemma {:induction false} SettledForEver(c: Cipher, b: Book, ops: seq<Op>, vid: string)
    requires vid in b.pending && FreshDraws(c, b, ops) && !b.pending[vid].status.Verifying?
    ensures vid in Run(c, b, ops).pending && Run(c, b, ops).pending[vid] == b.pending[vid]
  {
    RunSettles(c, b, ops, vid);
  }

  /**
    A completion succeeds exactly when the verification is open, in time, met with its code, and its name and
    e-mail are still free; and then it makes a new account with the name, e-mail and password submitted.
   */
  lemma {:induction false} CompletionMakesTheAccount(
    c: Cipher, ops: seq<Op>, user: int, vid: string, code: string, now: Instant)
    requires FreshDraws(c, EMPTY, ops)
    ensures var b := Run(c, EMPTY, ops);
            var (b', r) := Completed(c, b, user, vid, code, now);
            && (r.Ok? <==>
                  && vid in b.pending
                  && var v := b.pending[vid];
                  && v.submitted.userId == user && v.status.Verifying? && now < v.submitted.expiresAt
                  && ValidCode(code) && code == v.submitted.code
                  && CreateError(b, Some(user), v.submitted.name, v.submitted.email, v.submitted.provider).None?)
            && (r.Ok? ==>
                  var s := b.pending[vid].submitted;
                  && r.value.id == b.nextId && b.nextId !in b.accounts
                  && b'.accounts == b.accounts[b.nextId := r.value]
                  && b'.pending[vid] == b.pending[vid].(mailboxId := Some(b.nextId), status := Verified)
                  && r.value.name == s.name && r.value.email == s.email && r.value.userId == Some(user)
                  && r.value.password.Some?
                  && Decrypt(c, r.value.password.value, r.value.keyVersion) == Ok(s.password.ciphertext.plaintext))
  {
    RunKeepsOrderly(c, EMPTY, ops);
    RunKeepsSound(c, EMPTY, ops, 0);
    var b := Run(c, EMPTY, ops);
    if vid in b.pending {
      assert Regular(c, b.pending[vid], b.nextId);
    }
  }
}
