/**
  What each operation of the account service answers and does, told without the service's own look-ups: duplicates
  by the accounts there are, codes by the code handed in at the start. Each law holds in every reachable state.
*/
module AccountLaws {
  import opened Common
  import opened Crypto
  import opened Accounts
  import opened AccountRuns

  lemma {:induction false} ValidNameIff(name: string)
    ensures ValidName(name) <==>
              name != "" && forall c :: c in name ==>
                'A' <= c <= 'Z' || 'a' <= c <= 'z' || '0' <= c <= '9' || c == '-'
  {
    if ValidName(name) {
      assert forall c :: c in name ==> NameChar(c);
    } else if name != "" {
      var i :| 0 <= i < |name| && !NameChar(name[i]);
      assert name[i] in name;
    }
  }

  lemma {:induction false} ValidCodeIff(code: string)
    ensures ValidCode(code) <==> |code| == 6 && forall c :: c in code ==> '0' <= c <= '9'
  {
    if ValidCode(code) {
    } else if |code| == 6 {
      var i :| 0 <= i < 6 && !('0' <= code[i] <= '9');
      assert code[i] in code;
    }
  }

  /** Some account of the user, other than `besides`, has the name, or the e-mail. */
  ghost predicate NameUsed(b: Book, userId: Option<int>, name: string, besides: set<int>) {
    exists i :: i in b.accounts.Keys - besides && b.accounts[i].userId == userId && b.accounts[i].name == name
  }

  ghost predicate EmailUsed(b: Book, userId: Option<int>, email: string) {
    exists i :: i in b.accounts && b.accounts[i].userId == userId && b.accounts[i].email == email
  }

  lemma {:induction false} LookUpsAreRight(b: Book, userId: Option<int>, name: string, email: string)
    requires Sound(b)
    ensures Named(b, userId, name).Some? <==> NameUsed(b, userId, name, {})
    ensures Mailed(b, userId, email).Some? <==> EmailUsed(b, userId, email)
    ensures forall i :: i in b.accounts && b.accounts[i].userId == userId && b.accounts[i].name == name ==>
              Named(b, userId, name) == Some(b.accounts[i])
    ensures forall i :: i in b.accounts && b.accounts[i].userId == userId && b.accounts[i].email == email ==>
              Mailed(b, userId, email) == Some(b.accounts[i])
  {
    NamedFinds(b, userId, name, 1);
    MailedFinds(b, userId, email, 1);
    hide FirstNamed, FirstMailed;
    assert forall i :: i in b.accounts ==> 1 <= i < b.nextId;
  }

  // ----- Creating --------------------------------------------------------------------------------------------------

  /** The refusals in the order of the checks; a refusal changes nothing, and a success adds one account. */
  lemma {:induction false} CreateAnswers(
    c: Cipher, ops: seq<Op>, userId: Option<int>, name: string, email: string, provider: string, password: string)
    ensures var b := Run(c, EMPTY, ops);
            var (b', r) := Created(c, b, userId, name, email, provider, password);
            && (r == Err(InvalidName) <==> !ValidName(name))
            && (r == Err(DuplicateEmail) <==> ValidName(name) && EmailUsed(b, userId, email))
            && (r == Err(DuplicateName) <==>
                  ValidName(name) && !EmailUsed(b, userId, email) && NameUsed(b, userId, name, {}))
            && (r == Err(UnsupportedProvider) <==>
                  ValidName(name) && !EmailUsed(b, userId, email) && !NameUsed(b, userId, name, {})
                  && provider != "gmail")
            && (r.Ok? <==>
                  ValidName(name) && !EmailUsed(b, userId, email) && !NameUsed(b, userId, name, {})
                  && provider == "gmail")
            && (r.Err? ==> b' == b)
            && (r.Ok? ==>
                  var a := r.value;
                  && b.nextId !in b.accounts && a.id == b.nextId && b'.nextId == b.nextId + 1
                  && b'.accounts == b.accounts[a.id := a] && b'.pending == b.pending
                  && a.userId == userId && a.name == name && a.email == email && a.provider == provider
                  && a.authType == AppPassword && a.refreshToken == None && a.accessToken == None
                  && a.password.Some? && Decrypt(c, a.password.value, a.keyVersion) == Ok(password))
  {
    var b := Run(c, EMPTY, ops);
    RunKeepsSound(c, EMPTY, ops, 0);
    LookUpsAreRight(b, userId, name, email);
    hide Named, Mailed, ValidName, NameUsed, EmailUsed, Run;
  }

  // ----- Verifying -------------------------------------------------------------------------------------------------

  lemma {:induction false} StartAnswers(
    c: Cipher, ops: seq<Op>, vid: string, userId: int, name: string, email: string, provider: string,
    password: string, code: string, expiresAt: Instant)
    ensures var b := Run(c, EMPTY, ops);
            var (b', r) := Started(c, b, vid, userId, name, email, provider, password, code, expiresAt);
            && (r == Err(InvalidName) <==> !ValidName(name))
            && (r == Err(DuplicateEmail) <==> ValidName(name) && EmailUsed(b, Some(userId), email))
            && (r == Err(DuplicateName) <==>
                  ValidName(name) && !EmailUsed(b, Some(userId), email) && NameUsed(b, Some(userId), name, {}))
            && (r == Err(InvalidCode) <==>
                  ValidName(name) && !EmailUsed(b, Some(userId), email) && !NameUsed(b, Some(userId), name, {})
                  && !ValidCode(code))
            && (r.Ok? <==>
                  ValidName(name) && !EmailUsed(b, Some(userId), email) && !NameUsed(b, Some(userId), name, {})
                  && ValidCode(code))
            && (r.Err? ==> b' == b)
            && (r.Ok? ==>
                  && b'.nextId == b.nextId && b'.accounts == b.accounts && b'.pending == b.pending[vid := r.value]
                  && r.value.status == Verifying && r.value.attempts == 0 && r.value.mailboxId == None)
  {
    var b := Run(c, EMPTY, ops);
    RunKeepsSound(c, EMPTY, ops, 0);
    LookUpsAreRight(b, Some(userId), name, email);
    hide Named, Mailed, ValidName, ValidCode, NameUsed, EmailUsed, Run;
  }

  /**
    From the moment a verification is submitted, whatever else happens: handing in a code for it is answered not
    found if it is another user's or settled; expired, and so settled, from its expiry on; and failed for every text
    but the very code submitted, which counts as one wrong code and the fifth time as failure. Nothing else changes.
   */
  lemma {:induction false} CompletionAnswers(
    c: Cipher, before: seq<Op>, start: Op, after: seq<Op>, user: int, code: string, now: Instant)
    requires start.Start? && FreshDraws(c, EMPTY, before)
    requires var b := Run(c, EMPTY, before);
             && start.vid !in b.pending && Apply(c, b, start).1 == Pending
             && FreshDraws(c, Apply(c, b, start).0, after)
    ensures var b := Run(c, Apply(c, Run(c, EMPTY, before), start).0, after);
            var (b', r) := Completed(c, b, user, start.vid, code, now);
            start.vid in b.pending
            && var v := b.pending[start.vid];
            && (r == Err(VerificationNotFound) <==> user != start.user || v.status != Verifying)
            && (r == Err(VerificationExpired) <==>
                  user == start.user && v.status == Verifying && start.expiresAt <= now)
            && (r == Err(VerificationFailed) <==>
                  user == start.user && v.status == Verifying && now < start.expiresAt && code != start.code)
            && (r == Err(VerificationNotFound) ==> b' == b)
            && (r == Err(VerificationExpired) ==>
                  b' == b.(pending := b.pending[start.vid := v.(status := Expired)]))
            && (r == Err(VerificationFailed) ==>
                  b' == b.(pending := b.pending[start.vid :=
                    v.(attempts := v.attempts + 1, status := if v.attempts == 4 then Failed else Verifying)]))
            && (r.Ok? ==> code == start.code)
  {
    VerificationLife(c, before, start, after, "");
    var b0 := Run(c, EMPTY, before);
    assert ValidCode(start.code);
    var b := Run(c, Apply(c, b0, start).0, after);
    var v := b.pending[start.vid];
    hide Run, Apply, FreshDraws, WrongCodes;
  }

  // ----- Connecting, renaming and deleting ---------------------------------------------------------------------------

  /** The stored tokens open to these texts, under the one key version of the account. */
  ghost predicate HoldsTokens(c: Cipher, a: Account, refresh: string, access: Option<string>) {
    && a.refreshToken.Some? && Decrypt(c, a.refreshToken.value, a.keyVersion) == Ok(refresh)
    && (a.accessToken.Some? <==> access.Some?)
    && (a.accessToken.Some? ==> Decrypt(c, a.accessToken.value, a.keyVersion) == Ok(access.value))
  }

  /**
    Connecting is refused for a bad name, an e-mail that an account of another name has, a name that an account of
    another kind or provider has, and, if the name is new, another provider than gmail. Otherwise it stores the
    e-mail and both tokens, and no password, in the account of that name or in a new one, and changes no other.
   */
  lemma {:induction false} ConnectAnswers(
    c: Cipher, ops: seq<Op>, user: int, name: string, email: string, provider: string, refresh: string,
    access: Option<string>, id: int)
    ensures var b := Run(c, EMPTY, ops);
            var (b', r) := Connected(c, b, user, name, email, provider, refresh, access);
            var existing := id in b.accounts && b.accounts[id].userId == Some(user) && b.accounts[id].name == name;
            var elsewhere := exists i :: i in b.accounts && b.accounts[i].userId == Some(user)
                                         && b.accounts[i].email == email && b.accounts[i].name != name;
            && (r == Err(InvalidName) <==> !ValidName(name))
            && (r == Err(DuplicateEmail) <==> ValidName(name) && elsewhere)
            && (existing ==>
                  var was := b.accounts[id];
                  && (r.Ok? <==>
                        ValidName(name) && !elsewhere && was.authType == OAuth2 && was.provider == provider)
                  && (r.Ok? ==>
                        && b'.accounts == b.accounts[id := r.value] && b'.nextId == b.nextId
                        && r.value.id == was.id && r.value.provider == was.provider))
            && (!NameUsed(b, Some(user), name, {}) ==>
                  && (r.Ok? <==> ValidName(name) && !elsewhere && provider == "gmail")
                  && (r.Ok? ==>
                        && b.nextId !in b.accounts && r.value.id == b.nextId && r.value.provider == provider
                        && b'.accounts == b.accounts[b.nextId := r.value] && b'.nextId == b.nextId + 1))
            && (r.Err? ==> b' == b)
            && (r.Ok? ==>
                  && b'.pending == b.pending
                  && r.value.userId == Some(user) && r.value.name == name && r.value.email == email
                  && r.value.authType == OAuth2 && r.value.password == None
                  && HoldsTokens(c, r.value, refresh, access))
  {
    var b := Run(c, EMPTY, ops);
    RunKeepsSound(c, EMPTY, ops, 0);
    LookUpsAreRight(b, Some(user), name, email);
    MailedElsewhere(b, user, name, email);
    hide ValidName, NameUsed, EmailUsed, Run, FirstNamed, FirstMailed, Unique;
  }

  lemma MailedElsewhere(b: Book, user: int, name: string, email: string)
    requires Sound(b)
    ensures (Mailed(b, Some(user), email).Some? && Mailed(b, Some(user), email).value.name != name)
            <==> exists i :: i in b.accounts && b.accounts[i].userId == Some(user)
                             && b.accounts[i].email == email && b.accounts[i].name != name
  {
    LookUpsAreRight(b, Some(user), name, email);
    MailedFinds(b, Some(user), email, 1);
  }

  /** Renaming gives the user's account its new name and changes nothing else, or is refused and changes nothing. */
  lemma {:induction false} RenameAnswers(c: Cipher, ops: seq<Op>, user: int, id: int, name: string)
    ensures var b := Run(c, EMPTY, ops);
            var (b', r) := Renamed(b, user, id, name);
            var own := id in b.accounts && b.accounts[id].userId == Some(user);
            && (r == Err(InvalidName) <==> !ValidName(name))
            && (r == Err(AccountNotFound) <==> ValidName(name) && !own)
            && (r == Err(DuplicateName) <==> ValidName(name) && own && NameUsed(b, Some(user), name, {id}))
            && (r.Ok? <==> ValidName(name) && own && !NameUsed(b, Some(user), name, {id}))
            && (r.Err? ==> b' == b)
            && (r.Ok? ==>
                  && b' == b.(accounts := b.accounts[id := r.value])
                  && r.value.name == name && r.value.(name := b.accounts[id].name) == b.accounts[id])
  {
    var b := Run(c, EMPTY, ops);
    RunKeepsSound(c, EMPTY, ops, 0);
    OtherFinds(b, user, id, name, 1);
    hide ValidName, Run, NamedByOther;
  }

  /** Deleting removes the user's account, and no other, or is refused and changes nothing. */
  lemma {:induction false} DeleteAnswers(b: Book, user: int, id: int)
    ensures var (b', r) := Deleted(b, user, id);
            var own := id in b.accounts && b.accounts[id].userId == Some(user);
            && (r.Ok? <==> own) && (r == Err(AccountNotFound) <==> !own)
            && (r.Err? ==> b' == b)
            && b'.nextId == b.nextId && b'.pending == b.pending
            && (forall i :: i in b'.accounts <==> i in b.accounts && !(own && i == id))
            && (forall i :: i in b'.accounts ==> b'.accounts[i] == b.accounts[i])
  {
  }
}
