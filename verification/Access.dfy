/**
  What an API key can reach. Discovery lists accounts; every other route takes an account's name. The two agree,
  and a key made for one mailbox never reaches another, not even one that later takes its name.
*/
module Access {
  import opened Common
  import opened Crypto
  import opened Accounts
  import opened AccountRuns

  datatype ApiKey = ApiKey(userId: int, mailboxId: Option<int>, scopes: set<string>, enabled: bool)

  datatype Gateway = Gateway(book: Book, keys: map<int, ApiKey>, nextKeyId: int)

  datatype Action =
    | OnAccounts(op: Op)
    | CreateKey(user: int, mailboxId: Option<int>, scopes: set<string>)
    | SetKeyStatus(user: int, keyId: int, enabled: bool)
    | DeleteKey(user: int, keyId: int)

  datatype AccessError = AuthInvalid | ScopeForbidden | NotFound

  const START := Gateway(EMPTY, map[], 1)

  predicate OwnsKey(g: Gateway, user: int, keyId: int) {
    keyId in g.keys && g.keys[keyId].userId == user
  }

  /** A key for one mailbox is only made for a mailbox of its user; no scopes means reading. */
  function Perform(c: Cipher, g: Gateway, action: Action): Gateway {
    match action
    case OnAccounts(op) => g.(book := Apply(c, g.book, op).0)
    case CreateKey(user, mailboxId, scopes) =>
      if mailboxId.Some? && Owned(g.book, user, mailboxId.value).None? then g
      else
        var key := ApiKey(user, mailboxId, if scopes == {} then {"read"} else scopes, true);
        g.(keys := g.keys[g.nextKeyId := key], nextKeyId := g.nextKeyId + 1)
    case SetKeyStatus(user, keyId, enabled) =>
      if OwnsKey(g, user, keyId) then g.(keys := g.keys[keyId := g.keys[keyId].(enabled := enabled)]) else g
    case DeleteKey(user, keyId) => if OwnsKey(g, user, keyId) then g.(keys := g.keys - {keyId}) else g
  }

  function Performed(c: Cipher, g: Gateway, actions: seq<Action>): Gateway
    decreases |actions|
  {
    if actions == [] then g else Performed(c, Perform(c, g, actions[0]), actions[1..])
  }

  /** `require_mailbox_access` for the bearer of key `keyId`. */
  function Reach(g: Gateway, keyId: int, name: string, scope: string): Result<Account, AccessError> {
    if keyId !in g.keys || !g.keys[keyId].enabled then Err(AuthInvalid)
    else
      var key := g.keys[keyId];
      var account := Named(g.book, Some(key.userId), name);
      if scope !in key.scopes then Err(ScopeForbidden)
      else if account.None? then Err(NotFound)
      else if key.mailboxId.Some? && key.mailboxId.value != account.value.id then Err(NotFound)
      else Ok(account.value)
  }

  function AccountsOf(b: Book, user: int, from: int): seq<Account>
    decreases b.nextId - from
  {
    if from >= b.nextId then []
    else
      (if from in b.accounts && b.accounts[from].userId == Some(user) then [b.accounts[from]] else [])
      + AccountsOf(b, user, from + 1)
  }

  function OnlyMailbox(accounts: seq<Account>, id: int): seq<Account> {
    if accounts == [] then []
    else (if accounts[0].id == id then [accounts[0]] else []) + OnlyMailbox(accounts[1..], id)
  }

  /** GET /mailboxes for the bearer of key `keyId`. */
  function Discover(g: Gateway, keyId: int): Result<seq<Account>, AccessError> {
    if keyId !in g.keys || !g.keys[keyId].enabled then Err(AuthInvalid)
    else
      var key := g.keys[keyId];
      var accounts := AccountsOf(g.book, key.userId, 1);
      Ok(if key.mailboxId.Some? then OnlyMailbox(accounts, key.mailboxId.value) else accounts)
  }

  ghost predicate Listed(g: Gateway, keyId: int, a: Account) {
    Discover(g, keyId).Ok? && a in Discover(g, keyId).value
  }

  lemma {:induction false} AccountsOfIsExact(b: Book, user: int, from: int, a: Account)
    requires Numbered(b)
    ensures a in AccountsOf(b, user, from) <==>
            a.id in b.accounts && a.id >= from && b.accounts[a.id] == a && a.userId == Some(user)
    decreases b.nextId - from
  {
    if from < b.nextId {
      AccountsOfIsExact(b, user, from + 1, a);
    }
  }

  lemma {:induction false} OnlyMailboxIsExact(accounts: seq<Account>, id: int, a: Account)
    ensures a in OnlyMailbox(accounts, id) <==> a in accounts && a.id == id
  {
    if accounts == [] {
    } else {
      OnlyMailboxIsExact(accounts[1..], id, a);
    }
  }

  ghost predicate KeysNumbered(g: Gateway) {
    forall k :: k in g.keys ==>
      k < g.nextKeyId && (g.keys[k].mailboxId.Some? ==> g.keys[k].mailboxId.value < g.book.nextId)
  }

  ghost predicate InOrder(g: Gateway) {
    Sound(g.book) && KeysNumbered(g)
  }

  lemma {:induction false} PerformKeepsOrder(c: Cipher, g: Gateway, action: Action)
    requires InOrder(g)
    ensures InOrder(Perform(c, g, action))
    ensures forall id :: Gone(g.book, id) ==> Gone(Perform(c, g, action).book, id)
  {
    hide Apply, Unique;
    if action.OnAccounts? {
      StepKeepsSound(c, g.book, action.op);
    }
  }

  /** The owner, the mailbox and the scopes of a key never change, and its id is never given to another key. */
  ghost predicate KeyBound(g: Gateway, keyId: int, key: ApiKey) {
    && keyId < g.nextKeyId
    && (keyId in g.keys ==> g.keys[keyId].(enabled := key.enabled) == key)
  }

  lemma {:induction false} RunKeepsOrder(c: Cipher, g: Gateway, actions: seq<Action>, mailbox: int)
    requires InOrder(g)
    ensures InOrder(Performed(c, g, actions))
    ensures Gone(g.book, mailbox) ==> Gone(Performed(c, g, actions).book, mailbox)
    decreases |actions|
  {
    hide InOrder, Apply, Gone;
    if actions == [] {
    } else {
      PerformKeepsOrder(c, g, actions[0]);
      RunKeepsOrder(c, Perform(c, g, actions[0]), actions[1..], mailbox);
    }
  }

  lemma {:induction false} RunKeepsBound(c: Cipher, g: Gateway, actions: seq<Action>, keyId: int, key: ApiKey)
    requires KeyBound(g, keyId, key)
    ensures KeyBound(Performed(c, g, actions), keyId, key)
    decreases |actions|
  {
    hide Apply;
    if actions == [] {
    } else {
      RunKeepsBound(c, Perform(c, g, actions[0]), actions[1..], keyId, key);
    }
  }

  lemma {:induction false} NameLeadsBack(b: Book, a: Account, user: int)
    requires Sound(b)
    ensures Named(b, Some(user), a.name) == Some(a) <==>
            a.id in b.accounts && b.accounts[a.id] == a && a.userId == Some(user)
  {
    NamedFinds(b, Some(user), a.name, 1);
  }

  ghost predicate Ascending(accounts: seq<Account>) {
    forall i, j :: 0 <= i < j < |accounts| ==> accounts[i].id < accounts[j].id
  }

  lemma AscendingCons(a: Account, rest: seq<Account>)
    requires Ascending(rest) && forall b :: b in rest ==> a.id < b.id
    ensures Ascending([a] + rest)
  {
    assert forall i :: 0 <= i < |rest| ==> rest[i] in rest;
  }

  lemma {:induction false} AccountsAscend(b: Book, user: int, from: int)
    requires Numbered(b)
    ensures Ascending(AccountsOf(b, user, from))
    ensures forall a :: a in AccountsOf(b, user, from) ==> a.id >= from
    decreases b.nextId - from
  {
    hide Ascending;
    if from < b.nextId {
      AccountsAscend(b, user, from + 1);
      var rest := AccountsOf(b, user, from + 1);
      if from in b.accounts && b.accounts[from].userId == Some(user) {
        AscendingCons(b.accounts[from], rest);
      } else {
        assert [] + rest == rest;
      }
    } else {
      NoneAscend();
    }
  }

  lemma NoneAscend()
    ensures Ascending([])
  {
  }

  lemma {:induction false} OnlyMailboxAscends(accounts: seq<Account>, id: int)
    requires Ascending(accounts)
    ensures Ascending(OnlyMailbox(accounts, id))
  {
    if accounts == [] {
    } else {
      var first, rest := accounts[0], OnlyMailbox(accounts[1..], id);
      OnlyMailboxAscends(accounts[1..], id);
      forall b | b in rest
        ensures first.id < b.id
      {
        OnlyMailboxIsExact(accounts[1..], id, b);
        var i :| 0 <= i < |accounts| - 1 && accounts[1..][i] == b;
        assert accounts[i + 1] == b;
      }
      AscendingCons(first, rest);
      hide Ascending;
      assert OnlyMailbox(accounts, id) == if first.id == id then [first] + rest else rest by {
        assert [] + rest == rest;
      }
    }
  }

  /** Accounts are listed in the order they were created, each once. */
  lemma {:induction false} ListedInOrder(c: Cipher, actions: seq<Action>, keyId: int)
    ensures var r := Discover(Performed(c, START, actions), keyId);
            r.Ok? ==> forall i, j :: 0 <= i < j < |r.value| ==> r.value[i].id < r.value[j].id
  {
    var g := Performed(c, START, actions);
    RunKeepsOrder(c, START, actions, 0);
    if keyId in g.keys {
      AccountsAscend(g.book, g.keys[keyId].userId, 1);
      if g.keys[keyId].mailboxId.Some? {
        OnlyMailboxAscends(AccountsOf(g.book, g.keys[keyId].userId, 1), g.keys[keyId].mailboxId.value);
      }
    }
    hide Performed, AccountsOf, OnlyMailbox;
  }

  lemma {:induction false} ListedIsReached(g: Gateway, keyId: int, a: Account)
    requires Sound(g.book) && keyId in g.keys
    ensures Reach(g, keyId, a.name, "read") == Ok(a) <==> Listed(g, keyId, a) && "read" in g.keys[keyId].scopes
  {
    var key := g.keys[keyId];
    AccountsOfIsExact(g.book, key.userId, 1, a);
    NameLeadsBack(g.book, a, key.userId);
    if key.mailboxId.Some? {
      OnlyMailboxIsExact(AccountsOf(g.book, key.userId, 1), key.mailboxId.value, a);
    }
  }

  /** Discovery lists an account exactly when asking for that account by its name returns that very account. */
  ghost predicate Agrees(g: Gateway, keyId: int) {
    forall a: Account :: Listed(g, keyId, a) <==> Reach(g, keyId, a.name, "read") == Ok(a)
  }

  /** No account of the key's owner is within the reach of the key. */
  ghost predicate OwnerHasNone(g: Gateway, key: ApiKey) {
    forall id :: id in g.book.accounts ==>
      g.book.accounts[id].userId != Some(key.userId) || (key.mailboxId.Some? && id != key.mailboxId.value)
  }

  lemma {:induction false} ListsNothingIff(g: Gateway, keyId: int)
    requires Sound(g.book) && keyId in g.keys && g.keys[keyId].enabled
    ensures (forall a: Account :: !Listed(g, keyId, a)) <==> OwnerHasNone(g, g.keys[keyId])
  {
    var key := g.keys[keyId];
    forall a: Account
      ensures Listed(g, keyId, a) <==>
                a.id in g.book.accounts && g.book.accounts[a.id] == a && a.userId == Some(key.userId)
                && (key.mailboxId.Some? ==> a.id == key.mailboxId.value)
    {
      AccountsOfIsExact(g.book, key.userId, 1, a);
      if key.mailboxId.Some? {
        OnlyMailboxIsExact(AccountsOf(g.book, key.userId, 1), key.mailboxId.value, a);
      }
    }
    hide Listed, Unique;
    if !OwnerHasNone(g, key) {
      var id :| id in g.book.accounts && g.book.accounts[id].userId == Some(key.userId)
                && (key.mailboxId.Some? ==> id == key.mailboxId.value);
      assert Listed(g, keyId, g.book.accounts[id]);
    }
  }

  /**
    In every run, for every key: discovery and access by name agree exactly when the key is absent or disabled, or
    may read, or its owner has no account within its reach. Discovery itself looks at no scope.
   */
  lemma {:induction false} DiscoveryAgreesWithAccess(c: Cipher, actions: seq<Action>, keyId: int)
    ensures var g := Performed(c, START, actions);
            Agrees(g, keyId) <==>
              (keyId in g.keys && g.keys[keyId].enabled ==>
                 "read" in g.keys[keyId].scopes || OwnerHasNone(g, g.keys[keyId]))
  {
    var g := Performed(c, START, actions);
    RunKeepsOrder(c, START, actions, 0);
    if keyId in g.keys {
      forall a: Account
        ensures Reach(g, keyId, a.name, "read") == Ok(a) <==> Listed(g, keyId, a) && "read" in g.keys[keyId].scopes
      {
        ListedIsReached(g, keyId, a);
      }
      if g.keys[keyId].enabled {
        ListsNothingIff(g, keyId);
        hide Reach, Listed, OwnerHasNone, Sound;
      }
    }
  }

  /** Whatever comes after a key is made, it reaches only mailboxes of its owner, its own mailbox and its scopes. */
  lemma {:induction false} KeyNeverWidens(
    c: Cipher, actions: seq<Action>, more: seq<Action>, keyId: int, name: string, scope: string)
    requires keyId in Performed(c, START, actions).keys
    ensures var key := Performed(c, START, actions).keys[keyId];
            var reached := Reach(Performed(c, Performed(c, START, actions), more), keyId, name, scope);
            reached.Ok? ==>
              && reached.value.userId == Some(key.userId) && reached.value.name == name && scope in key.scopes
              && (key.mailboxId.Some? ==> reached.value.id == key.mailboxId.value)
  {
    var g := Performed(c, START, actions);
    var key := g.keys[keyId];
    RunKeepsOrder(c, START, actions, 0);
    RunKeepsBound(c, g, more, keyId, key);
    var g' := Performed(c, g, more);
    NamedFinds(g'.book, Some(key.userId), name, 1);
  }

  /** Once the mailbox of a key is deleted, the key reaches nothing for ever, under any name and for any scope. */
  lemma {:induction false} KeyDiesWithItsMailbox(
    c: Cipher, actions: seq<Action>, more: seq<Action>, keyId: int, mailbox: int, name: string, scope: string)
    requires var g := Performed(c, START, actions);
             keyId in g.keys && g.keys[keyId].mailboxId == Some(mailbox) && Gone(g.book, mailbox)
    ensures var g := Performed(c, Performed(c, START, actions), more);
            Reach(g, keyId, name, scope).Err? && forall a :: !Listed(g, keyId, a)
  {
    var g := Performed(c, START, actions);
    RunKeepsOrder(c, START, actions, mailbox);
    RunKeepsOrder(c, g, more, mailbox);
    RunKeepsBound(c, g, more, keyId, g.keys[keyId]);
    var g' := Performed(c, g, more);
    if keyId in g'.keys {
      var key := g'.keys[keyId];
      NamedFinds(g'.book, Some(key.userId), name, 1);
      forall a
        ensures !Listed(g', keyId, a)
      {
        AccountsOfIsExact(g'.book, key.userId, 1, a);
        OnlyMailboxIsExact(AccountsOf(g'.book, key.userId, 1), mailbox, a);
      }
    }
  }

  // ----- What each operation on keys does ----------------------------------------------------------------------------

  /** A key is made with the mailbox and the scopes asked for, reading if none, unless the mailbox is not the user's. */
  lemma {:induction false} CreateKeyAnswers(
    c: Cipher, actions: seq<Action>, user: int, mailboxId: Option<int>, scopes: set<string>)
    ensures var g := Performed(c, START, actions);
            var g' := Perform(c, g, CreateKey(user, mailboxId, scopes));
            var allowed := mailboxId.None? || (mailboxId.value in g.book.accounts
                                               && g.book.accounts[mailboxId.value].userId == Some(user));
            && g.nextKeyId !in g.keys && g'.book == g.book
            && (!allowed ==> g' == g)
            && (allowed ==>
                  && g'.nextKeyId == g.nextKeyId + 1
                  && g'.keys == g.keys[g.nextKeyId :=
                       ApiKey(user, mailboxId, if scopes == {} then {"read"} else scopes, true)])
  {
    RunKeepsOrder(c, START, actions, 0);
  }

  /** Only the owner switches a key or deletes it, and that key only. */
  lemma {:induction false} KeyChangeAnswers(c: Cipher, g: Gateway, user: int, keyId: int, enabled: bool)
    ensures var own := keyId in g.keys && g.keys[keyId].userId == user;
            && Perform(c, g, SetKeyStatus(user, keyId, enabled))
               == (if own then g.(keys := g.keys[keyId := g.keys[keyId].(enabled := enabled)]) else g)
            && Perform(c, g, DeleteKey(user, keyId)).book == g.book
            && (forall k :: k in Perform(c, g, DeleteKey(user, keyId)).keys <==> k in g.keys && !(own && k == keyId))
            && (forall k :: k in Perform(c, g, DeleteKey(user, keyId)).keys ==>
                  Perform(c, g, DeleteKey(user, keyId)).keys[k] == g.keys[k])
  {
  }

  /**
    In every run: a key that is missing or disabled is not let in at all; one without the scope is forbidden; and
    otherwise it reaches exactly the account of its owner with that name, if that is within the key's reach.
   */
  lemma {:induction false} ReachAnswers(
    c: Cipher, actions: seq<Action>, keyId: int, name: string, scope: string, a: Account)
    ensures var g := Performed(c, START, actions);
            var r := Reach(g, keyId, name, scope);
            && (r == Err(AuthInvalid) <==> !(keyId in g.keys && g.keys[keyId].enabled))
            && (r == Err(ScopeForbidden) <==>
                  keyId in g.keys && g.keys[keyId].enabled && scope !in g.keys[keyId].scopes)
            && (r == Ok(a) <==>
                  && keyId in g.keys && g.keys[keyId].enabled && scope in g.keys[keyId].scopes
                  && a.id in g.book.accounts && g.book.accounts[a.id] == a
                  && a.userId == Some(g.keys[keyId].userId) && a.name == name
                  && (g.keys[keyId].mailboxId.Some? ==> g.keys[keyId].mailboxId.value == a.id))
  {
    var g := Performed(c, START, actions);
    RunKeepsOrder(c, START, actions, 0);
    if keyId in g.keys {
      NamedFinds(g.book, Some(g.keys[keyId].userId), name, 1);
    }
    hide Performed, FirstNamed;
  }

  predicate Enables(action: Action, keyId: int) {
    action.SetKeyStatus? && action.keyId == keyId && action.enabled
  }

  lemma {:induction false} DisabledStays(c: Cipher, g: Gateway, actions: seq<Action>, keyId: int)
    requires keyId < g.nextKeyId && (keyId in g.keys ==> !g.keys[keyId].enabled)
    requires forall i :: 0 <= i < |actions| ==> !Enables(actions[i], keyId)
    ensures var last := Performed(c, g, actions); keyId in last.keys ==> !last.keys[keyId].enabled
    decreases |actions|
  {
    hide Apply;
    if actions == [] {
    } else {
      assert !Enables(actions[0], keyId);
      DisabledStays(c, Perform(c, g, actions[0]), actions[1..], keyId);
    }
  }

  /** A key that is disabled or deleted reaches and lists nothing, until its owner enables it again. */
  lemma {:induction false} DisabledKeyIsDead(
    c: Cipher, actions: seq<Action>, more: seq<Action>, keyId: int, name: string, scope: string)
    requires var g := Performed(c, START, actions); keyId < g.nextKeyId && (keyId in g.keys ==> !g.keys[keyId].enabled)
    requires forall i :: 0 <= i < |more| ==> !Enables(more[i], keyId)
    ensures var last := Performed(c, Performed(c, START, actions), more);
            Reach(last, keyId, name, scope) == Err(AuthInvalid) && Discover(last, keyId) == Err(AuthInvalid)
  {
    DisabledStays(c, Performed(c, START, actions), more, keyId);
  }
}
