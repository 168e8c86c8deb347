/**
  Listing messages page by page, newest first, while the mailbox changes under the reader.

  A page is one SEARCH (section 6.4.4 of RFC 3501) on a mailbox whose messages stand in strictly ascending UID
  order (section 2.3.1.1 of RFC 3501), read backwards and cut off at the limit. The cursor handed back is the
  last UID of a full page; the next page asks for smaller UIDs only.
*/
module Pagination {
  import opened Common

  datatype Message = Message(uid: nat, seen: bool, sender: string, day: int)

  ghost predicate Ascending(ms: seq<Message>) {
    && (forall i :: 0 <= i < |ms| ==> ms[i].uid >= 1)
    && (forall i, j :: 0 <= i < j < |ms| ==> ms[i].uid < ms[j].uid)
  }

  ghost predicate Descending(ms: seq<Message>) {
    forall i, j :: 0 <= i < j < |ms| ==> ms[i].uid > ms[j].uid
  }

  /** One state of a folder. */
  type Folder = ms: seq<Message> | Ascending(ms) witness []

  /** The cursor text of a request: absent, a number, or something `int` does not read. */
  datatype Cursor = NoCursor | Uid(number: int) | NotANumber

  /** The filters of a request; an empty address is no filter. */
  datatype Filter = Filter(unreadOnly: bool, since: Option<int>, before: Option<int>, fromAddress: string)

  datatype Criterion =
    | All
    | UidRange(first: int, last: int)
    | NoUid
    | Unseen
    | Since(day: int)
    | Before(day: int)
    | From(address: string)

  datatype ListError = MessageNotFound

  // ----- The request ------------------------------------------------------------------------------------------

  function UidNumber(c: Cursor): Result<int, ListError> {
    if c.Uid? && c.number > 0 then Ok(c.number) else Err(MessageNotFound)
  }

  predicate Good(c: Cursor) {
    c.NoCursor? || UidNumber(c).Ok?
  }

  function AddIf(parts: seq<Criterion>, given: bool, c: Criterion): seq<Criterion> {
    if given then parts + [c] else parts
  }

  function UidCriterion(number: int): Criterion {
    if number > 1 then UidRange(1, number - 1) else NoUid
  }

  /** The SEARCH keys of a request whose cursor is good. */
  function CriteriaOf(f: Filter, c: Cursor): seq<Criterion> {
    var parts := AddIf([All], c.Uid?, if c.Uid? then UidCriterion(c.number) else NoUid);
    var unread := AddIf(parts, f.unreadOnly, Unseen);
    var since := AddIf(unread, f.since.Some?, Since(f.since.GetOr(0)));
    var before := AddIf(since, f.before.Some?, Before(f.before.GetOr(0)));
    AddIf(before, f.fromAddress != "", From(f.fromAddress))
  }

  /** Builds the SEARCH keys part by part, as the adapter does; a bad cursor is reported as a missing message. */
  method Criteria(f: Filter, c: Cursor) returns (r: Result<seq<Criterion>, ListError>)
    ensures r == if Good(c) then Ok(CriteriaOf(f, c)) else Err(MessageNotFound)
  {
    var parts := [All];
    if !c.NoCursor? {
      var cursor := UidNumber(c);
      if cursor.Err? {
        return Err(cursor.error);
      }
      if cursor.value > 1 {
        parts := parts + [UidRange(1, cursor.value - 1)];
      } else {
        parts := parts + [NoUid];
      }
    }
    if f.unreadOnly {
      parts := parts + [Unseen];
    }
    if f.since.Some? {
      parts := parts + [Since(f.since.value)];
    }
    if f.before.Some? {
      parts := parts + [Before(f.before.value)];
    }
    if f.fromAddress != "" {
      parts := parts + [From(f.fromAddress)];
    }
    r := Ok(parts);
  }

  // ----- The server -------------------------------------------------------------------------------------------

  predicate Meets(m: Message, c: Criterion) {
    match c
    case All => true
    case UidRange(first, last) => first <= m.uid <= last
    case NoUid => false
    case Unseen => !m.seen
    case Since(day) => m.day >= day
    case Before(day) => m.day < day
    case From(address) => Contains(m.sender, address)
  }

  predicate MeetsAll(m: Message, parts: seq<Criterion>) {
    parts == [] || (MeetsAll(m, parts[..|parts| - 1]) && Meets(m, parts[|parts| - 1]))
  }

  /** SEARCH: the matching messages, in UID order. */
  function Search(ms: seq<Message>, parts: seq<Criterion>): seq<Message> {
    if ms == [] then []
    else
      var n := |ms| - 1;
      Search(ms[..n], parts) + if MeetsAll(ms[n], parts) then [ms[n]] else []
  }

  function Reversed(ms: seq<Message>): seq<Message> {
    if ms == [] then [] else [ms[|ms| - 1]] + Reversed(ms[..|ms| - 1])
  }

  function Prefix(ms: seq<Message>, limit: nat): seq<Message> {
    if |ms| <= limit then ms else ms[..limit]
  }

  /** The page for a request whose cursor is good: search, reverse, cut off. */
  function PageOf(folder: seq<Message>, f: Filter, limit: nat, c: Cursor): seq<Message> {
    Prefix(Reversed(Search(folder, CriteriaOf(f, c))), limit)
  }

  method ListMessages(folder: Folder, f: Filter, limit: nat, c: Cursor) returns (r: Result<seq<Message>, ListError>)
    ensures r == if Good(c) then Ok(PageOf(folder, f, limit, c)) else Err(MessageNotFound)
    ensures r.Err? <==> c.NotANumber? || (c.Uid? && c.number <= 0)
  {
    var criteria := Criteria(f, c);
    if criteria.Err? {
      return Err(criteria.error);
    }
    var mails := Reversed(Search(folder, criteria.value));
    r := Ok(Prefix(mails, limit));
  }

  function NextCursor(messages: seq<Message>, limit: int): Cursor {
    if |messages| < limit || messages == [] then NoCursor else Uid(messages[|messages| - 1].uid)
  }

  // ----- What a page contains -----------------------------------------------------------------------------------

  /** What the filters ask for, leaving the cursor aside. */
  predicate Wanted(m: Message, f: Filter) {
    && (f.unreadOnly ==> !m.seen)
    && (f.since.Some? ==> m.day >= f.since.value)
    && (f.before.Some? ==> m.day < f.before.value)
    && (f.fromAddress != "" ==> Contains(m.sender, f.fromAddress))
  }

  predicate Below(m: Message, c: Cursor) {
    c.Uid? ==> m.uid < c.number
  }

  lemma MeetsAllAddIf(m: Message, parts: seq<Criterion>, given: bool, c: Criterion)
    ensures MeetsAll(m, AddIf(parts, given, c)) <==> MeetsAll(m, parts) && (given ==> Meets(m, c))
  {
    assert (parts + [c])[..|parts|] == parts;
  }

  lemma MeetsAllOne(m: Message, c: Criterion)
    ensures MeetsAll(m, [c]) <==> Meets(m, c)
  {
    assert [c][..0] == [];
  }

  lemma {:induction false} KeysSelectWanted(m: Message, f: Filter, c: Cursor)
    requires m.uid >= 1 && Good(c)
    ensures MeetsAll(m, CriteriaOf(f, c)) <==> Wanted(m, f) && Below(m, c)
  {
    hide MeetsAll;
    var uid := if c.Uid? then UidCriterion(c.number) else NoUid;
    MeetsAllOne(m, All);
    var parts := AddIf([All], c.Uid?, uid);
    var unread := AddIf(parts, f.unreadOnly, Unseen);
    var since := AddIf(unread, f.since.Some?, Since(f.since.GetOr(0)));
    var before := AddIf(since, f.before.Some?, Before(f.before.GetOr(0)));
    MeetsAllAddIf(m, [All], c.Uid?, uid);
    MeetsAllAddIf(m, parts, f.unreadOnly, Unseen);
    MeetsAllAddIf(m, unread, f.since.Some?, Since(f.since.GetOr(0)));
    MeetsAllAddIf(m, since, f.before.Some?, Before(f.before.GetOr(0)));
    MeetsAllAddIf(m, before, f.fromAddress != "", From(f.fromAddress));
  }

  /** What the SEARCH keys of a request ask for, filter by filter. */
  lemma {:induction false} CriteriaMean(m: Message, f: Filter, c: Cursor)
    requires m.uid >= 1 && Good(c)
    ensures MeetsAll(m, CriteriaOf(f, c)) <==>
              && (f.unreadOnly ==> !m.seen)
              && (f.since.Some? ==> f.since.value <= m.day)
              && (f.before.Some? ==> m.day < f.before.value)
              && (f.fromAddress != "" ==> exists i: nat :: SliceAt(m.sender, f.fromAddress, i))
              && (c.Uid? ==> m.uid < c.number)
  {
    hide MeetsAll, Contains, SliceAt;
    KeysSelectWanted(m, f, c);
    ContainsIff(m.sender, f.fromAddress);
  }

  /** The wanted messages below a cursor, newest first. */
  function Newest(ms: seq<Message>, f: Filter, c: Cursor): seq<Message> {
    if ms == [] then []
    else
      var n := |ms| - 1;
      (if Wanted(ms[n], f) && Below(ms[n], c) then [ms[n]] else []) + Newest(ms[..n], f, c)
  }

  lemma ReversedStep(ms: seq<Message>, m: Message)
    ensures Reversed(ms + [m]) == [m] + Reversed(ms)
  {
    assert (ms + [m])[..|ms|] == ms;
  }

  lemma SearchStep(ms: seq<Message>, parts: seq<Criterion>)
    requires ms != []
    ensures var n := |ms| - 1;
            Search(ms, parts) == if MeetsAll(ms[n], parts) then Search(ms[..n], parts) + [ms[n]]
                                 else Search(ms[..n], parts)
  {
    assert Search(ms[..|ms| - 1], parts) + [] == Search(ms[..|ms| - 1], parts);
  }

  lemma SearchOfNothing(f: Filter, c: Cursor)
    requires Good(c)
    ensures Reversed(Search([], CriteriaOf(f, c))) == Newest([], f, c)
  {
  }

  lemma {:induction false} SearchFindsNewest(ms: seq<Message>, f: Filter, c: Cursor)
    requires Ascending(ms) && Good(c)
    ensures Reversed(Search(ms, CriteriaOf(f, c))) == Newest(ms, f, c)
  {
    hide Search, Newest, Wanted, Below, Reversed, CriteriaOf, MeetsAll;
    if ms == [] {
      SearchOfNothing(f, c);
    } else {
      var n := |ms| - 1;
      SearchFindsNewest(ms[..n], f, c);
      SearchStep(ms, CriteriaOf(f, c));
      KeysSelectWanted(ms[n], f, c);
      NewestStep(ms, f, c);
      ReversedStep(Search(ms[..n], CriteriaOf(f, c)), ms[n]);
    }
  }

  lemma NewestStep(ms: seq<Message>, f: Filter, c: Cursor)
    requires ms != []
    ensures var n := |ms| - 1;
            Newest(ms, f, c)
            == if Wanted(ms[n], f) && Below(ms[n], c) then [ms[n]] + Newest(ms[..n], f, c) else Newest(ms[..n], f, c)
  {
    assert [] + Newest(ms[..|ms| - 1], f, c) == Newest(ms[..|ms| - 1], f, c);
  }

  lemma InLast(ms: seq<Message>, m: Message)
    requires ms != []
    ensures m in ms <==> m in ms[..|ms| - 1] || m == ms[|ms| - 1]
  {
    assert ms == ms[..|ms| - 1] + [ms[|ms| - 1]];
  }

  lemma {:induction false} NewestHas(ms: seq<Message>, f: Filter, c: Cursor, m: Message)
    ensures m in Newest(ms, f, c) <==> m in ms && Wanted(m, f) && Below(m, c)
  {
    if ms == [] {
    } else {
      var n := |ms| - 1;
      NewestHas(ms[..n], f, c, m);
      NewestStep(ms, f, c);
      InLast(ms, m);
      hide Newest, Wanted, Below;
    }
  }

  lemma EarlierIsSmaller(ms: seq<Message>, m: Message)
    requires Ascending(ms) && ms != [] && m in ms[..|ms| - 1]
    ensures m.uid < ms[|ms| - 1].uid
  {
    var k :| 0 <= k < |ms| - 1 && ms[..|ms| - 1][k] == m;
    assert ms[k] == m;
  }

  lemma DescendingCons(m: Message, older: seq<Message>)
    requires Descending(older) && forall i :: 0 <= i < |older| ==> older[i].uid < m.uid
    ensures Descending([m] + older)
  {
  }

  lemma {:induction false} NewestDescends(ms: seq<Message>, f: Filter, c: Cursor)
    requires Ascending(ms)
    ensures Descending(Newest(ms, f, c))
  {
    if ms == [] {
    } else {
      var n := |ms| - 1;
      var older := Newest(ms[..n], f, c);
      NewestStep(ms, f, c);
      NewestDescends(ms[..n], f, c);
      hide Newest, Wanted, Below, Descending;
      forall i | 0 <= i < |older|
        ensures older[i].uid < ms[n].uid
      {
        NewestHas(ms[..n], f, c, older[i]);
        EarlierIsSmaller(ms, older[i]);
      }
      DescendingCons(ms[n], older);
    }
  }

  /** `Newest` is all the wanted messages of the folder below the cursor, each once, newest first. */
  lemma {:induction false} NewestIsExact(ms: seq<Message>, f: Filter, c: Cursor)
    requires Ascending(ms)
    ensures Descending(Newest(ms, f, c))
    ensures forall m :: m in Newest(ms, f, c) <==> m in ms && Wanted(m, f) && Below(m, c)
  {
    hide Newest, Wanted, Below, Ascending, Descending;
    NewestDescends(ms, f, c);
    forall m
      ensures m in Newest(ms, f, c) <==> m in ms && Wanted(m, f) && Below(m, c)
    {
      NewestHas(ms, f, c, m);
    }
  }

  /** A page is the newest `limit` wanted messages below the cursor, in descending UID order, and no others. */
  ghost predicate NewestBelow(page: seq<Message>, folder: seq<Message>, f: Filter, limit: nat, c: Cursor) {
    && Descending(page)
    && |page| <= limit
    && (forall m :: m in page ==> m in folder && Wanted(m, f) && Below(m, c))
    && (forall m :: m in folder && Wanted(m, f) && Below(m, c) && m !in page ==>
          |page| == limit && (page != [] ==> m.uid < page[|page| - 1].uid))
  }

  lemma {:induction false} PrefixIsNewest(all: seq<Message>, limit: nat)
    requires Descending(all)
    ensures Descending(Prefix(all, limit)) && |Prefix(all, limit)| <= limit
    ensures forall m :: m in Prefix(all, limit) ==> m in all
    ensures forall m :: m in all && m !in Prefix(all, limit) ==>
              |Prefix(all, limit)| == limit && (limit > 0 ==> m.uid < Prefix(all, limit)[limit - 1].uid)
  {
  }

  lemma {:induction false} PageIsNewestBelow(folder: Folder, f: Filter, limit: nat, c: Cursor)
    requires Good(c)
    ensures NewestBelow(PageOf(folder, f, limit, c), folder, f, limit, c)
  {
    SearchFindsNewest(folder, f, c);
    NewestIsExact(folder, f, c);
    PrefixIsNewest(Newest(folder, f, c), limit);
  }

  // ----- Following the cursor over a changing mailbox -------------------------------------------------------------

  function Bound(c: Cursor): nat {
    if c.Uid? && c.number >= 0 then c.number else 0
  }

  lemma {:induction false} NextIsSmaller(folder: Folder, f: Filter, limit: nat, c: Cursor)
    requires Good(c) && limit >= 1
    ensures var next := NextCursor(PageOf(folder, f, limit, c), limit);
            next.NoCursor? || (next.Uid? && next.number >= 1 && (c.Uid? ==> next.number < c.number))
  {
    PageIsNewestBelow(folder, f, limit, c);
    var page := PageOf(folder, f, limit, c);
    assert page != [] ==> page[|page| - 1] in page;
  }

  /**
    All the pages a reader gets by following `next_cursor`. Fetch `k` finds the folder in state `folders(k)`;
    nothing is assumed about how one state follows another.
   */
  function Walk(folders: nat -> Folder, f: Filter, limit: nat, c: Cursor, k: nat): seq<seq<Message>>
    requires Good(c) && limit >= 1
    decreases c.NoCursor?, Bound(c)
  {
    var page := PageOf(folders(k), f, limit, c);
    var next := NextCursor(page, limit);
    NextIsSmaller(folders(k), f, limit, c);
    if next.NoCursor? then [page] else [page] + Walk(folders, f, limit, next, k + 1)
  }

  function Flat(pages: seq<seq<Message>>): seq<Message> {
    if pages == [] then [] else pages[0] + Flat(pages[1..])
  }

  lemma FlatOfCons(page: seq<Message>, rest: seq<seq<Message>>)
    ensures Flat([page] + rest) == page + Flat(rest)
    ensures Flat([page]) == page
  {
    assert ([page] + rest)[1..] == rest;
  }

  lemma {:induction false} DescendingAcross(page: seq<Message>, rest: seq<Message>, c: Cursor, next: Cursor)
    requires Descending(page) && Descending(rest) && page != []
    requires next == Uid(page[|page| - 1].uid)
    requires forall m :: m in rest ==> Below(m, next)
    requires forall m :: m in page ==> Below(m, c)
    ensures Descending(page + rest)
    ensures forall m :: m in page + rest ==> Below(m, c)
  {
    assert forall i :: 0 <= i < |rest| ==> rest[i] in rest;
    assert forall i :: 0 <= i < |page| ==> page[i].uid >= page[|page| - 1].uid;
    assert page[|page| - 1] in page;
  }

  /** No UID comes twice, and UIDs descend across page boundaries, whatever happens to the mailbox meanwhile. */
  lemma {:induction false} WalkDescends(folders: nat -> Folder, f: Filter, limit: nat, c: Cursor, k: nat)
    requires Good(c) && limit >= 1
    ensures Descending(Flat(Walk(folders, f, limit, c, k)))
    ensures forall m :: m in Flat(Walk(folders, f, limit, c, k)) ==> Below(m, c)
    decreases c.NoCursor?, Bound(c)
  {
    var page := PageOf(folders(k), f, limit, c);
    var next := NextCursor(page, limit);
    PageIsNewestBelow(folders(k), f, limit, c);
    NextIsSmaller(folders(k), f, limit, c);
    FlatOfCons(page, []);
    if !next.NoCursor? {
      WalkDescends(folders, f, limit, next, k + 1);
      FlatOfCons(page, Walk(folders, f, limit, next, k + 1));
      DescendingAcross(page, Flat(Walk(folders, f, limit, next, k + 1)), c, next);
    }
  }

  /** The folder holds a message with this UID that the filters accept. */
  ghost predicate HasWanted(folder: seq<Message>, f: Filter, uid: nat) {
    exists m :: m in folder && m.uid == uid && Wanted(m, f)
  }

  ghost predicate Returned(ms: seq<Message>, uid: nat) {
    exists m :: m in ms && m.uid == uid
  }

  lemma {:induction false} ReturnedAcross(page: seq<Message>, rest: seq<Message>, uid: nat)
    requires Returned(page, uid) || Returned(rest, uid)
    ensures Returned(page + rest, uid)
  {
  }

  /** A fetch either returns a matching message or leaves it below the next cursor. */
  lemma {:induction false} ReturnedOrBelow(folder: Folder, f: Filter, limit: nat, c: Cursor, uid: nat)
    requires Good(c) && limit >= 1 && HasWanted(folder, f, uid)
    requires c.Uid? ==> uid < c.number
    ensures var page := PageOf(folder, f, limit, c);
            var next := NextCursor(page, limit);
            Returned(page, uid) || (next.Uid? && uid < next.number)
  {
    PageIsNewestBelow(folder, f, limit, c);
    var m :| m in folder && m.uid == uid && Wanted(m, f);
    if m in PageOf(folder, f, limit, c) {
      assert Returned(PageOf(folder, f, limit, c), uid);
    }
  }

  /** Every message that matched, with whatever flags, at every fetch of the walk is returned by one of them. */
  lemma {:induction false} WalkIsComplete(
    folders: nat -> Folder, f: Filter, limit: nat, c: Cursor, k: nat, uid: nat)
    requires Good(c) && limit >= 1
    requires c.Uid? ==> uid < c.number
    requires forall i: nat :: k <= i < k + |Walk(folders, f, limit, c, k)| ==> HasWanted(folders(i), f, uid)
    ensures Returned(Flat(Walk(folders, f, limit, c, k)), uid)
    decreases c.NoCursor?, Bound(c)
  {
    hide HasWanted, Returned, PageOf;
    var page := PageOf(folders(k), f, limit, c);
    var next := NextCursor(page, limit);
    assert HasWanted(folders(k), f, uid);
    ReturnedOrBelow(folders(k), f, limit, c, uid);
    NextIsSmaller(folders(k), f, limit, c);
    FlatOfCons(page, []);
    if !next.NoCursor? {
      FlatOfCons(page, Walk(folders, f, limit, next, k + 1));
      if !Returned(page, uid) {
        WalkIsComplete(folders, f, limit, next, k + 1, uid);
      }
      ReturnedAcross(page, Flat(Walk(folders, f, limit, next, k + 1)), uid);
    }
  }

  /** Every page holds only messages that were in the folder, and wanted, at the fetch that returned them. */
  lemma {:induction false} WalkIsSound(
    folders: nat -> Folder, f: Filter, limit: nat, c: Cursor, k: nat, i: nat, m: Message)
    requires Good(c) && limit >= 1 && i < |Walk(folders, f, limit, c, k)|
    requires m in Walk(folders, f, limit, c, k)[i]
    ensures m in folders(k + i) && Wanted(m, f)
    decreases i
  {
    hide Wanted, PageOf;
    if i == 0 {
      PageIsNewestBelow(folders(k), f, limit, c);
    } else {
      NextIsSmaller(folders(k), f, limit, c);
      WalkIsSound(folders, f, limit, NextCursor(PageOf(folders(k), f, limit, c), limit), k + 1, i - 1, m);
    }
  }

  // ----- A mailbox that stays as it is -----------------------------------------------------------------------------

  lemma {:induction false} NothingCut(ms: seq<Message>, f: Filter, c: Cursor, d: Cursor)
    requires forall i :: 0 <= i < |ms| ==> (Below(ms[i], c) <==> Below(ms[i], d))
    ensures Newest(ms, f, c) == Newest(ms, f, d)
  {
    if ms == [] {
    } else {
      NothingCut(ms[..|ms| - 1], f, c, d);
    }
  }

  ghost predicate AllBelow(ms: seq<Message>, uid: nat) {
    forall i :: 0 <= i < |ms| ==> ms[i].uid < uid
  }

  lemma {:induction false} OlderIsSmaller(ms: seq<Message>, f: Filter, c: Cursor)
    requires Ascending(ms) && ms != []
    ensures Ascending(ms[..|ms| - 1])
    ensures forall i :: 0 <= i < |ms| - 1 ==> ms[i].uid < ms[|ms| - 1].uid
    ensures AllBelow(Newest(ms[..|ms| - 1], f, c), ms[|ms| - 1].uid)
  {
    var older := Newest(ms[..|ms| - 1], f, c);
    NewestIsExact(ms[..|ms| - 1], f, c);
    assert forall i :: 0 <= i < |older| ==> older[i] in ms[..|ms| - 1];
  }

  lemma NewestMatchResumes(ms: seq<Message>, f: Filter, c: Cursor)
    requires Ascending(ms) && ms != [] && Below(ms[|ms| - 1], c)
    ensures Newest(ms, f, Uid(ms[|ms| - 1].uid)) == Newest(ms[..|ms| - 1], f, c)
  {
    var n := |ms| - 1;
    var next := Uid(ms[n].uid);
    NewestStep(ms, f, next);
    hide Newest, Wanted;
    forall i | 0 <= i < n
      ensures Below(ms[..n][i], c) <==> Below(ms[..n][i], next)
    {
      assert ms[i].uid < ms[n].uid;
    }
    NothingCut(ms[..n], f, c, next);
  }

  lemma OlderMatchIsBelow(ms: seq<Message>, f: Filter, c: Cursor, at: nat)
    requires Ascending(ms) && ms != [] && at < |Newest(ms[..|ms| - 1], f, c)|
    ensures Ascending(ms[..|ms| - 1])
    ensures var uid := Newest(ms[..|ms| - 1], f, c)[at].uid;
            Newest(ms, f, Uid(uid)) == Newest(ms[..|ms| - 1], f, Uid(uid))
  {
    var older := Newest(ms[..|ms| - 1], f, c);
    NewestStep(ms, f, Uid(older[at].uid));
    hide Newest, Wanted, Ascending;
    OlderIsSmaller(ms, f, c);
  }

  lemma ConsDrop(m: Message, older: seq<Message>, at: nat)
    requires at <= |older|
    ensures ([m] + older)[at + 1..] == older[at..]
    ensures at > 0 ==> ([m] + older)[at] == older[at - 1]
  {
  }

  lemma NewestOfNothing(f: Filter, c: Cursor)
    ensures Newest([], f, c) == []
  {
  }

  /** Asking below the message at position `at` gives exactly what came after it. */
  lemma {:induction false} CursorResumes(ms: seq<Message>, f: Filter, c: Cursor, at: nat)
    requires Ascending(ms) && at < |Newest(ms, f, c)|
    ensures Newest(ms, f, Uid(Newest(ms, f, c)[at].uid)) == Newest(ms, f, c)[at + 1..]
  {
    hide Wanted, Newest, Below;
    if ms == [] {
      NewestOfNothing(f, c);
    } else {
      var n := |ms| - 1;
      var older := Newest(ms[..n], f, c);
      NewestStep(ms, f, c);
      if !Wanted(ms[n], f) || !Below(ms[n], c) {
        OlderMatchIsBelow(ms, f, c, at);
        CursorResumes(ms[..n], f, c, at);
      } else {
        ConsDrop(ms[n], older, at);
        if at == 0 {
          NewestMatchResumes(ms, f, c);
        } else {
          OlderMatchIsBelow(ms, f, c, at - 1);
          CursorResumes(ms[..n], f, c, at - 1);
        }
      }
    }
  }

  lemma {:induction false} PageIsPrefix(folder: Folder, f: Filter, limit: nat, c: Cursor)
    requires Good(c)
    ensures PageOf(folder, f, limit, c) == Prefix(Newest(folder, f, c), limit)
  {
    SearchFindsNewest(folder, f, c);
  }

  lemma {:induction false} StillPage(folder: Folder, f: Filter, limit: nat, c: Cursor)
    requires Good(c) && limit >= 1
    ensures var all, page := Newest(folder, f, c), PageOf(folder, f, limit, c);
            var next := NextCursor(page, limit);
            && (|all| < limit ==> next.NoCursor? && page == all)
            && (|all| >= limit ==> next.Uid? && all == page + Newest(folder, f, next)
                                   && |Newest(folder, f, next)| == |all| - limit)
  {
    hide PageOf, Newest;
    PageIsPrefix(folder, f, limit, c);
    if |Newest(folder, f, c)| >= limit {
      CursorResumes(folder, f, c, limit - 1);
    }
  }

  lemma {:induction false} OneLess(n: nat, limit: nat)
    requires n >= limit >= 1
    ensures (n - limit) / limit + 1 == n / limit
  {
    var d := n / limit;
    assert (d - 1) * limit == d * limit - limit;
    QuotientIs(n - limit, limit, d - 1);
  }

  /**
    On a folder that does not change, `n` matches below the cursor take n / limit + 1 pages, and the pages put
    together are those matches, newest first.
   */
  lemma {:induction false} StillMailboxIsReadOnce(
    folder: Folder, folders: nat -> Folder, f: Filter, limit: nat, c: Cursor, k: nat)
    requires Good(c) && limit >= 1
    requires forall i: nat :: folders(i) == folder
    ensures Flat(Walk(folders, f, limit, c, k)) == Newest(folder, f, c)
    ensures |Walk(folders, f, limit, c, k)| == |Newest(folder, f, c)| / limit + 1
    decreases c.NoCursor?, Bound(c)
  {
    var all, page := Newest(folder, f, c), PageOf(folder, f, limit, c);
    assert folders(k) == folder;
    StillPage(folder, f, limit, c);
    NextIsSmaller(folder, f, limit, c);
    FlatOfCons(page, []);
    if |all| < limit {
      QuotientIs(|all|, limit, 0);
    } else {
      var next := NextCursor(page, limit);
      StillMailboxIsReadOnce(folder, folders, f, limit, next, k + 1);
      FlatOfCons(page, Walk(folders, f, limit, next, k + 1));
      OneLess(|all|, limit);
    }
  }
}
