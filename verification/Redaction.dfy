/**
  Redaction of audit data: every value filed under a sensitive key is replaced, at every depth of the tree, and
  nothing else is. Events are redacted when they are recorded, again when they leave the outbox, and their
  `extra` once more when the audit row is written; the repetitions change nothing in `extra`, but the second
  one also reaches the record's own field names.
*/
module Redaction {
  import opened Common

  /** JSON values as the audit code meets them; `Iso` is the text that `isoformat` makes of an instant. */
  datatype Json =
    | Null
    | Bool(b: bool)
    | Num(n: int)
    | Str(s: string)
    | Stamp(at: int)
    | Iso(at: int)
    | List(items: seq<Json>)
    | Obj(fields: seq<Field>)

  datatype Field = Field(key: string, value: Json)

  const REDACTED := Str("[REDACTED]")

  function LowerChar(c: char): char {
    if 'A' <= c <= 'Z' then (c as int + 32) as char else c
  }

  function Lower(s: string): (r: string)
    ensures |r| == |s| && forall i :: 0 <= i < |s| ==> r[i] == LowerChar(s[i])
  {
    seq(|s|, i requires 0 <= i < |s| => LowerChar(s[i]))
  }

  /** One of the sensitive fragments occurs in the lower-case key, at position `i` or later. */
  predicate SensitiveFrom(key: string, i: nat) {
    || OccursFrom(key, "password", i) || OccursFrom(key, "token", i) || OccursFrom(key, "key", i)
    || OccursFrom(key, "secret", i) || OccursFrom(key, "credential", i) || OccursFrom(key, "body", i)
    || OccursFrom(key, "content", i) || OccursFrom(key, "html", i) || OccursFrom(key, "subject", i)
    || OccursFrom(key, "from", i) || OccursFrom(key, "to", i) || OccursFrom(key, "recipient", i)
    || OccursFrom(key, "sender", i) || OccursFrom(key, "snippet", i) || OccursFrom(key, "attachment", i)
    || OccursFrom(key, "filename", i)
  }

  predicate IsSensitive(key: string) {
    SensitiveFrom(Lower(key), 0)
  }

  /** The letters of `part` stand in `key` from `k` on, as they are or as the capitals of them. */
  predicate SpelledAt(key: string, k: nat, part: string) {
    && k + |part| <= |key|
    && forall j :: 0 <= j < |part| ==>
         part[j] == if 'A' <= key[k + j] <= 'Z' then (key[k + j] as int + 32) as char else key[k + j]
  }

  lemma SpelledIsSlice(key: string, k: nat, part: string)
    ensures SpelledAt(key, k, part) <==> SliceAt(Lower(key), part, k)
  {
    if k + |part| <= |key| {
      var slice := Lower(key)[k..k + |part|];
      assert forall j :: 0 <= j < |part| ==> slice[j] == LowerChar(key[k + j]);
    }
  }

  lemma {:induction false} SpelledIff(key: string, part: string)
    ensures OccursFrom(Lower(key), part, 0) <==> exists k: nat :: SpelledAt(key, k, part)
  {
    hide OccursFrom, SpelledAt, SliceAt, Lower;
    OccursFromIff(Lower(key), part, 0);
    forall k: nat
      ensures SpelledAt(key, k, part) <==> SliceAt(Lower(key), part, k)
    {
      SpelledIsSlice(key, k, part);
    }
  }

  /** A key is sensitive exactly if one of the sixteen fragments is spelled in it, in whatever case. */
  lemma {:induction false} SensitiveIff(key: string)
    ensures var fragments := [
              "password", "token", "key", "secret", "credential", "body", "content", "html", "subject", "from", "to",
              "recipient", "sender", "snippet", "attachment", "filename"];
            IsSensitive(key) <==> exists i: nat, k: nat :: i < |fragments| && SpelledAt(key, k, fragments[i])
  {
    var fragments := [
      "password", "token", "key", "secret", "credential", "body", "content", "html", "subject", "from", "to",
      "recipient", "sender", "snippet", "attachment", "filename"];
    SensitiveAmong(key, fragments);
  }

  lemma {:induction false} SensitiveAmong(key: string, f: seq<string>)
    requires f == [
               "password", "token", "key", "secret", "credential", "body", "content", "html", "subject", "from", "to",
               "recipient", "sender", "snippet", "attachment", "filename"]
    ensures IsSensitive(key) <==> exists i: nat, k: nat :: i < |f| && SpelledAt(key, k, f[i])
  {
    hide OccursFrom, SpelledAt, Lower;
    var low := Lower(key);
    assert |f| == 16 && SensitiveFrom(low, 0) == (
      || OccursFrom(low, f[0], 0) || OccursFrom(low, f[1], 0) || OccursFrom(low, f[2], 0) || OccursFrom(low, f[3], 0)
      || OccursFrom(low, f[4], 0) || OccursFrom(low, f[5], 0) || OccursFrom(low, f[6], 0) || OccursFrom(low, f[7], 0)
      || OccursFrom(low, f[8], 0) || OccursFrom(low, f[9], 0) || OccursFrom(low, f[10], 0) || OccursFrom(low, f[11], 0)
      || OccursFrom(low, f[12], 0) || OccursFrom(low, f[13], 0) || OccursFrom(low, f[14], 0)
      || OccursFrom(low, f[15], 0));
    hide SensitiveFrom;
    forall i: nat | i < 16
      ensures OccursFrom(low, f[i], 0) <==> exists k: nat :: SpelledAt(key, k, f[i])
    {
      SpelledIff(key, f[i]);
    }
  }

  function Sanitized(v: Json): Json {
    match v
    case Obj(fields) => Obj(SanitizedFields(fields))
    case List(items) => List(SanitizedItems(items))
    case Stamp(at) => Iso(at)
    case _ => v
  }

  function SanitizedField(f: Field): Field {
    Field(f.key, if IsSensitive(f.key) then REDACTED else Sanitized(f.value))
  }

  function SanitizedFields(fields: seq<Field>): (r: seq<Field>)
    ensures |r| == |fields|
    ensures forall i :: 0 <= i < |fields| ==> r[i] == SanitizedField(fields[i])
  {
    if fields == [] then []
    else SanitizedFields(fields[..|fields| - 1]) + [SanitizedField(fields[|fields| - 1])]
  }

  function SanitizedItems(items: seq<Json>): (r: seq<Json>)
    ensures |r| == |items|
    ensures forall i :: 0 <= i < |items| ==> r[i] == Sanitized(items[i])
  {
    if items == [] then [] else SanitizedItems(items[..|items| - 1]) + [Sanitized(items[|items| - 1])]
  }

  /** `sanitize_extra`, filling the clean dictionary field by field. */
  method SanitizeExtra(v: Json) returns (clean: Json)
    ensures clean == Sanitized(v)
    decreases v
  {
    hide IsSensitive, SanitizedFields, SanitizedItems;
    match v {
      case Obj(fields) =>
        var done: seq<Field> := [];
        for i := 0 to |fields|
          invariant done == SanitizedFields(fields)[..i]
        {
          var item := REDACTED;
          if !IsSensitive(fields[i].key) {
            item := SanitizeExtra(fields[i].value);
          }
          done := done + [Field(fields[i].key, item)];
        }
        clean := Obj(done);
      case List(items) =>
        var done: seq<Json> := [];
        for i := 0 to |items|
          invariant done == SanitizedItems(items)[..i]
        {
          var item := SanitizeExtra(items[i]);
          done := done + [item];
        }
        clean := List(done);
      case Stamp(at) => clean := Iso(at);
      case _ => clean := v;
    }
  }

  // ----- Redaction is complete, idempotent, and touches nothing else ------------------------------------------

  /** Nothing sensitive is left at any depth, and no raw instant either. */
  ghost predicate Clean(v: Json) {
    match v
    case Obj(fields) =>
      forall i :: 0 <= i < |fields| ==>
        if IsSensitive(fields[i].key) then fields[i].value == REDACTED else Clean(fields[i].value)
    case List(items) => forall i :: 0 <= i < |items| ==> Clean(items[i])
    case Stamp(_) => false
    case _ => true
  }

  lemma {:induction false} SanitizedIsClean(v: Json)
    ensures Clean(Sanitized(v))
    decreases v
  {
    match v {
      case Obj(fields) =>
        forall i | 0 <= i < |fields| && !IsSensitive(fields[i].key)
          ensures Clean(Sanitized(fields[i].value))
        {
          SanitizedIsClean(fields[i].value);
        }
      case List(items) =>
        forall i | 0 <= i < |items|
          ensures Clean(Sanitized(items[i]))
        {
          SanitizedIsClean(items[i]);
        }
      case _ =>
    }
  }

  /** The clean values are exactly those that redaction leaves as they are. */
  lemma {:induction false} CleanIffUnchanged(v: Json)
    ensures Clean(v) <==> Sanitized(v) == v
    decreases v
  {
    SanitizedIsClean(v);
    if Clean(v) {
      match v {
        case Obj(fields) =>
          forall i | 0 <= i < |fields|
            ensures SanitizedField(fields[i]) == fields[i]
          {
            CleanIffUnchanged(fields[i].value);
          }
          assert SanitizedFields(fields) == fields;
        case List(items) =>
          forall i | 0 <= i < |items|
            ensures Sanitized(items[i]) == items[i]
          {
            CleanIffUnchanged(items[i]);
          }
          assert SanitizedItems(items) == items;
        case _ =>
      }
    }
  }

  lemma {:induction false} SanitizingTwiceIsOnce(v: Json)
    ensures Sanitized(Sanitized(v)) == Sanitized(v)
  {
    SanitizedIsClean(v);
    CleanIffUnchanged(Sanitized(v));
  }

  /** A way into a value: by key, or by position in a list. */
  datatype Turn = ByKey(key: string) | ByIndex(i: nat)

  function Lookup(fields: seq<Field>, key: string): Option<Json> {
    if fields == [] then None
    else if fields[|fields| - 1].key == key then Some(fields[|fields| - 1].value)
    else Lookup(fields[..|fields| - 1], key)
  }

  /** What a value holds at the end of a path, if the path exists. */
  function At(v: Json, path: seq<Turn>): Option<Json>
    decreases |path|
  {
    if path == [] then Some(v)
    else
      match path[0]
      case ByKey(key) =>
        if v.Obj? && Lookup(v.fields, key).Some? then At(Lookup(v.fields, key).value, path[1..]) else None
      case ByIndex(i) => if v.List? && i < |v.items| then At(v.items[i], path[1..]) else None
  }

  ghost predicate PassesSensitive(path: seq<Turn>) {
    exists i :: 0 <= i < |path| && path[i].ByKey? && IsSensitive(path[i].key)
  }

  lemma {:induction false} LookupSanitized(fields: seq<Field>, key: string)
    ensures Lookup(SanitizedFields(fields), key)
         == if Lookup(fields, key).None? then None
            else if IsSensitive(key) then Some(REDACTED)
            else Some(Sanitized(Lookup(fields, key).value))
  {
    if fields == [] {
    } else {
      LookupSanitized(fields[..|fields| - 1], key);
      var clean := SanitizedFields(fields);
      assert clean[..|clean| - 1] == SanitizedFields(fields[..|fields| - 1]);
    }
  }

  /** A path that meets no sensitive key leads to the sanitized form of what it led to before. */
  lemma {:induction false} HarmlessPathsSurvive(v: Json, path: seq<Turn>)
    requires !PassesSensitive(path)
    ensures At(Sanitized(v), path) == if At(v, path).None? then None else Some(Sanitized(At(v, path).value))
    decreases |path|
  {
    if path == [] {
    } else {
      var rest := path[1..];
      assert forall i :: 0 <= i < |rest| ==> rest[i] == path[i + 1];
      match path[0] {
        case ByKey(key) =>
          if v.Obj? {
            LookupSanitized(v.fields, key);
            if Lookup(v.fields, key).Some? {
              HarmlessPathsSurvive(Lookup(v.fields, key).value, rest);
            }
          }
        case ByIndex(i) =>
          if v.List? && i < |v.items| {
            HarmlessPathsSurvive(v.items[i], rest);
          }
      }
    }
  }

  /** So what is no container is kept as it is, an instant as its text, at every depth. */
  lemma {:induction false} HarmlessLeavesStay(v: Json, path: seq<Turn>)
    requires !PassesSensitive(path) && At(v, path).Some?
    ensures var leaf := At(v, path).value;
            !leaf.Obj? && !leaf.List? ==> At(Sanitized(v), path) == Some(if leaf.Stamp? then Iso(leaf.at) else leaf)
  {
    HarmlessPathsSurvive(v, path);
    hide At, PassesSensitive;
  }

  /** A path whose last key is its first sensitive one leads to the mark, if it existed; no path goes past one. */
  lemma {:induction false} SensitivePathsAreCut(v: Json, path: seq<Turn>)
    requires PassesSensitive(path)
    ensures At(Sanitized(v), path)
         == if At(v, path).Some? && !PassesSensitive(path[..|path| - 1]) then Some(Str("[REDACTED]")) else None
    decreases |path|
  {
    hide IsSensitive, SanitizedFields, SanitizedItems, Lookup;
    var rest := path[1..];
    if path[0].ByKey? && IsSensitive(path[0].key) {
      FirstIsCut(v, path);
    } else {
      SensitiveLater(path);
      match path[0] {
        case ByKey(key) =>
          if v.Obj? {
            LookupSanitized(v.fields, key);
            if Lookup(v.fields, key).Some? {
              SensitivePathsAreCut(Lookup(v.fields, key).value, rest);
            }
          }
        case ByIndex(i) =>
          if v.List? && i < |v.items| {
            SensitivePathsAreCut(v.items[i], rest);
          }
      }
    }
  }

  lemma {:induction false} FirstIsCut(v: Json, path: seq<Turn>)
    requires path != [] && path[0].ByKey? && IsSensitive(path[0].key)
    ensures At(Sanitized(v), path)
         == if At(v, path).Some? && !PassesSensitive(path[..|path| - 1]) then Some(Str("[REDACTED]")) else None
  {
    var rest := path[1..];
    MarkHasNoInside(rest);
    if v.Obj? {
      LookupSanitized(v.fields, path[0].key);
    }
    hide IsSensitive, Lookup, SanitizedFields, SanitizedItems;
    if |path| == 1 {
      assert path[..0] == [] && rest == [];
    } else {
      var front := path[..|path| - 1];
      assert front[0].ByKey? && IsSensitive(front[0].key);
    }
  }

  lemma SensitiveLater(path: seq<Turn>)
    requires PassesSensitive(path) && !(path[0].ByKey? && IsSensitive(path[0].key))
    ensures PassesSensitive(path[1..])
    ensures PassesSensitive(path[..|path| - 1]) <==> PassesSensitive(path[1..][..|path| - 2])
  {
    hide IsSensitive;
    var i :| 0 <= i < |path| && path[i].ByKey? && IsSensitive(path[i].key);
    assert path[1..][i - 1] == path[i];
    var front, later := path[..|path| - 1], path[1..][..|path| - 2];
    assert later == front[1..];
    assert forall j :: 0 < j < |front| ==> front[j] == later[j - 1];
    if PassesSensitive(front) {
      var j :| 0 <= j < |front| && front[j].ByKey? && IsSensitive(front[j].key);
      assert later[j - 1] == front[j];
    }
    if PassesSensitive(later) {
      var j :| 0 <= j < |later| && later[j].ByKey? && IsSensitive(later[j].key);
      assert front[j + 1] == later[j];
    }
  }

  lemma MarkHasNoInside(path: seq<Turn>)
    ensures At(REDACTED, path) == if path == [] then Some(REDACTED) else None
  {
  }

  // ----- From an event to the audit row ---------------------------------------------------------------------------

  /** `extra` is an object, or `Null` when the event has none. */
  datatype AuditEvent = AuditEvent(
    action: string, actorType: string, actorId: Option<string>, status: string, requestId: string,
    clientIp: string, userAgent: string, targetAccountId: Option<int>, extra: Json, timestamp: int)

  function TextOrNull(s: Option<string>): Json {
    if s.Some? then Str(s.value) else Null
  }

  function NumberOrNull(n: Option<int>): Json {
    if n.Some? then Num(n.value) else Null
  }

  /** Python's `v or {}`. */
  function OrEmpty(v: Json): Json {
    if v.Null? || v == List([]) || v == Str("") then Obj([]) else v
  }

  /** `AuditEvent.to_record`: what the outbox stores. */
  function ToRecord(e: AuditEvent): Json {
    Obj([
      Field("timestamp", Iso(e.timestamp)),
      Field("action", Str(e.action)),
      Field("actor_type", Str(e.actorType)),
      Field("actor_id", TextOrNull(e.actorId)),
      Field("client_ip", Str(e.clientIp)),
      Field("user_agent", Str(e.userAgent)),
      Field("request_id", Str(e.requestId)),
      Field("target_account_id", NumberOrNull(e.targetAccountId)),
      Field("status", Str(e.status)),
      Field("extra", Sanitized(OrEmpty(e.extra)))])
  }

  /** The columns of an audit row. */
  datatype AuditRow = AuditRow(
    timestamp: Json, actorType: Json, actorId: Json, clientIp: Json, userAgent: Json, action: Json,
    targetAccountId: Json, status: Json, extra: Json, requestId: Json)

  function Get(record: Json, key: string): Json {
    if record.Obj? then Lookup(record.fields, key).GetOr(Null) else Null
  }

  /** `AuditRepository.append` on a stored record: it sanitizes the record, and `extra` once more. */
  function Appended(stored: Json): AuditRow {
    var record := Sanitized(stored);
    AuditRow(
      Get(record, "timestamp"), Get(record, "actor_type"), Get(record, "actor_id"), Get(record, "client_ip"),
      Get(record, "user_agent"), Get(record, "action"), Get(record, "target_account_id"), Get(record, "status"),
      Sanitized(OrEmpty(Get(record, "extra"))), Get(record, "request_id"))
  }

  lemma LowerKeeps(s: string)
    requires forall i :: 0 <= i < |s| ==> !('A' <= s[i] <= 'Z')
    ensures Lower(s) == s
  {
  }

  lemma OccursEarlier(text: string, part: string, i: nat)
    requires OccursFrom(text, part, i + 1)
    ensures OccursFrom(text, part, i)
  {
  }

  /** "to" at position 2 is enough to make a key sensitive. */
  lemma ToAtTwoIsSensitive(key: string)
    requires Lower(key) == key && |key| >= 4 && key[2] == 't' && key[3] == 'o'
    ensures IsSensitive(key)
  {
    hide Lower;
    assert MatchesAt(key, "to", 2, 2);
    assert MatchesAt(key, "to", 2, 1);
    assert OccursFrom(key, "to", 2);
    OccursEarlier(key, "to", 1);
    OccursEarlier(key, "to", 0);
    hide OccursFrom;
  }

  lemma ActorFieldsAreSensitive()
    ensures IsSensitive("actor_type") && IsSensitive("actor_id")
  {
    LowerKeeps("actor_type");
    LowerKeeps("actor_id");
    hide IsSensitive;
    ToAtTwoIsSensitive("actor_type");
    ToAtTwoIsSensitive("actor_id");
  }

  lemma TimestampIsHarmless()
    ensures !IsSensitive("timestamp")
  {
    LowerKeeps("timestamp");
    assert !SensitiveFrom("timestamp", 0);
  }

  lemma ActionIsHarmless()
    ensures !IsSensitive("action")
  {
    LowerKeeps("action");
    assert !SensitiveFrom("action", 0);
  }

  lemma ClientIpIsHarmless()
    ensures !IsSensitive("client_ip")
  {
    LowerKeeps("client_ip");
    assert !SensitiveFrom("client_ip", 0);
  }

  lemma UserAgentIsHarmless()
    ensures !IsSensitive("user_agent")
  {
    LowerKeeps("user_agent");
    assert !SensitiveFrom("user_agent", 0);
  }

  lemma RequestIdIsHarmless()
    ensures !IsSensitive("request_id")
  {
    LowerKeeps("request_id");
    assert !SensitiveFrom("request_id", 0);
  }

  /** Enough letters at `i` to tell that no sensitive fragment starts there. */
  predicate NoneStartsAt(key: string, i: nat)
    requires i < |key|
  {
    match key[i]
    case 't' => i + 1 == |key| || key[i + 1] != 'o'
    case 'a' => i + 1 == |key| || key[i + 1] != 't'
    case 'r' => i + 1 == |key| || key[i + 1] != 'e'
    case 'c' => i + 2 < |key| && key[i + 1] != 'r' && key[i + 2] != 'n'
    case c => c == '_' || c == 'g' || c == 'e' || c == 'n' || c == 'd' || c == 'i' || c == 'o' || c == 'u'
  }

  lemma {:induction false} NoneStartsNoneOccurs(key: string, i: nat)
    requires i <= |key| && forall j :: i <= j < |key| ==> NoneStartsAt(key, j)
    ensures !SensitiveFrom(key, i)
    decreases |key| - i
  {
    if i < |key| {
      NoneStartsNoneOccurs(key, i + 1);
      assert NoneStartsAt(key, i);
    }
  }

  lemma TargetIsHarmless()
    ensures !IsSensitive("target_account_id")
  {
    LowerKeeps("target_account_id");
    hide SensitiveFrom, Lower;
    var key := "target_account_id";
    NoneStartsNoneOccurs(key, 0);
  }

  lemma StatusIsHarmless()
    ensures !IsSensitive("status")
  {
    LowerKeeps("status");
    assert !SensitiveFrom("status", 0);
  }

  lemma ExtraIsHarmless()
    ensures !IsSensitive("extra")
  {
    LowerKeeps("extra");
    assert !SensitiveFrom("extra", 0);
  }

  /** Of the ten field names of a record, the two about the actor are sensitive: "to" occurs in "actor". */
  lemma OnlyActorFieldsAreSensitive(e: AuditEvent, i: nat)
    requires i < 10
    ensures IsSensitive(ToRecord(e).fields[i].key) <==> i == 2 || i == 3
  {
    hide IsSensitive;
    ActorFieldsAreSensitive();
    TimestampIsHarmless();
    ActionIsHarmless();
    ClientIpIsHarmless();
    UserAgentIsHarmless();
    RequestIdIsHarmless();
    TargetIsHarmless();
    StatusIsHarmless();
    ExtraIsHarmless();
  }

  lemma RecordKeysDiffer(e: AuditEvent, i: nat, j: nat)
    requires i < j < 10
    ensures ToRecord(e).fields[i].key != ToRecord(e).fields[j].key
  {
  }

  lemma {:induction false} LookupOfOwnKey(fields: seq<Field>, i: nat)
    requires i < |fields| && forall j :: i < j < |fields| ==> fields[j].key != fields[i].key
    ensures Lookup(fields, fields[i].key) == Some(fields[i].value)
  {
    if i < |fields| - 1 {
      LookupOfOwnKey(fields[..|fields| - 1], i);
    }
  }

  /** What a stored record holds under its `i`th field name after it has been sanitized as a whole. */
  lemma {:induction false} ColumnDelivered(e: AuditEvent, i: nat)
    requires i < 10
    ensures var f := ToRecord(e).fields[i];
            Get(Sanitized(ToRecord(e)), f.key) == if i == 2 || i == 3 then REDACTED else Sanitized(f.value)
  {
    hide IsSensitive;
    var fields := ToRecord(e).fields;
    forall j | i < j < 10
      ensures fields[j].key != fields[i].key
    {
      RecordKeysDiffer(e, i, j);
    }
    LookupOfOwnKey(fields, i);
    LookupSanitized(fields, fields[i].key);
    OnlyActorFieldsAreSensitive(e, i);
  }

  /**
    What an event leaves in the audit log once its record has been through the outbox: every column as it was
    recorded, the `extra` exactly as it was sanitized on entry, but both columns about the actor redacted.
   */
  lemma {:induction false} DeliveredRow(e: AuditEvent)
    requires e.extra.Obj? || e.extra.Null?
    ensures Appended(ToRecord(e)) == AuditRow(
              Iso(e.timestamp), Str("[REDACTED]"), Str("[REDACTED]"), Str(e.clientIp), Str(e.userAgent), Str(e.action),
              NumberOrNull(e.targetAccountId), Str(e.status), Sanitized(OrEmpty(e.extra)), Str(e.requestId))
  {
    hide IsSensitive, Get;
    ColumnDelivered(e, 0);
    ColumnDelivered(e, 1);
    ColumnDelivered(e, 2);
    ColumnDelivered(e, 3);
    ColumnDelivered(e, 4);
    ColumnDelivered(e, 5);
    ColumnDelivered(e, 6);
    ColumnDelivered(e, 7);
    ColumnDelivered(e, 8);
    ColumnDelivered(e, 9);
    SanitizingTwiceIsOnce(OrEmpty(e.extra));
  }
}
