/** Vocabulary shared by the component models: optional values, results, and logs of instants. */
module Common {
  datatype Option<+T> = None | Some(value: T) {
    function GetOr(default: T): T {
      if Some? then value else default
    }
  }

  datatype Result<+T, +E> = Ok(value: T) | Err(error: E)

  /** Instants and durations, in seconds. */
  type Instant = real

  ghost predicate Sorted(log: seq<Instant>) {
    forall i, j :: 0 <= i <= j < |log| ==> log[i] <= log[j]
  }

  function Max(a: int, b: int): int {
    if a < b then b else a
  }

  function Min(a: real, b: real): real {
    if a < b then a else b
  }

  /** `part` stands in `text` at position `i`, from its `j`th character on. */
  predicate MatchesAt(text: string, part: string, i: nat, j: nat)
    requires j <= |part|
    decreases |part| - j
  {
    j == |part| || (i + j < |text| && text[i + j] == part[j] && MatchesAt(text, part, i, j + 1))
  }

  /** `part` occurs in `text` at position `i` or later. */
  predicate OccursFrom(text: string, part: string, i: nat)
    decreases |text| - i
  {
    i + |part| <= |text| && (MatchesAt(text, part, i, 0) || (i < |text| && OccursFrom(text, part, i + 1)))
  }

  predicate Contains(text: string, part: string) {
    OccursFrom(text, part, 0)
  }

  lemma {:induction false} MatchesAtIff(text: string, part: string, i: nat, j: nat)
    requires j <= |part| && i + |part| <= |text|
    ensures MatchesAt(text, part, i, j) <==> forall k :: j <= k < |part| ==> text[i + k] == part[k]
    decreases |part| - j
  {
    if j == |part| {
    } else {
      MatchesAtIff(text, part, i, j + 1);
    }
  }

  /** `part` is the slice of `text` that begins at `k`. */
  predicate SliceAt(text: string, part: string, k: nat) {
    k + |part| <= |text| && text[k..k + |part|] == part
  }

  lemma {:induction false} OccursFromIff(text: string, part: string, i: nat)
    ensures OccursFrom(text, part, i) <==> exists k: nat :: i <= k && SliceAt(text, part, k)
    decreases |text| - i
  {
    if i + |part| <= |text| {
      MatchesAtIff(text, part, i, 0);
      assert MatchesAt(text, part, i, 0) <==> SliceAt(text, part, i) by {
        hide OccursFrom;
        var slice := text[i..i + |part|];
        assert forall j :: 0 <= j < |part| ==> slice[j] == text[i + j];
      }
      hide MatchesAt, SliceAt;
      if i < |text| {
        OccursFromIff(text, part, i + 1);
        if k: nat :| i <= k && SliceAt(text, part, k) && !SliceAt(text, part, i) {
          assert i + 1 <= k;
        }
      } else if k: nat :| i < k && SliceAt(text, part, k) {
        SliceFits(text, part, k);
        assert false;
      }
    } else if k: nat :| i <= k && SliceAt(text, part, k) {
      assert false;
    }
  }

  lemma SliceFits(text: string, part: string, k: nat)
    requires SliceAt(text, part, k)
    ensures k + |part| <= |text|
  {
  }

  /** The text has the part as a slice. */
  lemma {:induction false} ContainsIff(text: string, part: string)
    ensures Contains(text, part) <==> exists k: nat :: SliceAt(text, part, k)
  {
    OccursFromIff(text, part, 0);
  }

  /** The number of log entries in the half-open interval (after, upTo]. */
  function CountIn(log: seq<Instant>, after: Instant, upTo: Instant): nat {
    if log == [] then 0
    else CountIn(log[..|log| - 1], after, upTo) + if after < log[|log| - 1] <= upTo then 1 else 0
  }

  /** Every entry lies at least `span` after the one `n` places before it. */
  ghost predicate Spaced(log: seq<Instant>, n: nat, span: real) {
    forall i, j :: 0 <= i && j == i + n && j < |log| ==> log[i] + span <= log[j]
  }

  /** What spacing means to an observer: no window of length `span` holds more than `n` entries. */
  lemma {:induction false} SpacedBoundsCount(log: seq<Instant>, n: nat, span: real, after: Instant)
    requires Sorted(log) && Spaced(log, n, span)
    ensures CountIn(log, after, after + span) <= n
  {
    if |log| > 0 && log[|log| - 1] > after + span {
      SpacedBoundsCount(log[..|log| - 1], n, span, after);
    } else {
      CountTail(log, n, span, after);
    }
  }

  /** When the log ends by `after + span`, only its last `n` entries can be later than `after`. */
  lemma {:induction false} CountTail(log: seq<Instant>, n: nat, span: real, after: Instant)
    requires Sorted(log) && Spaced(log, n, span)
    requires log != [] ==> log[|log| - 1] <= after + span
    ensures CountIn(log, after, after + span) <= n
  {
    var early := |log| - n;
    if early > 0 {
      assert log[early - 1] <= after by {
        if n > 0 {
          assert log[early - 1] + span <= log[|log| - 1];
        } else {
          assert log[|log| - 1] + span <= log[|log| - 1];
        }
      }
      CountFrom(log, after, after + span, early);
    } else {
      CountFrom(log, after, after + span, 0);
    }
  }

  lemma {:induction false} CountFrom(log: seq<Instant>, after: Instant, upTo: Instant, from: nat)
    requires from <= |log|
    requires forall i :: 0 <= i < from ==> log[i] <= after
    ensures CountIn(log, after, upTo) <= |log| - from
  {
    if |log| > from {
      CountFrom(log[..|log| - 1], after, upTo, from);
    } else if |log| > 0 {
      CountFrom(log[..|log| - 1], after, upTo, from - 1);
    }
  }

  lemma Product(a: int, b: int, d: int)
    requires d > 0
    ensures a < b ==> a * d + d <= b * d
    decreases b - a
  {
    if a < b {
      Product(a, b - 1, d);
      assert b * d == (b - 1) * d + d;
    }
  }

  /** Division by its defining property. */
  lemma QuotientIs(n: int, d: int, q: int)
    requires d > 0 && q * d <= n < q * d + d
    ensures n / d == q
  {
    Product(n / d, q, d);
    Product(q, n / d, d);
  }
}
