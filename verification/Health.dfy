/**
  Recording the connection health of a mailbox. The plain form writes on every call; the debounced form skips the
  write while nothing has changed and the last check is recent. A reader can hardly tell them apart, and the
  number of writes is bounded by what happened, not by how often it was asked.
*/
module Health {
  import opened Common

  const REFRESH_INTERVAL: real := 600.0

  datatype Outcome = Outcome(status: string, detail: Option<string>)

  datatype Record = Record(outcome: Outcome, checkedAt: Option<Instant>)

  datatype Probe = Probe(outcome: Outcome, at: Instant)

  predicate Fresh(r: Record, now: Instant) {
    r.checkedAt.Some? && now - r.checkedAt.value < REFRESH_INTERVAL
  }

  function Plain(r: Record, p: Probe): Record {
    Record(p.outcome, Some(p.at))
  }

  predicate Skips(r: Record, p: Probe) {
    r.outcome == p.outcome && Fresh(r, p.at)
  }

  function Debounced(r: Record, p: Probe): Record {
    if Skips(r, p) then r else Plain(r, p)
  }

  class HealthColumns {
    var status: string
    var detail: Option<string>
    var checkedAt: Option<Instant>

    ghost function State(): Record
      reads this
    {
      Record(Outcome(status, detail), checkedAt)
    }

    constructor ()
      ensures State() == Record(Outcome("unknown", None), None)
    {
      status := "unknown";
      detail := None;
      checkedAt := None;
    }

    /** The in-memory service writes every time. */
    method SetMailboxHealth(status: string, detail: Option<string>, now: Instant)
      modifies this
      ensures State() == Plain(old(State()), Probe(Outcome(status, detail), now))
    {
      this.status := status;
      this.detail := detail;
      checkedAt := Some(now);
    }

    /** The repository service writes only what is new or stale. */
    method RecordMailboxHealth(status: string, detail: Option<string>, now: Instant) returns (wrote: bool)
      modifies this
      ensures State() == Debounced(old(State()), Probe(Outcome(status, detail), now))
      ensures wrote <==> !Skips(old(State()), Probe(Outcome(status, detail), now))
    {
      var same := this.status == status && this.detail == detail;
      var recent := checkedAt.Some? && now - checkedAt.value < REFRESH_INTERVAL;
      if same && recent {
        return false;
      }
      this.status := status;
      this.detail := detail;
      checkedAt := Some(now);
      wrote := true;
    }
  }

  function RunPlain(r: Record, probes: seq<Probe>): Record {
    if probes == [] then r else Plain(RunPlain(r, probes[..|probes| - 1]), probes[|probes| - 1])
  }

  function RunDebounced(r: Record, probes: seq<Probe>): Record {
    if probes == [] then r else Debounced(RunDebounced(r, probes[..|probes| - 1]), probes[|probes| - 1])
  }

  function Writes(r: Record, probes: seq<Probe>): nat {
    if probes == [] then 0
    else
      var n := |probes| - 1;
      Writes(r, probes[..n]) + if Skips(RunDebounced(r, probes[..n]), probes[n]) then 0 else 1
  }

  /** How often the outcome differs from the one before. */
  function Changes(probes: seq<Probe>): nat {
    if |probes| <= 1 then 0
    else
      var n := |probes| - 1;
      Changes(probes[..n]) + if probes[n].outcome == probes[n - 1].outcome then 0 else 1
  }

  ghost predicate Chronological(r: Record, probes: seq<Probe>) {
    && (forall i, j :: 0 <= i <= j < |probes| ==> probes[i].at <= probes[j].at)
    && (r.checkedAt.Some? && probes != [] ==> r.checkedAt.value <= probes[0].at)
  }

  /** After every call, both forms show the same outcome, and the debounced check time lags less than an interval. */
  lemma {:induction false} DebouncingIsFaithful(r: Record, probes: seq<Probe>)
    requires Chronological(r, probes) && probes != []
    ensures var plain, lazy := RunPlain(r, probes), RunDebounced(r, probes);
            && lazy.outcome == plain.outcome == probes[|probes| - 1].outcome
            && plain.checkedAt == Some(probes[|probes| - 1].at)
            && lazy.checkedAt.Some?
            && 0.0 <= plain.checkedAt.value - lazy.checkedAt.value < 600.0
  {
    var n := |probes| - 1;
    if n > 0 {
      DebouncingIsFaithful(r, probes[..n]);
    } else {
      assert probes[..0] == [];
    }
  }

  /** Every refresh of an unchanged outcome costs a whole interval since the first call. */
  lemma {:induction false} WritesAreEarned(r: Record, probes: seq<Probe>) returns (refreshes: nat)
    requires Chronological(r, probes) && probes != []
    ensures Writes(r, probes) == 1 + Changes(probes) + refreshes
         || (Writes(r, probes) == Changes(probes) + refreshes && r.checkedAt.Some?
             && probes[0].at - r.checkedAt.value < REFRESH_INTERVAL)
    ensures RunDebounced(r, probes).checkedAt.Some?
    ensures var since := if Writes(r, probes) == 1 + Changes(probes) + refreshes then probes[0].at
                         else r.checkedAt.value;
            since + refreshes as real * REFRESH_INTERVAL <= RunDebounced(r, probes).checkedAt.value
                                                         <= probes[|probes| - 1].at
  {
    var n := |probes| - 1;
    if n == 0 {
      assert probes[..0] == [];
      refreshes := 0;
    } else {
      var before := WritesAreEarned(r, probes[..n]);
      DebouncingIsFaithful(r, probes[..n]);
      var state := RunDebounced(r, probes[..n]);
      assert probes[..n][n - 1] == probes[n - 1] && probes[..n][0] == probes[0];
      var refreshed := !Skips(state, probes[n]) && probes[n].outcome == probes[n - 1].outcome;
      refreshes := if refreshed then before + 1 else before;
    }
  }

  /** Over a stretch of time T there are at most 1 + outcome changes + T / interval writes, rounded down. */
  lemma {:induction false} WritesAreBounded(r: Record, probes: seq<Probe>)
    requires Chronological(r, probes) && probes != []
    ensures Writes(r, probes)
         <= 1 + Changes(probes) + ((probes[|probes| - 1].at - probes[0].at) / 600.0).Floor
  {
    var refreshes := WritesAreEarned(r, probes);
    var span := probes[|probes| - 1].at - probes[0].at;
    if Writes(r, probes) == 1 + Changes(probes) + refreshes {
      FloorIsAtLeast(span, refreshes);
    } else {
      var earned: int := refreshes;
      FloorIsAtLeast(span, earned - 1);
    }
  }

  lemma FloorIsAtLeast(span: real, k: int)
    requires k as real * REFRESH_INTERVAL <= span
    ensures k <= (span / 600.0).Floor
  {
  }
}
