/** The failure streak read from source_polls and the health status computed
    from it. */
module SourceStatus {
  import opened Types
  import opened Tables
  import opened Lifecycle
  import opened Clearing

  // ---------------------------------------------------------------- the streak query

  predicate Pending(p: PollRow) {
    p.error == Some(PENDING)
  }

  /** The noted classification, or what the success flag says. */
  function Noted(p: PollRow): Classification {
    if p.classification != Unclassified then p.classification
    else if p.success then AuthoritativeSuccess
    else PollFailure
  }

  predicate Better(p: PollRow, source: string) {
    p.source == source && !Pending(p) && Noted(p) != PollFailure
  }

  /** COALESCE(MAX(poll_id), 0) over the polls that were not failures. */
  function LastBetter(polls: seq<PollRow>, source: string): int {
    if polls == [] then 0
    else
      var p, before := polls[|polls| - 1], LastBetter(polls[..|polls| - 1], source);
      if Better(p, source) && p.pollId > before then p.pollId else before
  }

  predicate CountsAsFailure(p: PollRow, source: string, after: int) {
    && p.source == source && p.pollId > after && !p.success && !Pending(p)
    && (p.classification == Unclassified || p.classification == PollFailure)
  }

  function CountFailures(polls: seq<PollRow>, source: string, after: int): nat {
    if polls == [] then 0
    else CountFailures(polls[..|polls| - 1], source, after)
         + if CountsAsFailure(polls[|polls| - 1], source, after) then 1 else 0
  }

  /** source_consecutive_failures as the query computes it. */
  function Streak(polls: seq<PollRow>, source: string): nat {
    CountFailures(polls, source, LastBetter(polls, source))
  }

  /** The poll is noted as a failure, or has no note and did not succeed. */
  predicate Failed(p: PollRow) {
    p.classification == PollFailure || (p.classification == Unclassified && !p.success)
  }

  /** The streak as a reader means it: walking back from the newest poll of the
      source, passing over pending ones, how many failures come in a row. */
  function TrailingFailures(polls: seq<PollRow>, source: string): nat {
    if polls == [] then 0
    else
      var p, before := polls[|polls| - 1], polls[..|polls| - 1];
      if p.source != source || Pending(p) then TrailingFailures(before, source)
      else if Failed(p) then TrailingFailures(before, source) + 1
      else 0
  }

  /** Ids grow, and no successful poll is noted as a failure. */
  ghost predicate Orderly(polls: seq<PollRow>) {
    && (forall i, j | 0 <= i < j < |polls| :: polls[i].pollId < polls[j].pollId)
    && (forall i | 0 <= i < |polls| ::
          polls[i].pollId > 0 && (polls[i].success ==> polls[i].classification != PollFailure))
  }

  lemma {:induction false} LastBetterBounds(polls: seq<PollRow>, source: string, bound: int)
    requires bound >= 0 && forall p | p in polls :: p.pollId <= bound
    ensures 0 <= LastBetter(polls, source) <= bound
  {
    if polls != [] {
      LastBetterBounds(polls[..|polls| - 1], source, bound);
    }
  }

  lemma {:induction false} NoneAfter(polls: seq<PollRow>, source: string, after: int)
    requires forall p | p in polls :: p.pollId <= after
    ensures CountFailures(polls, source, after) == 0
  {
    if polls != [] {
      NoneAfter(polls[..|polls| - 1], source, after);
    }
  }

  /** The query's streak is the trailing run of failures. */
  lemma {:induction false} StreakIsTrailingRun(polls: seq<PollRow>, source: string)
    requires Orderly(polls)
    ensures Streak(polls, source) == TrailingFailures(polls, source)
  {
    if polls != [] {
      var p, before := polls[|polls| - 1], polls[..|polls| - 1];
      StreakIsTrailingRun(before, source);
      forall q | q in before ensures q.pollId <= p.pollId - 1 {
        var i :| 0 <= i < |before| && before[i] == q;
        assert polls[i] == q;
      }
      LastBetterBounds(before, source, p.pollId - 1);
      NoneAfter(before, source, p.pollId);
    }
  }

  /** Every poll log the engine writes is orderly. */
  lemma {:induction false} RunsAreOrderly(h: seq<Attempt>, n: nat, source: string)
    requires WellFormed(h, source) && (h != [] ==> h[0].pollId > 0)
    ensures Orderly(Run(h, n).polls)
    ensures h != [] ==> forall p | p in Run(h, n).polls :: p.pollId <= h[|h| - 1].pollId
  {
    if h != [] {
      var g, a := h[..|h| - 1], h[|h| - 1];
      assert h == g + [a];
      ReachableFacts(g, a, n, source);
      RunsAreOrderly(g, n, source);
      var polls, last := ApplyPolls(Run(g, n), a, n);
      OneMoreOrderly(Run(g, n).polls, last);
    }
  }

  lemma OneMoreOrderly(polls: seq<PollRow>, last: PollRow)
    requires Orderly(polls) && last.pollId > 0 && forall p | p in polls :: p.pollId < last.pollId
    requires last.success ==> last.classification != PollFailure
    ensures Orderly(polls + [last])
  {
    assert forall i | 0 <= i < |polls| :: polls[i] in polls;
  }

  lemma StreakOfRun(h: seq<Attempt>, n: nat, source: string)
    requires WellFormed(h, source) && (h != [] ==> h[0].pollId > 0)
    ensures Streak(Run(h, n).polls, source) == TrailingFailures(Run(h, n).polls, source)
  {
    RunsAreOrderly(h, n, source);
    StreakIsTrailingRun(Run(h, n).polls, source);
  }

  /** A poll that was authoritative but could not be applied, and was marked so,
      ends the streak: its note still says authoritative. */
  lemma ApplyFailureEndsStreak(h: seq<Attempt>, a: Attempt, n: nat, source: string)
    requires WellFormed(h + [a], source) && a.pollId > 0 && (h != [] ==> h[0].pollId > 0)
    requires a.r.Success() && a.r.classification == AuthoritativeSuccess
    requires Stops(Run(h, n), a, n) && 0 < a.fault.k < Succeeding(a.r) && a.fault.marked && a.fault.message != PENDING
    ensures Streak(Run(h + [a], n).polls, source) == 0
    ensures var polls := Run(h + [a], n).polls; polls != [] && !polls[|polls| - 1].success
  {
    ReachableFacts(h, a, n, source);
    assert (h + [a])[..|h|] == h;
    assert h != [] ==> (h + [a])[0] == h[0];
    StreakOfRun(h + [a], n, source);
    MarkedFailed(Run(h, n), a, n);
    NoteEndsStreak(Run(h + [a], n).polls, source);
  }

  /** The poll row an apply failure leaves. */
  lemma MarkedFailed(db: Db, a: Attempt, n: nat)
    requires a.r.Success() && Stops(db, a, n) && 0 < a.fault.k < Succeeding(a.r) && a.fault.marked
    requires forall p | p in db.polls :: p.pollId != a.pollId
    ensures var polls := Apply(db, a, n).polls;
            && polls != []
            && polls[|polls| - 1] == NewPoll(a.r, a.pollId, false, NullIfEmpty(a.fault.message))
  {
    PollsOf(db, a, n, Reached(db, a, n));
  }

  lemma NoteEndsStreak(polls: seq<PollRow>, source: string)
    requires polls != [] && polls[|polls| - 1].source == source
    requires polls[|polls| - 1].classification == AuthoritativeSuccess
    requires polls[|polls| - 1].error != Some(PENDING)
    ensures TrailingFailures(polls, source) == 0
  {
  }

  // ---------------------------------------------------------------- the classifier

  datatype Status = Healthy | Degraded | Down

  const SUCCESS_OVERDUE := "success_overdue"
  const NEVER_SUCCEEDED := "never_succeeded"

  const STABLE_REASONS: set<string> :=
    {HEALTHY, RECENT_FAILURES, SUCCESS_OVERDUE, CONTRACT_INVALID, SNAPSHOT_INCOMPLETE, PAYLOAD_FROZEN, NEVER_SUCCEEDED}

  function StableSourceReason(reason: string, fallback: string): string {
    if reason in STABLE_REASONS then reason else fallback
  }

  datatype Settings = Settings(degradedAfter: int, downAfter: int, downFailures: int, frozenDownAfter: int)

  datatype Config = Config(sourceDegradedAfter: int, sourceDownAfter: int, staleAfter: int,
                           sourceDownFailures: int, frozenDownAfter: int)

  const MINUTE := 60

  function SourceThresholds(cfg: Config): (s: Settings)
    ensures s.degradedAfter > 0 && s.downAfter > 0 && s.downFailures > 0 && s.frozenDownAfter > 0
    ensures cfg.sourceDegradedAfter > 0 ==> s.degradedAfter == cfg.sourceDegradedAfter
    ensures cfg.sourceDownAfter > 0 ==> s.downAfter == cfg.sourceDownAfter
    ensures cfg.sourceDownAfter <= 0 < cfg.staleAfter ==> s.downAfter == cfg.staleAfter
    ensures cfg.sourceDownFailures > 0 ==> s.downFailures == cfg.sourceDownFailures
    ensures cfg.frozenDownAfter > 0 ==> s.frozenDownAfter == cfg.frozenDownAfter
    ensures cfg == Config(0, 0, 0, 0, 0) ==> s == Settings(180, 600, 3, 600)
  {
    Settings(if cfg.sourceDegradedAfter <= 0 then 3 * MINUTE else cfg.sourceDegradedAfter,
             if cfg.sourceDownAfter > 0 then cfg.sourceDownAfter
             else if cfg.staleAfter > 0 then cfg.staleAfter else 10 * MINUTE,
             if cfg.sourceDownFailures <= 0 then 3 else cfg.sourceDownFailures,
             if cfg.frozenDownAfter <= 0 then 10 * MINUTE else cfg.frozenDownAfter)
  }

  /** The poll facts the classifier reads, besides the clock and the streak. */
  datatype Evidence = Evidence(lastSuccess: Option<Time>, latest: Classification, latestReason: string,
                               unchangedSince: Option<Time>)

  function ClassifySourceStatus(now: Time, failures: int, e: Evidence, s: Settings): (Status, string) {
    if e.lastSuccess.None? then (Down, NEVER_SUCCEEDED)
    else if e.latestReason == PAYLOAD_FROZEN && e.unchangedSince.Some?
            && now - e.unchangedSince.value >= s.frozenDownAfter then (Down, PAYLOAD_FROZEN)
    else if failures >= s.downFailures then (Down, StableSourceReason(e.latestReason, RECENT_FAILURES))
    else
      var age := now - e.lastSuccess.value;
      if age >= s.downAfter then
        (Down, if e.latestReason == PAYLOAD_FROZEN then PAYLOAD_FROZEN else SUCCESS_OVERDUE)
      else if e.latest == DegradedSnapshot then (Degraded, StableSourceReason(e.latestReason, SNAPSHOT_INCOMPLETE))
      else if failures > 0 || e.latest == PollFailure then
        (Degraded, StableSourceReason(e.latestReason, RECENT_FAILURES))
      else if age >= s.degradedAfter then (Degraded, SUCCESS_OVERDUE)
      else (Healthy, HEALTHY)
  }

  function Rank(s: Status): nat {
    match s case Healthy => 0 case Degraded => 1 case Down => 2
  }

  /** With no new poll the status never improves as time passes, and at one
      instant it never improves as the streak grows. */
  lemma StatusNeverImproves(now: Time, later: Time, failures: int, more: int, e: Evidence, s: Settings)
    requires now <= later && failures <= more
    ensures Rank(ClassifySourceStatus(now, failures, e, s).0) <= Rank(ClassifySourceStatus(later, more, e, s).0)
    ensures ClassifySourceStatus(now, failures, e, s).1 in STABLE_REASONS
  {
  }

  // ---------------------------------------------------------------- what the status means

  predicate OldFreeze(now: Time, e: Evidence, s: Settings) {
    e.latestReason == "payload_frozen" && e.unchangedSince.Some? && now >= e.unchangedSince.value + s.frozenDownAfter
  }

  /** The source has not succeeded for this long, or ever. */
  predicate Overdue(now: Time, e: Evidence, after: int) {
    e.lastSuccess.None? || now >= e.lastSuccess.value + after
  }

  /** Down, and healthy, on exactly these facts. */
  lemma StatusIff(now: Time, failures: int, e: Evidence, s: Settings)
    ensures var (status, reason) := ClassifySourceStatus(now, failures, e, s);
            && (status.Down? <==>
                  Overdue(now, e, s.downAfter) || failures >= s.downFailures || OldFreeze(now, e, s))
            && (status.Healthy? <==>
                  && !status.Down? && failures <= 0 && !Overdue(now, e, s.degradedAfter)
                  && e.latest != DegradedSnapshot && e.latest != PollFailure)
            && (status.Healthy? ==> reason == "healthy")
  {
  }

  /** The reason names the fact that decides. A source that never succeeded and
      an old freeze come first. After these the latest poll's own reason is
      given, unless it is none of the seven or the source is merely overdue. */
  lemma ReasonIff(now: Time, failures: int, e: Evidence, s: Settings)
    ensures var (status, reason) := ClassifySourceStatus(now, failures, e, s);
            var known := e.latestReason in {"healthy", "recent_failures", "success_overdue", "contract_invalid",
                                            "snapshot_incomplete", "payload_frozen", "never_succeeded"};
            && (e.lastSuccess.None? ==> reason == "never_succeeded")
            && (e.lastSuccess.Some? && OldFreeze(now, e, s) ==> reason == "payload_frozen")
            && (e.lastSuccess.Some? && !OldFreeze(now, e, s) && failures >= s.downFailures ==>
                  reason == if known then e.latestReason else "recent_failures")
            && (e.lastSuccess.Some? && failures < s.downFailures && status.Down? ==>
                  reason == if e.latestReason == "payload_frozen" then "payload_frozen" else "success_overdue")
            && (status.Degraded? && e.latest == DegradedSnapshot ==>
                  reason == if known then e.latestReason else "snapshot_incomplete")
            && (status.Degraded? && e.latest != DegradedSnapshot && (failures > 0 || e.latest == PollFailure) ==>
                  reason == if known then e.latestReason else "recent_failures")
            && (status.Degraded? && failures <= 0 && e.latest != DegradedSnapshot && e.latest != PollFailure ==>
                  reason == "success_overdue")
  {
  }

  // ---------------------------------------------------------------- the evidence query

  /** The newest success of the source: ORDER BY started_at DESC LIMIT 1. */
  function LastSuccess(polls: seq<PollRow>, source: string): (t: Option<Time>)
    ensures t.None? <==> forall p | p in polls && p.source == source :: !p.success
    ensures t.Some? ==>
      && (exists p :: p in polls && p.source == source && p.success && p.startedAt == t.value)
      && (forall p | p in polls && p.source == source && p.success :: p.startedAt <= t.value)
  {
    if polls == [] then None
    else
      var p, before := polls[|polls| - 1], LastSuccess(polls[..|polls| - 1], source);
      assert polls == polls[..|polls| - 1] + [p];
      if p.source == source && p.success && (before.None? || before.value <= p.startedAt) then Some(p.startedAt)
      else before
  }

  /** The newest poll of the source that is not pending. */
  function LastAttempt(polls: seq<PollRow>, source: string): (r: Option<PollRow>)
    ensures r.None? <==> forall p | p in polls && p.source == source :: Pending(p)
    ensures r.Some? ==>
      && r.value in polls && r.value.source == source && !Pending(r.value)
      && (forall p | p in polls && p.source == source && !Pending(p) :: p.startedAt <= r.value.startedAt)
  {
    if polls == [] then None
    else
      var p, before := polls[|polls| - 1], LastAttempt(polls[..|polls| - 1], source);
      assert polls == polls[..|polls| - 1] + [p];
      if p.source == source && !Pending(p) && (before.None? || before.value.startedAt <= p.startedAt) then Some(p)
      else before
  }

  /** What the status is computed from; without an attempt on record the joins
      are empty and read as a failure. */
  function EvidenceOf(polls: seq<PollRow>, source: string): Evidence {
    match LastAttempt(polls, source)
    case None => Evidence(LastSuccess(polls, source), PollFailure, RECENT_FAILURES, None)
    case Some(p) =>
      Evidence(LastSuccess(polls, source), Noted(p),
               if p.reason != "" then p.reason else if p.success then HEALTHY else RECENT_FAILURES,
               p.unchangedSince)
  }

  function StatusAt(polls: seq<PollRow>, source: string, now: Time, s: Settings): (Status, string) {
    ClassifySourceStatus(now, Streak(polls, source), EvidenceOf(polls, source), s)
  }

  // ---------------------------------------------------------------- the poll log

  /** The attempt left no row: its first statement did not take effect. */
  predicate Unrecorded(a: Attempt) {
    a.fault.FaultAt? && a.fault.k == 0 && !a.fault.landed
  }

  /** The row is the note of this attempt: what the poll was, whether it was
      applied to the end, and otherwise why not, as far as anyone could write it. */
  ghost predicate NoteOf(p: PollRow, db: Db, a: Attempt, n: nat) {
    && p.pollId == a.pollId && p.source == a.r.source && p.startedAt == a.r.startedAt
    && p.featureCount == |a.r.incidents|
    && p.classification == a.r.classification && p.reason == a.r.reason && p.unchangedSince == a.r.unchangedSince
    && (p.success <==> Succeeds(db, a, n))
    && (p.success ==> p.error.None?)
    && (!a.r.Success() ==> p.error == if a.r.err.Some? && a.r.err.value != "" then a.r.err else None)
    && (a.r.Success() && !p.success ==>
          p.error == if !a.fault.marked || a.fault.k == 0 || a.fault.k >= Succeeding(a.r)
                     then Some("poll apply pending")
                     else if a.fault.message == "" then None else Some(a.fault.message))
  }

  lemma ApplyNotes(db: Db, a: Attempt, n: nat) returns (p: PollRow)
    requires forall q | q in db.polls :: q.pollId != a.pollId
    ensures Unrecorded(a) ==> Apply(db, a, n).polls == db.polls
    ensures !Unrecorded(a) ==> Apply(db, a, n).polls == db.polls + [p] && NoteOf(p, db, a, n)
  {
    if Unrecorded(a) {
      p := NewPoll(a.r, a.pollId, false, None);
    } else if !a.r.Success() {
      p := NewPoll(a.r, a.pollId, false, if a.r.err.Some? then NullIfEmpty(a.r.err.value) else None);
    } else {
      p := AppliedNote(db, a, n);
    }
  }

  lemma AppliedNote(db: Db, a: Attempt, n: nat) returns (p: PollRow)
    requires a.r.Success() && !Unrecorded(a) && forall q | q in db.polls :: q.pollId != a.pollId
    ensures Apply(db, a, n).polls == db.polls + [p] && NoteOf(p, db, a, n)
  {
    var k := Reached(db, a, n);
    PollsOf(db, a, n, k);
    if Stops(db, a, n) && 0 < a.fault.k < Succeeding(a.r) && a.fault.marked {
      var polls, last := ApplyPolls(db, a, n);
      MarkedFailed(db, a, n);
      p := NewPoll(a.r, a.pollId, false, NullIfEmpty(a.fault.message));
      assert p.pollId == a.pollId;
      assert polls[|polls| - 1] == p;
    } else {
      p := After(db, a, n, k).polls[|db.polls|];
    }
  }

  /** Row j is the note of attempt at[j]. */
  ghost predicate AreNotes(polls: seq<PollRow>, at: seq<nat>, h: seq<Attempt>, n: nat) {
    && |at| == |polls|
    && (forall i, j | 0 <= i < j < |at| :: at[i] < at[j])
    && (forall j | 0 <= j < |at| :: at[j] < |h| && NoteAt(polls[j], h, at[j], n))
  }

  ghost predicate NoteAt(p: PollRow, h: seq<Attempt>, i: nat, n: nat)
    requires i < |h|
  {
    NoteOf(p, Run(h[..i], n), h[i], n)
  }

  lemma NoteStays(p: PollRow, g: seq<Attempt>, a: Attempt, i: nat, n: nat)
    requires i < |g| && NoteAt(p, g, i, n)
    ensures NoteAt(p, g + [a], i, n)
  {
    assert (g + [a])[..i] == g[..i];
  }

  lemma NotesGrow(polls: seq<PollRow>, at: seq<nat>, g: seq<Attempt>, a: Attempt, n: nat)
    requires AreNotes(polls, at, g, n)
    ensures AreNotes(polls, at, g + [a], n)
  {
    forall j | 0 <= j < |at| ensures NoteAt(polls[j], g + [a], at[j], n) {
      NoteStays(polls[j], g, a, at[j], n);
    }
  }

  lemma NotesSnoc(polls: seq<PollRow>, at: seq<nat>, g: seq<Attempt>, a: Attempt, n: nat, p: PollRow)
    requires AreNotes(polls, at, g, n) && NoteOf(p, Run(g, n), a, n)
    ensures AreNotes(polls + [p], at + [|g|], g + [a], n)
  {
    NotesGrow(polls, at, g, a, n);
    NoteNow(p, g, a, n);
    forall j | 0 <= j < |at + [|g|]| ensures NoteAt((polls + [p])[j], g + [a], (at + [|g|])[j], n) {
      if j < |at| {
        assert NoteAt(polls[j], g + [a], at[j], n);
      }
    }
  }

  lemma NoteNow(p: PollRow, g: seq<Attempt>, a: Attempt, n: nat)
    requires NoteOf(p, Run(g, n), a, n)
    ensures NoteAt(p, g + [a], |g|, n)
  {
    assert (g + [a])[..|g|] == g;
  }

  ghost predicate Covers(at: seq<nat>, h: seq<Attempt>) {
    forall i | 0 <= i < |h| :: i in at <==> !Unrecorded(h[i])
  }

  lemma CoversOneMore(at: seq<nat>, g: seq<Attempt>, a: Attempt)
    requires Covers(at, g) && forall j | 0 <= j < |at| :: at[j] < |g|
    ensures Covers(if Unrecorded(a) then at else at + [|g|], g + [a])
  {
  }

  lemma OneMoreNote(polls: seq<PollRow>, after: seq<PollRow>, at: seq<nat>, g: seq<Attempt>, a: Attempt, n: nat,
                    p: PollRow)
    requires AreNotes(polls, at, g, n)
    requires if Unrecorded(a) then after == polls else after == polls + [p] && NoteOf(p, Run(g, n), a, n)
    ensures AreNotes(after, if Unrecorded(a) then at else at + [|g|], g + [a], n)
  {
    if Unrecorded(a) {
      NotesGrow(polls, at, g, a, n);
    } else {
      NotesSnoc(polls, at, g, a, n, p);
    }
  }

  /** The log holds, in order, one note for each attempt whose first statement
      took effect, and nothing else. */
  lemma {:induction false} PollLogIsNotes(h: seq<Attempt>, n: nat, source: string) returns (at: seq<nat>)
    requires WellFormed(h, source)
    ensures AreNotes(Run(h, n).polls, at, h, n) && Covers(at, h)
  {
    if h == [] {
      at := [];
    } else {
      var g, a := h[..|h| - 1], h[|h| - 1];
      assert h == g + [a];
      ReachableFacts(g, a, n, source);
      var before := PollLogIsNotes(g, n, source);
      var p := ApplyNotes(Run(g, n), a, n);
      at := if Unrecorded(a) then before else before + [|g|];
      CoversOneMore(before, g, a);
      OneMoreNote(Run(g, n).polls, Apply(Run(g, n), a, n).polls, before, g, a, n, p);
    }
  }
}
