/** The client, the lifecycle engine and the status page together: what the page
    says after an outage, after a good poll, and while the feed is frozen. */
module Health {
  import opened Types
  import opened Tables
  import opened Lifecycle
  import opened Clearing
  import opened Feed
  import opened Pipeline
  import opened SourceStatus
  import opened SharedTables
  import opened Settling

  /** Poll ids come from a serial column. */
  predicate Numbered(h: seq<Attempt>) {
    h != [] ==> h[0].pollId > 0
  }

  // ---------------------------------------------------------------- the latest poll

  /** The row a fault-free attempt adds, and that it is the latest one. */
  lemma LatestRow(h: seq<Attempt>, a: Attempt, n: nat, source: string) returns (p: PollRow)
    requires WellFormed(h + [a], source) && a.fault.NoFault?
    requires a.r.err.Some? ==> a.r.err.value != PENDING
    ensures Run(h + [a], n).polls == Run(h, n).polls + [p] && NoteOf(p, Run(h, n), a, n) && !Pending(p)
    ensures p.success <==> a.r.Success()
    ensures forall q | q in Run(h, n).polls :: q.source == source && q.startedAt < p.startedAt
  {
    ReachableFacts(h, a, n, source);
    assert (h + [a])[..|h|] == h;
    p := ApplyNotes(Run(h, n), a, n);
  }

  lemma LatestIsAttempt(polls: seq<PollRow>, p: PollRow, source: string)
    requires p.source == source && !Pending(p) && forall q | q in polls :: q.startedAt < p.startedAt
    ensures LastAttempt(polls + [p], source) == Some(p)
    ensures LastSuccess(polls + [p], source) == if p.success then Some(p.startedAt) else LastSuccess(polls, source)
  {
    var all := polls + [p];
    assert all[|polls|] == p && all[..|polls|] == polls;
  }

  lemma StreakSnoc(h: seq<Attempt>, a: Attempt, n: nat, source: string, p: PollRow)
    requires WellFormed(h + [a], source) && Numbered(h + [a])
    requires Run(h + [a], n).polls == Run(h, n).polls + [p] && p.source == source && !Pending(p)
    ensures Streak(Run(h + [a], n).polls, source)
         == if Noted(p) == PollFailure then Streak(Run(h, n).polls, source) + 1 else 0
  {
    ReachableFacts(h, a, n, source);
    assert h != [] ==> (h + [a])[0] == h[0];
    StreakOfRun(h, n, source);
    StreakOfRun(h + [a], n, source);
    TrailingSnoc(Run(h, n).polls, p, source);
  }

  lemma TrailingSnoc(polls: seq<PollRow>, p: PollRow, source: string)
    requires p.source == source && !Pending(p)
    ensures TrailingFailures(polls + [p], source) ==
      if Noted(p) == PollFailure then TrailingFailures(polls, source) + 1 else 0
  {
    assert (polls + [p])[..|polls|] == polls;
  }

  // ---------------------------------------------------------------- outages

  lemma ErrorIsNotPending(m: Memory, policy: Policy, f: Fetch)
    requires Fails(f.reply)
    ensures var r := PollStep(m, policy, f.startedAt, f.reply).1; r.err.Some? && r.err.value != PENDING
  {
    var message := PollStep(m, policy, f.startedAt, f.reply).1.err.value;
    assert |message| >= 2 && (message[0] != 'p' || message[1] != 'o');
    assert PENDING[0] == 'p' && PENDING[1] == 'o';
  }

  /** These cycles bring no snapshot, and each is put on record. */
  ghost predicate Outage(cs: seq<Cycle>) {
    forall c | c in cs :: Fails(c.fetch.reply) && c.fault.NoFault?
  }

  /** One more failed fetch. */
  lemma OutageGrows(g: seq<Attempt>, policy: Policy, m: Memory, c: Cycle, n: nat)
    requires Fails(c.fetch.reply) && c.fault.NoFault?
    requires var r := PollStep(m, policy, c.fetch.startedAt, c.fetch.reply).1;
             && WellFormed(g + [Attempt(r, c.pollId, c.fault)], SOURCE_NAME)
             && Numbered(g + [Attempt(r, c.pollId, c.fault)])
    ensures var (m', r) := PollStep(m, policy, c.fetch.startedAt, c.fetch.reply);
            && m' == m
            && Streak(Run(g + [Attempt(r, c.pollId, c.fault)], n).polls, SOURCE_NAME)
               == Streak(Run(g, n).polls, SOURCE_NAME) + 1
  {
    var r := PollStep(m, policy, c.fetch.startedAt, c.fetch.reply).1;
    var a := Attempt(r, c.pollId, c.fault);
    FailureIff(m, policy, c.fetch);
    ErrorIsNotPending(m, policy, c.fetch);
    var p := LatestRow(g, a, n, SOURCE_NAME);
    StreakSnoc(g, a, n, SOURCE_NAME, p);
  }

  /** However the feed was read before, k failed fetches in a row raise the
      failure streak by k, and the client forgets nothing. */
  lemma {:induction false} OutageRaisesStreak(h: seq<Attempt>, policy: Policy, m: Memory, cs: seq<Cycle>, n: nat)
    requires Outage(cs)
    requires WellFormed(h + Continued(policy, m, cs), SOURCE_NAME) && Numbered(h + Continued(policy, m, cs))
    ensures Resumed(policy, m, cs) == m
    ensures Streak(Run(h + Continued(policy, m, cs), n).polls, SOURCE_NAME)
         == Streak(Run(h, n).polls, SOURCE_NAME) + |cs|
  {
    if cs == [] {
      assert h + Continued(policy, m, cs) == h;
    } else {
      var before, c := cs[..|cs| - 1], cs[|cs| - 1];
      assert cs == before + [c];
      ContinuedOnce(policy, m, before, c);
      var g, r := h + Continued(policy, m, before), PollStep(Resumed(policy, m, before), policy, c.fetch.startedAt,
                                                             c.fetch.reply).1;
      var all := h + Continued(policy, m, cs);
      assert all == g + [Attempt(r, c.pollId, c.fault)];
      assert forall i | 0 <= i < |g| :: all[i] == g[i];
      OutageRaisesStreak(h, policy, m, before, n);
      OutageGrows(g, policy, Resumed(policy, m, before), c, n);
    }
  }

  /** After that the page never says healthy, and says down once the failures
      reach the threshold. */
  lemma OutageShows(h: seq<Attempt>, policy: Policy, m: Memory, cs: seq<Cycle>, n: nat, now: Time, s: Settings)
    requires Outage(cs) && cs != []
    requires WellFormed(h + Continued(policy, m, cs), SOURCE_NAME) && Numbered(h + Continued(policy, m, cs))
    ensures var status := StatusAt(Run(h + Continued(policy, m, cs), n).polls, SOURCE_NAME, now, s).0;
            !status.Healthy? && (|cs| >= s.downFailures ==> status.Down?)
  {
    OutageRaisesStreak(h, policy, m, cs, n);
    var polls := Run(h + Continued(policy, m, cs), n).polls;
    StatusIff(now, Streak(polls, SOURCE_NAME), EvidenceOf(polls, SOURCE_NAME), s);
  }

  // ---------------------------------------------------------------- a good poll

  /** The last poll of a lifetime, and what is on record of it. */
  lemma LastPoll(h: seq<Attempt>, policy: Policy, before: seq<Cycle>, c: Cycle, n: nat) returns (a: Attempt, p: PollRow)
    requires WellFormed(h + Attempts(policy, before + [c]), SOURCE_NAME) && c.fault.NoFault? && !Fails(c.fetch.reply)
    ensures a.r == PollStep(MemoryAfter(policy, Fetches(before)), policy, c.fetch.startedAt, c.fetch.reply).1
    ensures p.source == SOURCE_NAME && p.startedAt == c.fetch.startedAt && !Pending(p)
    ensures p.success <==> a.r.Success()
    ensures p.classification == a.r.classification && p.reason == a.r.reason && p.unchangedSince == a.r.unchangedSince
    ensures var polls := Run(h + Attempts(policy, before + [c]), n).polls;
            var earlier := Run(h + Attempts(policy, before), n).polls;
            && LastAttempt(polls, SOURCE_NAME) == Some(p)
            && LastSuccess(polls, SOURCE_NAME)
               == (if p.success then Some(p.startedAt) else LastSuccess(earlier, SOURCE_NAME))
    ensures p.classification != PollFailure && p.classification != Unclassified &&
            Numbered(h + Attempts(policy, before + [c])) ==>
      Streak(Run(h + Attempts(policy, before + [c]), n).polls, SOURCE_NAME) == 0
  {
    Prefixes(policy, before, c);
    var m := MemoryAfter(policy, Fetches(before));
    FailureIff(m, policy, c.fetch);
    MemoryChanges(m, policy, c.fetch);
    a := Attempt(PollStep(m, policy, c.fetch.startedAt, c.fetch.reply).1, c.pollId, c.fault);
    var g := h + Attempts(policy, before);
    assert h + Attempts(policy, before + [c]) == g + [a];
    p := LatestRow(g, a, n, SOURCE_NAME);
    LatestIsAttempt(Run(g, n).polls, p, SOURCE_NAME);
    if Numbered(g + [a]) {
      StreakSnoc(g, a, n, SOURCE_NAME, p);
    }
  }

  /** Right after a whole, corroborated and fresh snapshot that was applied, the
      page says healthy until the first of the two thresholds has passed, and
      down exactly from the second. */
  lemma HealthyAfterGoodPoll(h: seq<Attempt>, policy: Policy, before: seq<Cycle>, c: Cycle, n: nat, now: Time,
                             s: Settings)
    requires policy.Sane() && s.downFailures > 0
    requires WellFormed(h + Attempts(policy, before + [c]), SOURCE_NAME)
    requires Numbered(h + Attempts(policy, before + [c]))
    requires c.fault.NoFault? && Whole(c.fetch.reply) && !GoesStale(policy, Fetches(before), c.fetch)
    requires Corroborated(policy, Fetches(before), c.fetch, |c.fetch.reply.envelope.incidents.value|)
    ensures var (status, reason) :=
              StatusAt(Run(h + Attempts(policy, before + [c]), n).polls, SOURCE_NAME, now, s);
            && (status.Healthy? <==> now < c.fetch.startedAt + s.degradedAfter && now < c.fetch.startedAt + s.downAfter)
            && (status.Down? <==> now >= c.fetch.startedAt + s.downAfter)
            && reason == if status.Healthy? then "healthy" else "success_overdue"
  {
    AuthoritativeIff(policy, Fetches(before), c.fetch);
    var a, p := LastPoll(h, policy, before, c, n);
    var polls := Run(h + Attempts(policy, before + [c]), n).polls;
    StatusIff(now, Streak(polls, SOURCE_NAME), EvidenceOf(polls, SOURCE_NAME), s);
    ReasonIff(now, Streak(polls, SOURCE_NAME), EvidenceOf(polls, SOURCE_NAME), s);
  }

  // ---------------------------------------------------------------- a frozen feed

  /** While the feed is frozen the page says so, never healthy, and down once the
      run of equal payloads or the last success is old enough. */
  lemma FrozenFeedShows(h: seq<Attempt>, policy: Policy, before: seq<Cycle>, c: Cycle, n: nat, now: Time, s: Settings)
    requires policy.Sane() && s.downFailures > 0
    requires WellFormed(h + Attempts(policy, before + [c]), SOURCE_NAME)
    requires Numbered(h + Attempts(policy, before + [c]))
    requires c.fault.NoFault? && Whole(c.fetch.reply) && GoesStale(policy, Fetches(before), c.fetch)
    requires Corroborated(policy, Fetches(before), c.fetch, |c.fetch.reply.envelope.incidents.value|)
    requires LastSuccess(Run(h + Attempts(policy, before), n).polls, SOURCE_NAME).Some?
    ensures var (status, reason) :=
              StatusAt(Run(h + Attempts(policy, before + [c]), n).polls, SOURCE_NAME, now, s);
            var since := MemoryAfter(policy, Fetches(before + [c])).unchangedSince;
            var success := LastSuccess(Run(h + Attempts(policy, before), n).polls, SOURCE_NAME).value;
            && reason == "payload_frozen" && !status.Healthy?
            && (status.Down? <==> now >= since + s.frozenDownAfter || now >= success + s.downAfter)
  {
    DegradedIff(policy, Fetches(before), c.fetch);
    var a, p := LastPoll(h, policy, before, c, n);
    Prefixes(policy, before, c);
    FrozenSince(MemoryAfter(policy, Fetches(before)), policy, c.fetch);
    var polls := Run(h + Attempts(policy, before + [c]), n).polls;
    StatusIff(now, Streak(polls, SOURCE_NAME), EvidenceOf(polls, SOURCE_NAME), s);
    ReasonIff(now, Streak(polls, SOURCE_NAME), EvidenceOf(polls, SOURCE_NAME), s);
  }

  // ---------------------------------------------------------------- reading a poll row

  /** The latest row's note is what the status is computed from; a row without a
      note reads as healthy or as a failure by its success flag. */
  lemma LatestIsEvidence(polls: seq<PollRow>, p: PollRow, source: string)
    requires p.source == source && !Pending(p) && forall q | q in polls :: q.startedAt < p.startedAt
    ensures var e := EvidenceOf(polls + [p], source);
            && e.unchangedSince == p.unchangedSince
            && (p.classification != Unclassified ==> e.latest == p.classification)
            && (p.classification == Unclassified && p.success ==> e.latest == AuthoritativeSuccess)
            && (p.classification == Unclassified && !p.success ==> e.latest == PollFailure)
            && (p.reason != "" ==> e.latestReason == p.reason)
            && (p.reason == "" ==> e.latestReason == if p.success then "healthy" else "recent_failures")
            && (p.success ==> e.lastSuccess == Some(p.startedAt))
            && (!p.success ==> e.lastSuccess == LastSuccess(polls, source))
  {
    LatestIsAttempt(polls, p, source);
  }

  lemma BetterEndsStreak(polls: seq<PollRow>, p: PollRow, source: string)
    requires Better(p, source) && p.pollId > 0 && forall q | q in polls :: q.pollId < p.pollId
    ensures Streak(polls + [p], source) == 0
  {
    var all := polls + [p];
    assert all[..|polls|] == polls;
    forall q | q in polls ensures q.pollId <= p.pollId - 1 {}
    LastBetterBounds(polls, source, p.pollId - 1);
    NoneAfter(polls, source, p.pollId);
  }

  /** The row that goes with a promotion makes the second source healthy until the
      first threshold has passed, as a good poll does the first. */
  lemma PromotionShowsHealthy(polls: seq<PollRow>, at: Time, pollId: int, p: PollRow, now: Time, s: Settings)
    requires PollAs(at, pollId, p) && pollId > 0 && s.downFailures > 0
    requires forall q | q in polls :: q.startedAt < at && q.pollId < pollId
    ensures var (status, reason) := StatusAt(polls + [p], SDR, now, s);
            && (status.Healthy? <==> now < at + s.degradedAfter && now < at + s.downAfter)
            && reason == if status.Healthy? then "healthy" else "success_overdue"
  {
    var all := polls + [p];
    LatestIsEvidence(polls, p, SDR);
    BetterEndsStreak(polls, p, SDR);
    StatusIff(now, 0, EvidenceOf(all, SDR), s);
    ReasonIff(now, 0, EvidenceOf(all, SDR), s);
  }
}
