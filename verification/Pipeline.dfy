/** The client in front of the lifecycle engine: what a frozen or a collapsed
    feed can and cannot clear. */
module Pipeline {
  import opened Types
  import opened Tables
  import opened Lifecycle
  import opened Clearing
  import opened Feed

  /** One turn of the ingester's loop: fetch, then apply under some fault. */
  datatype Cycle = Cycle(fetch: Fetch, pollId: int, fault: Fault)

  function Fetches(cs: seq<Cycle>): (fs: seq<Fetch>)
    ensures |fs| == |cs| && forall i | 0 <= i < |cs| :: fs[i] == cs[i].fetch
  {
    if cs == [] then [] else Fetches(cs[..|cs| - 1]) + [cs[|cs| - 1].fetch]
  }

  /** What a client lifetime hands to Apply. */
  function Attempts(policy: Policy, cs: seq<Cycle>): (h: seq<Attempt>)
    ensures |h| == |cs|
  {
    if cs == [] then []
    else
      var c := cs[|cs| - 1];
      var m := MemoryAfter(policy, Fetches(cs[..|cs| - 1]));
      Attempts(policy, cs[..|cs| - 1])
      + [Attempt(PollStep(m, policy, c.fetch.startedAt, c.fetch.reply).1, c.pollId, c.fault)]
  }

  lemma Prefixes(policy: Policy, cs: seq<Cycle>, c: Cycle)
    ensures Fetches(cs + [c]) == Fetches(cs) + [c.fetch]
    ensures var (m, r) := PollStep(MemoryAfter(policy, Fetches(cs)), policy, c.fetch.startedAt, c.fetch.reply);
      && MemoryAfter(policy, Fetches(cs + [c])) == m
      && Attempts(policy, cs + [c]) == Attempts(policy, cs) + [Attempt(r, c.pollId, c.fault)]
  {
    assert (cs + [c])[..|cs|] == cs;
    assert (Fetches(cs) + [c.fetch])[..|cs|] == Fetches(cs);
  }

  // ---------------------------------------------------------------- frozen feeds

  /** Authoritative polls started at or after an instant. */
  ghost function AuthoritativeSince(h: seq<Attempt>, t: Time): nat {
    if h == [] then 0
    else AuthoritativeSince(h[..|h| - 1], t)
         + if h[|h| - 1].r.Success() && h[|h| - 1].r.startedAt >= t then 1 else 0
  }

  lemma {:induction false} AuthoritativeConcat(g: seq<Attempt>, h: seq<Attempt>, t: Time)
    ensures AuthoritativeSince(g + h, t) == AuthoritativeSince(g, t) + AuthoritativeSince(h, t)
  {
    if h == [] {
      assert g + h == g;
    } else {
      AuthoritativeConcat(g, h[..|h| - 1], t);
      assert (g + h)[..|g + h| - 1] == g + h[..|h| - 1];
    }
  }

  lemma {:induction false} NoneSince(h: seq<Attempt>, t: Time)
    requires forall i | 0 <= i < |h| :: h[i].r.startedAt < t
    ensures AuthoritativeSince(h, t) == 0
  {
    if h != [] {
      NoneSince(h[..|h| - 1], t);
    }
  }

  lemma OneMoreSuccess(db: Db, a: Attempt, n: nat, source: string, t: Time)
    requires Proper(a, source) && Inv(db, source, a.r.startedAt - 1, a.pollId - 1)
    ensures SuccessesSince(Apply(db, a, n).polls, source, t)
         <= SuccessesSince(db.polls, source, t) + if a.r.Success() && a.r.startedAt >= t then 1 else 0
  {
    var polls, last := ApplyPolls(db, a, n);
    SuccessesOfOneMore(db.polls, last, source, t);
  }

  /** Successes on record never outnumber the authoritative polls. */
  lemma {:induction false} SuccessesAreAuthoritative(h: seq<Attempt>, n: nat, source: string, t: Time)
    requires WellFormed(h, source)
    ensures SuccessesSince(Run(h, n).polls, source, t) <= AuthoritativeSince(h, t)
  {
    if h != [] {
      var g, a := h[..|h| - 1], h[|h| - 1];
      assert h == g + [a];
      ReachableFacts(g, a, n, source);
      SuccessesAreAuthoritative(g, n, source, t);
      OneMoreSuccess(Run(g, n), a, n, source, t);
    }
  }

  lemma {:induction false} AttemptTimes(policy: Policy, cs: seq<Cycle>)
    ensures forall i | 0 <= i < |cs| :: IsCycle(policy, cs, Attempts(policy, cs)[i], i)
  {
    if cs != [] {
      var before, c := cs[..|cs| - 1], cs[|cs| - 1];
      assert cs == before + [c];
      AttemptTimes(policy, before);
      Prefixes(policy, before, c);
      MemoryChanges(MemoryAfter(policy, Fetches(before)), policy, c.fetch);
      forall i | 0 <= i < |cs| ensures IsCycle(policy, cs, Attempts(policy, cs)[i], i) {
        assert Fetches(cs)[..i] == Fetches(before)[..i];
        if i < |before| {
          assert IsCycle(policy, before, Attempts(policy, before)[i], i);
        } else {
          assert Fetches(before)[..i] == Fetches(before);
        }
      }
    }
  }

  /** The attempt is what the i-th cycle of a lifetime hands to Apply. */
  ghost predicate IsCycle(policy: Policy, cs: seq<Cycle>, a: Attempt, i: nat)
    requires i < |cs|
  {
    && a.r.startedAt == cs[i].fetch.startedAt && a.pollId == cs[i].pollId && a.fault == cs[i].fault
    && a.r == ResultOf(policy, Fetches(cs), i)
  }

  /** The run of identical payloads the client remembers began in one of these
      cycles and has brought few authoritative polls. */
  ghost predicate RunBounded(policy: Policy, h: seq<Attempt>, cs: seq<Cycle>, m: Memory) {
    m.repeatedPayloads > 0 ==>
      && AuthoritativeSince(h, m.unchangedSince) <= m.repeatedPayloads
      && AuthoritativeSince(h, m.unchangedSince) <= policy.frozenRepeatCount - 1
      && exists i :: 0 <= i < |cs| && cs[i].fetch.startedAt == m.unchangedSince
  }

  lemma RunBoundedStep(policy: Policy, h: seq<Attempt>, cs: seq<Cycle>, m: Memory, c: Cycle)
    requires policy.Sane() && RunBounded(policy, h, cs, m)
    requires m.repeatedPayloads == 0 ==> m.lastPayloadSHA == ""
    requires forall i | 0 <= i < |h| :: h[i].r.startedAt < c.fetch.startedAt
    ensures var (m', r) := PollStep(m, policy, c.fetch.startedAt, c.fetch.reply);
            RunBounded(policy, h + [Attempt(r, c.pollId, c.fault)], cs + [c], m')
  {
    var (m', r) := PollStep(m, policy, c.fetch.startedAt, c.fetch.reply);
    MemoryChanges(m, policy, c.fetch);
    assert (h + [Attempt(r, c.pollId, c.fault)])[..|h|] == h;
    if m'.repeatedPayloads > 0 {
      if VouchedFor(m, policy, c.fetch).Payload? && m'.repeatedPayloads == 1 {
        NoneSince(h, m'.unchangedSince);
        assert (cs + [c])[|cs|].fetch.startedAt == m'.unchangedSince;
      } else {
        var i :| 0 <= i < |cs| && cs[i].fetch.startedAt == m.unchangedSince;
        assert (cs + [c])[i].fetch.startedAt == m'.unchangedSince;
      }
    }
  }

  /** Within one run of identical payloads at most frozenRepeatCount - 1 polls
      are authoritative. */
  lemma {:induction false} RunAuthority(policy: Policy, cs: seq<Cycle>)
    requires policy.Sane()
    requires forall i, j | 0 <= i < j < |cs| :: cs[i].fetch.startedAt < cs[j].fetch.startedAt
    ensures RunBounded(policy, Attempts(policy, cs), cs, MemoryAfter(policy, Fetches(cs)))
  {
    if cs != [] {
      var before, c := cs[..|cs| - 1], cs[|cs| - 1];
      assert cs == before + [c];
      RunAuthority(policy, before);
      Prefixes(policy, before, c);
      AttemptTimes(policy, before);
      MemoryTracksRun(policy, Fetches(before));
      RunBoundedStep(policy, Attempts(policy, before), before, MemoryAfter(policy, Fetches(before)), c);
    }
  }

  /** What a poll sweeps has n successes on record since it went missing. */
  lemma SweptHasSuccesses(db: Db, a: Attempt, n: nat, key: Key)
    requires key in ClearedBy(db, a, n) && forall p | p in db.polls :: p.pollId != a.pollId
    ensures SuccessesSince(db.polls, a.r.source, ClearedBy(db, a, n)[key]) >= n
  {
    PollsOf(db, a, n, Sweeping(a.r));
    SuccessesOfOneMore(db.polls, NewPoll(a.r, a.pollId, false, Some(PENDING)), a.r.source, ClearedBy(db, a, n)[key]);
  }

  /** Whatever an authoritative poll of a run of identical payloads clears was
      first missed before the run began, provided the run can bring no more
      than n authoritative polls; earlier history h is arbitrary. */
  lemma FrozenFeedCannotClear(h: seq<Attempt>, policy: Policy, cs: seq<Cycle>, n: nat, key: Key)
    requires policy.Sane() && cs != []
    requires WellFormed(h + Attempts(policy, cs), SOURCE_NAME)
    requires MemoryAfter(policy, Fetches(cs)).repeatedPayloads > 0
    requires policy.frozenRepeatCount - 1 <= n
    requires var g := h + Attempts(policy, cs); var last := |g| - 1;
      g[last].r.Success() && key in ClearedBy(Run(g[..last], n), g[last], n)
    ensures var g := h + Attempts(policy, cs); var last := |g| - 1;
      ClearedBy(Run(g[..last], n), g[last], n)[key] < MemoryAfter(policy, Fetches(cs)).unchangedSince
  {
    var before, c := cs[..|cs| - 1], cs[|cs| - 1];
    assert cs == before + [c];
    Prefixes(policy, before, c);
    var g := h + Attempts(policy, cs);
    var prior, a := h + Attempts(policy, before), g[|g| - 1];
    assert g == prior + [a] && g[..|g| - 1] == prior;
    var m := MemoryAfter(policy, Fetches(cs));
    RunSoFar(h, policy, before, c, n);
    ReachableFacts(prior, a, n, SOURCE_NAME);
    var t := ClearedBy(Run(prior, n), a, n)[key];
    SweptHasSuccesses(Run(prior, n), a, n, key);
    if t >= m.unchangedSince {
      FewerLater(Run(prior, n).polls, SOURCE_NAME, m.unchangedSince, t);
    }
  }

  lemma {:induction false} FewerLater(polls: seq<PollRow>, source: string, s: Time, t: Time)
    requires s <= t
    ensures SuccessesSince(polls, source, t) <= SuccessesSince(polls, source, s)
  {
    if polls != [] {
      FewerLater(polls[..|polls| - 1], source, s, t);
    }
  }

  /** A run began within this lifetime, after all earlier history. */
  lemma RunIsRecent(h: seq<Attempt>, policy: Policy, cs: seq<Cycle>, since: Time)
    requires WellFormed(h + Attempts(policy, cs), SOURCE_NAME)
    requires exists i :: 0 <= i < |cs| && cs[i].fetch.startedAt == since
    ensures AuthoritativeSince(h, since) == 0
    ensures cs[|cs| - 1].fetch.startedAt >= since
  {
    var g := h + Attempts(policy, cs);
    AttemptTimes(policy, cs);
    assert forall i | 0 <= i < |cs| :: g[|h| + i].r.startedAt == cs[i].fetch.startedAt;
    var i :| 0 <= i < |cs| && cs[i].fetch.startedAt == since;
    assert g[|h| + i].r.startedAt == since;
    assert g[|h| + |cs| - 1].r.startedAt == cs[|cs| - 1].fetch.startedAt;
    forall j | 0 <= j < |h| ensures h[j].r.startedAt < since {
      assert g[j] == h[j];
    }
    NoneSince(h, since);
  }

  lemma CyclesAreOrdered(h: seq<Attempt>, policy: Policy, cs: seq<Cycle>)
    requires WellFormed(h + Attempts(policy, cs), SOURCE_NAME)
    ensures forall i, j | 0 <= i < j < |cs| :: cs[i].fetch.startedAt < cs[j].fetch.startedAt
  {
    var g := h + Attempts(policy, cs);
    AttemptTimes(policy, cs);
    assert forall i | 0 <= i < |cs| :: g[|h| + i].r.startedAt == cs[i].fetch.startedAt;
    forall i, j | 0 <= i < j < |cs| ensures cs[i].fetch.startedAt < cs[j].fetch.startedAt {
      assert g[|h| + i].r.startedAt < g[|h| + j].r.startedAt;
    }
  }

  /** Before a run's latest authoritative poll there were few others. */
  lemma RunShare(policy: Policy, before: seq<Cycle>, c: Cycle)
    requires policy.Sane()
    requires forall i, j | 0 <= i < j < |before + [c]| ::
      (before + [c])[i].fetch.startedAt < (before + [c])[j].fetch.startedAt
    requires var m := MemoryAfter(policy, Fetches(before + [c]));
             m.repeatedPayloads > 0 && c.fetch.startedAt >= m.unchangedSince
    requires PollStep(MemoryAfter(policy, Fetches(before)), policy, c.fetch.startedAt, c.fetch.reply).1.Success()
    ensures AuthoritativeSince(Attempts(policy, before), MemoryAfter(policy, Fetches(before + [c])).unchangedSince)
         <= policy.frozenRepeatCount - 2
  {
    RunAuthority(policy, before + [c]);
    Prefixes(policy, before, c);
    MemoryChanges(MemoryAfter(policy, Fetches(before)), policy, c.fetch);
    var h := Attempts(policy, before + [c]);
    assert h[..|before|] == Attempts(policy, before);
  }

  /** Successes of the current run on record before its latest authoritative poll. */
  lemma RunSoFar(h: seq<Attempt>, policy: Policy, before: seq<Cycle>, c: Cycle, n: nat)
    requires policy.Sane() && WellFormed(h + Attempts(policy, before + [c]), SOURCE_NAME)
    requires MemoryAfter(policy, Fetches(before + [c])).repeatedPayloads > 0
    requires PollStep(MemoryAfter(policy, Fetches(before)), policy, c.fetch.startedAt, c.fetch.reply).1.Success()
    ensures SuccessesSince(Run(h + Attempts(policy, before), n).polls, SOURCE_NAME,
                           MemoryAfter(policy, Fetches(before + [c])).unchangedSince)
         <= policy.frozenRepeatCount - 2
  {
    var cs := before + [c];
    var since := MemoryAfter(policy, Fetches(cs)).unchangedSince;
    CyclesAreOrdered(h, policy, cs);
    RunAuthority(policy, cs);
    RunIsRecent(h, policy, cs, since);
    RunShare(policy, before, c);
    var h1 := Attempts(policy, before);
    EarlierIsWellFormed(h, policy, before, c);
    SuccessesAreAuthoritative(h + h1, n, SOURCE_NAME, since);
    AuthoritativeConcat(h, h1, since);
  }

  lemma EarlierIsWellFormed(h: seq<Attempt>, policy: Policy, before: seq<Cycle>, c: Cycle)
    requires WellFormed(h + Attempts(policy, before + [c]), SOURCE_NAME)
    ensures WellFormed(h + Attempts(policy, before), SOURCE_NAME)
  {
    Prefixes(policy, before, c);
    var h1, h2 := Attempts(policy, before), Attempts(policy, before + [c]);
    assert forall i | 0 <= i < |h + h1| :: (h + h1)[i] == (h + h2)[i];
  }

  /** The client's memory after some cycles that found it as m. */
  function Resumed(policy: Policy, m: Memory, cs: seq<Cycle>): Memory {
    if cs == [] then m
    else
      var c := cs[|cs| - 1];
      PollStep(Resumed(policy, m, cs[..|cs| - 1]), policy, c.fetch.startedAt, c.fetch.reply).0
  }

  /** What those cycles hand to Apply. */
  function Continued(policy: Policy, m: Memory, cs: seq<Cycle>): (h: seq<Attempt>)
    ensures |h| == |cs|
  {
    if cs == [] then []
    else
      var before, c := cs[..|cs| - 1], cs[|cs| - 1];
      Continued(policy, m, before)
      + [Attempt(PollStep(Resumed(policy, m, before), policy, c.fetch.startedAt, c.fetch.reply).1, c.pollId, c.fault)]
  }

  lemma ContinuedOnce(policy: Policy, m: Memory, cs: seq<Cycle>, c: Cycle)
    ensures var (m', r) := PollStep(Resumed(policy, m, cs), policy, c.fetch.startedAt, c.fetch.reply);
      && Resumed(policy, m, cs + [c]) == m'
      && Continued(policy, m, cs + [c]) == Continued(policy, m, cs) + [Attempt(r, c.pollId, c.fault)]
  {
    assert (cs + [c])[..|cs|] == cs;
  }

  /** The lifetime `all` is a beginning cs, which left m, continued by `more`. */
  ghost predicate Continues(policy: Policy, cs: seq<Cycle>, m: Memory, more: seq<Cycle>, all: seq<Cycle>) {
    && MemoryAfter(policy, Fetches(all)) == Resumed(policy, m, more)
    && Attempts(policy, all) == Attempts(policy, cs) + Continued(policy, m, more)
  }

  lemma ContinuesOneMore(policy: Policy, cs: seq<Cycle>, m: Memory, more: seq<Cycle>, all: seq<Cycle>,
                         rest: seq<Cycle>, before: seq<Cycle>, c: Cycle)
    requires more == rest + [c] && all == before + [c]
    requires Continues(policy, cs, m, rest, before)
    ensures Continues(policy, cs, m, more, all)
  {
    Prefixes(policy, before, c);
    ContinuedOnce(policy, m, rest, c);
  }

  lemma ContinuesByNothing(policy: Policy, cs: seq<Cycle>)
    ensures Continues(policy, cs, MemoryAfter(policy, Fetches(cs)), [], cs)
  {
    assert Attempts(policy, cs) + [] == Attempts(policy, cs);
  }

  lemma {:induction false} ContinuesByAll(policy: Policy, cs: seq<Cycle>, m: Memory, more: seq<Cycle>, all: seq<Cycle>)
    requires Continues(policy, cs, m, [], cs) && all == cs + more
    ensures Continues(policy, cs, m, more, all)
    decreases |more|
  {
    if more == [] {
      assert all == cs;
    } else {
      var rest, before := more[..|more| - 1], all[..|all| - 1];
      ContinuesByAll(policy, cs, m, rest, before);
      ContinuesOneMore(policy, cs, m, more, all, rest, before, more[|more| - 1]);
    }
  }

  /** A lifetime is its beginning, continued. */
  lemma LifetimeContinues(policy: Policy, cs: seq<Cycle>, more: seq<Cycle>)
    ensures Continues(policy, cs, MemoryAfter(policy, Fetches(cs)), more, cs + more)
  {
    ContinuesByNothing(policy, cs);
    ContinuesByAll(policy, cs, MemoryAfter(policy, Fetches(cs)), more, cs + more);
  }

  /** These fault-free cycles all bring one non-empty payload new to the client. */
  ghost predicate Frozen(policy: Policy, m: Memory, fr: seq<Cycle>, hash: Hash) {
    if fr == [] then m.lastPayloadSHA != hash
    else
      var before, c := fr[..|fr| - 1], fr[|fr| - 1];
      && Frozen(policy, m, before, hash)
      && c.fault.NoFault?
      && VouchedFor(Resumed(policy, m, before), policy, c.fetch) == Payload(hash, c.fetch.startedAt)
  }

  function Min(a: int, b: int): int { if a <= b then a else b }

  /** One more frozen poll: authoritative only while the run is short. */
  lemma FrozenPoll(m: Memory, policy: Policy, f: Fetch, hash: Hash)
    requires VouchedFor(m, policy, f) == Payload(hash, f.startedAt)
    ensures var (m', r) := PollStep(m, policy, f.startedAt, f.reply);
      && m'.lastPayloadSHA == hash
      && m'.repeatedPayloads == (if m.lastPayloadSHA == hash then m.repeatedPayloads + 1 else 1)
      && (r.Success() <==> m'.repeatedPayloads < policy.frozenRepeatCount)
  {
    MemoryChanges(m, policy, f);
  }

  /** What a frozen feed has brought: a few authoritative polls, no faults. */
  ghost predicate FrozenTrail(policy: Policy, h: seq<Attempt>, m: Memory, k: nat, hash: Hash) {
    && |h| == k && Authoritative(h) == Min(k, policy.frozenRepeatCount - 1)
    && (forall i | 0 <= i < k :: h[i].fault.NoFault?)
    && (k > 0 ==> m.repeatedPayloads == k && m.lastPayloadSHA == hash)
  }

  lemma FrozenTrailGrows(policy: Policy, h: seq<Attempt>, m: Memory, k: nat, hash: Hash, c: Cycle)
    requires policy.Sane() && FrozenTrail(policy, h, m, k, hash) && c.fault.NoFault?
    requires VouchedFor(m, policy, c.fetch) == Payload(hash, c.fetch.startedAt)
    requires k == 0 ==> m.lastPayloadSHA != hash
    ensures var (m', r) := PollStep(m, policy, c.fetch.startedAt, c.fetch.reply);
            FrozenTrail(policy, h + [Attempt(r, c.pollId, c.fault)], m', k + 1, hash)
  {
    FrozenPoll(m, policy, c.fetch, hash);
    var (m', r) := PollStep(m, policy, c.fetch.startedAt, c.fetch.reply);
    assert (h + [Attempt(r, c.pollId, c.fault)])[..k] == h;
  }

  lemma {:induction false} FrozenTail(policy: Policy, m: Memory, fr: seq<Cycle>, hash: Hash)
    requires policy.Sane() && Frozen(policy, m, fr, hash)
    ensures FrozenTrail(policy, Continued(policy, m, fr), Resumed(policy, m, fr), |fr|, hash)
  {
    if fr != [] {
      var rest, c := fr[..|fr| - 1], fr[|fr| - 1];
      FrozenTail(policy, m, rest, hash);
      FrozenTrailGrows(policy, Continued(policy, m, rest), Resumed(policy, m, rest), |rest|, hash, c);
    }
  }

  /** An incident observed right before a feed freezes on payloads that do not
      list it is cleared, however long the freeze lasts, if and only if the
      freeze brings n + 1 polls before it is called frozen. */
  lemma FrozenFeedClearsIff(seen: seq<Attempt>, policy: Policy, m: Memory, fr: seq<Cycle>, hash: Hash, n: nat, key: Key)
    requires policy.Sane() && Frozen(policy, m, fr, hash)
    requires WellFormed(seen + Continued(policy, m, fr), SOURCE_NAME)
    requires seen != [] && Observes(Run(seen[..|seen| - 1], n), seen[|seen| - 1], n, key)
    requires forall i | 0 <= i < |fr| :: key.id !in Ids(Continued(policy, m, fr)[i].r.incidents)
    ensures var e := Run(seen + Continued(policy, m, fr), n);
      && key in e.incidents
      && (e.incidents[key].clearedAt.Some? <==> Min(|fr|, policy.frozenRepeatCount - 1) >= n + 1)
  {
    FrozenTail(policy, m, fr, hash);
    ClearedOnMissNPlusOne(seen, Continued(policy, m, fr), n, SOURCE_NAME, key);
  }

  // ---------------------------------------------------------------- collapses

  /** Every success on record from a client lifetime, and so every poll that
      ever counts toward a clear, kept most of the snapshot before it or was
      confirmed by an independent count. */
  lemma CountedPollsAreCorroborated(h: seq<Attempt>, policy: Policy, cs: seq<Cycle>, n: nat, p: PollRow)
    returns (i: nat)
    requires policy.Sane() && WellFormed(h + Attempts(policy, cs), SOURCE_NAME)
    requires cs != [] && p in Run(h + Attempts(policy, cs), n).polls && p.success
    requires p.startedAt >= cs[0].fetch.startedAt
    ensures i < |cs| && cs[i].fetch.startedAt == p.startedAt
    ensures ResultOf(policy, Fetches(cs), i).Success()
    ensures Corroborated(policy, Fetches(cs)[..i], cs[i].fetch, |ResultOf(policy, Fetches(cs), i).incidents|)
  {
    AttemptTimes(policy, cs);
    var j := SuccessCameFrom(h + Attempts(policy, cs), n, SOURCE_NAME, p);
    assert IsCycle(policy, cs, Attempts(policy, cs)[0], 0);
    i := InLaterPart(h, Attempts(policy, cs), SOURCE_NAME, j);
    assert IsCycle(policy, cs, Attempts(policy, cs)[i], i);
    AuthoritativeIsCorroborated(policy, Fetches(cs), i);
  }

  lemma InLaterPart(h: seq<Attempt>, later: seq<Attempt>, source: string, j: nat) returns (i: nat)
    requires WellFormed(h + later, source) && j < |h + later| && later != []
    requires (h + later)[j].r.startedAt >= later[0].r.startedAt
    ensures i < |later| && later[i] == (h + later)[j]
  {
    assert (h + later)[|h|] == later[0];
    i := j - |h|;
  }

  lemma {:induction false} SuccessCameFrom(h: seq<Attempt>, n: nat, source: string, p: PollRow) returns (j: nat)
    requires WellFormed(h, source) && p in Run(h, n).polls && p.success
    ensures j < |h| && h[j].r.Success() && h[j].r.startedAt == p.startedAt
  {
    var g, a := h[..|h| - 1], h[|h| - 1];
    assert h == g + [a];
    ReachableFacts(g, a, n, source);
    var polls, last := ApplyPolls(Run(g, n), a, n);
    if p in Run(g, n).polls {
      j := SuccessCameFrom(g, n, source, p);
    } else {
      j := |g|;
    }
  }
}
