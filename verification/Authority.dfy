/** Only authoritative polls matter: leaving the others out of a run changes
    neither incidents, unit rows nor events, apart from the poll ids in them. */
module Authority {
  import opened Types
  import opened Deltas
  import opened Tables
  import opened Lifecycle
  import opened Clearing

  ghost predicate AlikeRow(x: IncidentRow, y: IncidentRow) {
    x.(lastSeenPollId := 0) == y.(lastSeenPollId := 0)
  }

  ghost predicate AlikeIntervals(x: seq<Interval>, y: seq<Interval>) {
    && |x| == |y|
    && forall i | 0 <= i < |x| ::
         x[i].(firstPoll := 0, lastPoll := 0) == y[i].(firstPoll := 0, lastPoll := 0)
  }

  ghost predicate AlikeLogs(x: seq<BagEvent>, y: seq<BagEvent>) {
    && |x| == |y|
    && forall i | 0 <= i < |x| :: x[i].(pollId := 0) == y[i].(pollId := 0)
  }

  /** Equal up to poll ids, and with the same successes on record. */
  ghost predicate Alike(d: Db, e: Db, source: string) {
    && d.incidents.Keys == e.incidents.Keys
    && (forall k | k in d.incidents :: AlikeRow(d.incidents[k], e.incidents[k]))
    && (forall uk :: AlikeIntervals(d.History(uk), e.History(uk)))
    && (forall k :: AlikeLogs(d.Log(k), e.Log(k)))
    && (forall t :: SuccessesSince(d.polls, source, t) == SuccessesSince(e.polls, source, t))
  }

  // ---------------------------------------------------------------- statements

  lemma {:induction false} SameLatest(x: seq<Interval>, y: seq<Interval>)
    requires AlikeIntervals(x, y)
    ensures Latest(x) == Latest(y)
  {
    if x != [] {
      assert AlikeIntervals(x[..|x| - 1], y[..|y| - 1]);
      SameLatest(x[..|x| - 1], y[..|y| - 1]);
      var best := Latest(x[..|x| - 1]);
      if best.Some? {
        assert x[best.value].(firstPoll := 0, lastPoll := 0) == y[best.value].(firstPoll := 0, lastPoll := 0);
      }
      assert x[|x| - 1].(firstPoll := 0, lastPoll := 0) == y[|y| - 1].(firstPoll := 0, lastPoll := 0);
    }
  }

  lemma AlikeSync(x: seq<Interval>, y: seq<Interval>, was: bool, status: string, p: int, q: int, t: Time)
    requires AlikeIntervals(x, y)
    ensures AlikeIntervals(SyncUnit(x, was, status, p, t), SyncUnit(y, was, status, q, t))
  {
    SameLatest(x, y);
    var l := Latest(x);
    if l.Some? {
      assert x[l.value].(firstPoll := 0, lastPoll := 0) == y[l.value].(firstPoll := 0, lastPoll := 0);
    }
  }

  lemma {:induction false} AlikeSyncUnits(d: Db, e: Db, prior: map<string, Unit>, key: Key, units: seq<Unit>,
                                          p: int, q: int, t: Time, uk: UnitKey)
    requires forall k :: AlikeIntervals(d.History(k), e.History(k))
    ensures AlikeIntervals(SyncUnits(d, prior, key, units, p, t).History(uk),
                           SyncUnits(e, prior, key, units, q, t).History(uk))
  {
    if units != [] {
      var rest, unit := units[..|units| - 1], units[|units| - 1];
      AlikeSyncUnits(d, e, prior, key, rest, p, q, t, uk);
      if unit.name != "" && uk == UnitKey(key, unit.name) {
        AlikeSync(SyncUnits(d, prior, key, rest, p, t).History(uk), SyncUnits(e, prior, key, rest, q, t).History(uk),
                  unit.name in prior, unit.status, p, q, t);
      }
    }
  }

  lemma AlikeUpsertUnits(d: Db, e: Db, prior: Option<Prior>, inc: Incident, p: int, q: int, t: Time, uk: UnitKey)
    requires prior == d.PriorOf(inc.key) && prior == e.PriorOf(inc.key)
    requires forall k :: AlikeIntervals(d.History(k), e.History(k))
    ensures AlikeIntervals(Upsert(d, inc, p, t).History(uk), Upsert(e, inc, q, t).History(uk))
  {
    AlikeSyncUnits(d, e, PriorUnits(prior), inc.key, inc.units, p, q, t, uk);
    assert Upsert(d, inc, p, t).History(uk) == SyncUnits(d, PriorUnits(prior), inc.key, inc.units, p, t).History(uk);
    assert Upsert(e, inc, q, t).History(uk) == SyncUnits(e, PriorUnits(prior), inc.key, inc.units, q, t).History(uk);
  }

  lemma AlikeUpsertLogs(d: Db, e: Db, prior: Option<Prior>, inc: Incident, p: int, q: int, t: Time, k: Key)
    requires prior == d.PriorOf(inc.key) && prior == e.PriorOf(inc.key)
    requires AlikeLogs(d.Log(k), e.Log(k))
    ensures AlikeLogs(Upsert(d, inc, p, t).Log(k), Upsert(e, inc, q, t).Log(k))
  {
    if k == inc.key {
      AlikeNews(d.Log(k), e.Log(k), prior, inc, p, q, t);
    }
  }

  lemma AlikeUpserted(d: Db, e: Db, source: string, d': Db, e': Db, key: Key, x: IncidentRow, y: IncidentRow)
    requires Alike(d, e, source) && AlikeRow(x, y)
    requires d'.incidents == d.incidents[key := x] && d'.polls == d.polls
    requires e'.incidents == e.incidents[key := y] && e'.polls == e.polls
    requires forall uk :: AlikeIntervals(d'.History(uk), e'.History(uk))
    requires forall k :: AlikeLogs(d'.Log(k), e'.Log(k))
    ensures Alike(d', e', source)
  {
  }

  lemma AlikeUpsert(d: Db, e: Db, source: string, inc: Incident, p: int, q: int, t: Time)
    requires Alike(d, e, source)
    ensures Alike(Upsert(d, inc, p, t), Upsert(e, inc, q, t), source)
  {
    assert inc.key in d.incidents ==> AlikeRow(d.incidents[inc.key], e.incidents[inc.key]);
    var prior := d.PriorOf(inc.key);
    assert prior == e.PriorOf(inc.key);
    forall uk ensures AlikeIntervals(Upsert(d, inc, p, t).History(uk), Upsert(e, inc, q, t).History(uk)) {
      AlikeUpsertUnits(d, e, prior, inc, p, q, t, uk);
    }
    forall k ensures AlikeLogs(Upsert(d, inc, p, t).Log(k), Upsert(e, inc, q, t).Log(k)) {
      AlikeUpsertLogs(d, e, prior, inc, p, q, t, k);
    }
    var d', e' := Upsert(d, inc, p, t), Upsert(e, inc, q, t);
    AlikeUpserted(d, e, source, d', e', inc.key, d'.incidents[inc.key], e'.incidents[inc.key]);
  }

  lemma AlikeNews(x: seq<BagEvent>, y: seq<BagEvent>, prior: Option<Prior>, inc: Incident, p: int, q: int, t: Time)
    requires AlikeLogs(x, y)
    ensures AlikeLogs(x + UpsertEvents(prior, inc, p, t), y + UpsertEvents(prior, inc, q, t))
  {
    var u, v := UpsertEvents(prior, inc, p, t), UpsertEvents(prior, inc, q, t);
    assert |u| == |v| <= 1 && (|u| == 1 ==> u[0].(pollId := 0) == v[0].(pollId := 0));
  }

  lemma AlikeMissing(d: Db, e: Db, source: string, t: Time, ids: set<string>)
    requires Alike(d, e, source)
    ensures Alike(MarkMissing(d, source, t, ids), MarkMissing(e, source, t, ids), source)
  {
    var d', e' := MarkMissing(d, source, t, ids), MarkMissing(e, source, t, ids);
    forall k | k in d.incidents ensures AlikeRow(d'.incidents[k], e'.incidents[k]) {
      assert AlikeRow(d.incidents[k], e.incidents[k]);
    }
    SameTables(d, d', e, e', source);
  }

  lemma SameTables(d: Db, d': Db, e: Db, e': Db, source: string)
    requires Alike(d, e, source)
    requires d'.units == d.units && d'.events == d.events && d'.polls == d.polls
    requires e'.units == e.units && e'.events == e.events && e'.polls == e.polls
    requires d'.incidents.Keys == e'.incidents.Keys
    requires forall k | k in d'.incidents :: AlikeRow(d'.incidents[k], e'.incidents[k])
    ensures Alike(d', e', source)
  {
    assert forall uk :: d'.History(uk) == d.History(uk) && e'.History(uk) == e.History(uk);
    assert forall k :: d'.Log(k) == d.Log(k) && e'.Log(k) == e.Log(k);
  }

  lemma SameSweepable(d: Db, e: Db, source: string, n: nat)
    requires Alike(d, e, source)
    ensures Sweepable(d, source, n) == Sweepable(e, source, n)
  {
    forall k | k in d.incidents
      ensures d.incidents[k].clearedAt == e.incidents[k].clearedAt
      ensures d.incidents[k].missingSince == e.incidents[k].missingSince
    {
      assert AlikeRow(d.incidents[k], e.incidents[k]);
    }
    assert Sweepable(d, source, n).Keys == Sweepable(e, source, n).Keys;
  }

  lemma AlikeSweep(d: Db, e: Db, source: string, n: nat)
    requires Alike(d, e, source)
    ensures Alike(SweepCleared(d, source, n), SweepCleared(e, source, n), source)
  {
    SameSweepable(d, e, source, n);
    var d', e' := SweepCleared(d, source, n), SweepCleared(e, source, n);
    forall k | k in d.incidents ensures AlikeRow(d'.incidents[k], e'.incidents[k]) {
      assert AlikeRow(d.incidents[k], e.incidents[k]);
    }
    SameTables(d, d', e, e', source);
  }

  lemma AlikeRecordedLog(d: Db, e: Db, cleared: map<Key, Time>, p: int, q: int, k: Key)
    requires AlikeLogs(d.Log(k), e.Log(k))
    ensures AlikeLogs(RecordClearedEvents(d, cleared, p).Log(k), RecordClearedEvents(e, cleared, q).Log(k))
  {
    ClearedLog(d, cleared, p, k);
    ClearedLog(e, cleared, q, k);
  }

  lemma AlikeRecord(d: Db, e: Db, source: string, cleared: map<Key, Time>, p: int, q: int)
    requires Alike(d, e, source)
    ensures Alike(RecordClearedEvents(d, cleared, p), RecordClearedEvents(e, cleared, q), source)
  {
    var d', e' := RecordClearedEvents(d, cleared, p), RecordClearedEvents(e, cleared, q);
    assert forall uk :: d'.History(uk) == d.History(uk) && e'.History(uk) == e.History(uk);
    forall k ensures AlikeLogs(d'.Log(k), e'.Log(k)) {
      AlikeRecordedLog(d, e, cleared, p, q, k);
    }
  }

  lemma ClearedLog(d: Db, cleared: map<Key, Time>, p: int, k: Key)
    ensures RecordClearedEvents(d, cleared, p).Log(k)
         == d.Log(k) + if k in cleared then [ClearedEvent(cleared[k], p)] else []
  {
    if k !in cleared {
      assert d.Log(k) + [] == d.Log(k);
    }
  }

  lemma AlikePolls(d: Db, d': Db, e: Db, e': Db, source: string)
    requires Alike(d, e, source)
    requires d' == d.(polls := d'.polls) && e' == e.(polls := e'.polls)
    requires forall t :: SuccessesSince(d'.polls, source, t) == SuccessesSince(e'.polls, source, t)
    ensures Alike(d', e', source)
  {
    assert forall uk :: d'.History(uk) == d.History(uk) && e'.History(uk) == e.History(uk);
    assert forall k :: d'.Log(k) == d.Log(k) && e'.Log(k) == e.Log(k);
  }

  // ---------------------------------------------------------------- attempts

  ghost predicate Fresh(db: Db, a: Attempt) {
    forall p | p in db.polls :: p.pollId != a.pollId
  }

  lemma SameSuccessesAfter(d: Db, a: Attempt, e: Db, b: Attempt, n: nat, k: nat)
    requires Alike(d, e, a.r.source) && a.r == b.r && Fresh(d, a) && Fresh(e, b) && 1 <= k <= Finished(a.r)
    ensures forall t :: SuccessesSince(After(d, a, n, k).polls, a.r.source, t)
                     == SuccessesSince(After(e, b, n, k).polls, a.r.source, t)
  {
    PollsOf(d, a, n, k);
    PollsOf(e, b, n, k);
    var p, q := After(d, a, n, k).polls[|d.polls|], After(e, b, n, k).polls[|e.polls|];
    forall t ensures SuccessesSince(After(d, a, n, k).polls, a.r.source, t)
                  == SuccessesSince(After(e, b, n, k).polls, a.r.source, t)
    {
      SuccessesOfOneMore(d.polls, p, a.r.source, t);
      SuccessesOfOneMore(e.polls, q, a.r.source, t);
    }
  }

  lemma AlikeIssue(x: Db, y: Db, a: Attempt, b: Attempt, n: nat, k: nat, cleared: map<Key, Time>)
    requires a.r == b.r && Alike(x, y, a.r.source) && 1 < k < Finished(a.r)
    ensures Alike(Issue(x, a, n, k, cleared), Issue(y, b, n, k, cleared), a.r.source)
  {
    if k <= Missing(a.r) {
      AlikeUpsert(x, y, a.r.source, a.r.incidents[k - 2], a.pollId, b.pollId, a.r.startedAt);
    } else if k == Sweeping(a.r) {
      AlikeMissing(x, y, a.r.source, a.r.startedAt, Ids(a.r.incidents));
    } else if k == Recording(a.r) {
      AlikeSweep(x, y, a.r.source, n);
    } else {
      AlikeRecord(x, y, a.r.source, cleared, a.pollId, b.pollId);
    }
  }

  lemma {:induction false} AlikeAfter(d: Db, a: Attempt, e: Db, b: Attempt, n: nat, k: nat)
    requires Alike(d, e, a.r.source) && a.r == b.r && Fresh(d, a) && Fresh(e, b) && k <= Finished(a.r)
    ensures Alike(After(d, a, n, k), After(e, b, n, k), a.r.source)
    decreases k, 0
  {
    if k > 0 {
      AlikeAfter(d, a, e, b, n, k - 1);
      var x, y := After(d, a, n, k - 1), After(e, b, n, k - 1);
      if k == 1 || k == Finished(a.r) {
        SameSuccessesAfter(d, a, e, b, n, k);
        AlikePolls(x, After(d, a, n, k), y, After(e, b, n, k), a.r.source);
      } else {
        if k == Succeeding(a.r) {
          SameCleared(d, a, e, b, n);
        }
        AlikeIssue(x, y, a, b, n, k, if k == Succeeding(a.r) then ClearedBy(d, a, n) else map[]);
      }
    }
  }

  lemma SameCleared(d: Db, a: Attempt, e: Db, b: Attempt, n: nat)
    requires Alike(d, e, a.r.source) && a.r == b.r && Fresh(d, a) && Fresh(e, b)
    ensures ClearedBy(d, a, n) == ClearedBy(e, b, n)
    decreases Sweeping(a.r), 1
  {
    AlikeAfter(d, a, e, b, n, Sweeping(a.r));
    SameSweepable(After(d, a, n, Sweeping(a.r)), After(e, b, n, Sweeping(a.r)), a.r.source, n);
  }

  lemma AlikeApply(d: Db, a: Attempt, e: Db, b: Attempt, n: nat)
    requires Alike(d, e, a.r.source) && a.r == b.r && a.fault == b.fault && Fresh(d, a) && Fresh(e, b)
    requires a.r.Success()
    ensures Alike(Apply(d, a, n), Apply(e, b, n), a.r.source)
  {
    SameCleared(d, a, e, b, n);
    var k := Reached(d, a, n);
    assert k == Reached(e, b, n);
    AlikeAfter(d, a, e, b, n, k);
    var s := a.r.source;
    var polls, last := ApplyPolls(d, a, n);
    var polls', last' := ApplyPolls(e, b, n);
    forall t ensures SuccessesSince(polls, s, t) == SuccessesSince(polls', s, t) {
      SuccessesOfOneMore(d.polls, last, s, t);
      SuccessesOfOneMore(e.polls, last', s, t);
    }
    AlikePolls(After(d, a, n, k), Apply(d, a, n), After(e, b, n, k), Apply(e, b, n), s);
  }

  lemma AlikeIdle(d: Db, a: Attempt, e: Db, n: nat)
    requires Alike(d, e, a.r.source) && Fresh(d, a) && !a.r.Success()
    ensures Alike(Apply(d, a, n), e, a.r.source)
  {
    var polls, last := ApplyPolls(d, a, n);
    forall t ensures SuccessesSince(polls, a.r.source, t) == SuccessesSince(e.polls, a.r.source, t) {
      SuccessesOfOneMore(d.polls, last, a.r.source, t);
    }
    AlikePolls(d, Apply(d, a, n), e, e, a.r.source);
  }

  // ---------------------------------------------------------------- runs

  /** The authoritative polls of a run, under the same faults. */
  ghost function OnlyAuthoritative(h: seq<Attempt>): seq<Attempt> {
    if h == [] then []
    else OnlyAuthoritative(h[..|h| - 1]) + if h[|h| - 1].r.Success() then [h[|h| - 1]] else []
  }

  /** The same polls and faults; the database may have numbered them otherwise. */
  ghost predicate Renumbered(x: seq<Attempt>, y: seq<Attempt>) {
    && |x| == |y|
    && forall i | 0 <= i < |x| :: x[i].r == y[i].r && x[i].fault == y[i].fault
  }

  lemma AuthoritativeSnoc(before: seq<Attempt>, a: Attempt)
    ensures OnlyAuthoritative(before + [a]) == OnlyAuthoritative(before) + if a.r.Success() then [a] else []
  {
    assert (before + [a])[..|before|] == before;
  }

  lemma RenumberedInit(x: seq<Attempt>, a: Attempt, g: seq<Attempt>)
    requires Renumbered(x + [a], g)
    ensures g != [] && g[|g| - 1].r == a.r && g[|g| - 1].fault == a.fault && Renumbered(x, g[..|g| - 1])
  {
    assert (x + [a])[|x|] == a;
    assert forall i | 0 <= i < |x| :: (x + [a])[i] == x[i];
  }

  lemma RenumberedSnoc(before: seq<Attempt>, a: Attempt, g: seq<Attempt>)
    requires Renumbered(OnlyAuthoritative(before + [a]), g)
    ensures a.r.Success() ==>
      && g != [] && g[|g| - 1].r == a.r && g[|g| - 1].fault == a.fault
      && Renumbered(OnlyAuthoritative(before), g[..|g| - 1])
    ensures !a.r.Success() ==> Renumbered(OnlyAuthoritative(before), g)
  {
    AuthoritativeSnoc(before, a);
    if a.r.Success() {
      RenumberedInit(OnlyAuthoritative(before), a, g);
    }
  }

  /** A run and the same run without its non-authoritative polls leave the same
      incidents, unit rows and events, up to poll ids, whatever faults hit the
      authoritative ones. */
  lemma {:induction false} OnlyAuthorityMatters(h: seq<Attempt>, g: seq<Attempt>, n: nat, source: string)
    requires WellFormed(h, source) && WellFormed(g, source) && Renumbered(OnlyAuthoritative(h), g)
    ensures Alike(Run(h, n), Run(g, n), source)
  {
    if h != [] {
      var before, a := h[..|h| - 1], h[|h| - 1];
      assert h == before + [a];
      ReachableFacts(before, a, n, source);
      RenumberedSnoc(before, a, g);
      if a.r.Success() {
        var rest, b := g[..|g| - 1], g[|g| - 1];
        assert g == rest + [b];
        ReachableFacts(rest, b, n, source);
        OnlyAuthorityMatters(before, rest, n, source);
        AlikeApply(Run(before, n), a, Run(rest, n), b, n);
      } else {
        OnlyAuthorityMatters(before, g, n, source);
        AlikeIdle(Run(before, n), a, Run(g, n), n);
      }
    }
  }
}
