/** Whole runs, seen through one incident: the snapshot, its unit rows and its
    event log are functions of the observations that were upserted. */
module History {
  import opened Types
  import opened Deltas
  import opened Tables
  import opened RunLength
  import opened Lifecycle
  import opened Clearing

  function ObsFor(inc: Incident, a: Attempt): Obs {
    Obs(inc.units, inc.fields, a.r.startedAt, a.pollId)
  }

  /** The upserts of an incident among the first k statements of a poll. */
  ghost function ObsIn(a: Attempt, k: nat, key: Key): seq<Obs>
    requires k <= Finished(a.r)
  {
    if k <= 1 then []
    else if k <= Missing(a.r) && a.r.incidents[k - 2].key == key
    then ObsIn(a, k - 1, key) + [ObsFor(a.r.incidents[k - 2], a)]
    else ObsIn(a, k - 1, key)
  }

  /** The upserts of an incident in a whole run, partly applied polls included. */
  ghost function ObsOf(h: seq<Attempt>, n: nat, key: Key): seq<Obs> {
    if h == [] then []
    else
      var g, a := h[..|h| - 1], h[|h| - 1];
      ObsOf(g, n, key) + if a.r.Success() then ObsIn(a, Reached(Run(g, n), a, n), key) else []
  }

  // ---------------------------------------------------------------- replay

  /** A stored log: the same events, with their deltas in some emission order. */
  ghost predicate Stores(stored: seq<Event<IncidentDelta>>, log: seq<BagEvent>) {
    && |stored| == |log|
    && forall i | 0 <= i < |log| :: StoresEvent(stored[i], log[i])
  }

  ghost predicate StoresEvent(s: Event<IncidentDelta>, e: BagEvent) {
    && s.kind == e.kind && s.at == e.at && s.pollId == e.pollId
    && match e.delta
       case NoDelta => s.delta == NoDelta
       case ClearedDelta(at) => s.delta == ClearedDelta(at)
       case Diff(bag) => s.delta.Diff? && s.delta.delta.Bag() == bag
  }

  ghost function ReplayStatuses(stored: seq<Event<IncidentDelta>>): map<string, string> {
    if stored == [] then map[]
    else
      var before, e := ReplayStatuses(stored[..|stored| - 1]), stored[|stored| - 1];
      if e.delta.Diff? then ReplayUnits(before, e.delta.delta) else before
  }

  ghost function ReplayColumns(created: Fields, stored: seq<Event<IncidentDelta>>): Fields {
    if stored == [] then created
    else
      var before, e := ReplayColumns(created, stored[..|stored| - 1]), stored[|stored| - 1];
      if e.delta.Diff? then ReplayFields(before, e.delta.delta.fields) else before
  }

  /** The columns a reader of the log has after a snapshot, given what the reader
      had and the snapshot before. */
  function NextShown(had: Fields, prior: Fields, next: Fields): Fields {
    next.(lon := Shown(had.lon, prior.lon, next.lon), lat := Shown(had.lat, prior.lat, next.lat))
  }

  /** What a reader makes of the observations, who knew the first one's columns. */
  ghost function ReaderSees(obs: seq<Obs>): Fields
    requires obs != []
  {
    if |obs| == 1 then obs[0].fields
    else
      var before := obs[..|obs| - 1];
      NextShown(ReaderSees(before), before[|before| - 1].fields, obs[|obs| - 1].fields)
  }

  lemma ReaderSeesLast(obs: seq<Obs>)
    requires |obs| > 1
    ensures ReaderSees(obs) == NextShown(ReaderSees(obs[..|obs| - 1]), obs[|obs| - 2].fields, obs[|obs| - 1].fields)
  {
  }

  lemma ReaderSeesNext(obs: seq<Obs>, o: Obs)
    requires obs != []
    ensures ReaderSees(obs + [o]) == NextShown(ReaderSees(obs), obs[|obs| - 1].fields, o.fields)
  {
    var all := obs + [o];
    ReaderSeesLast(all);
    assert all[..|all| - 1] == obs;
  }

  lemma ReaderSeesTexts(obs: seq<Obs>)
    requires obs != []
    ensures SameTexts(ReaderSees(obs), obs[|obs| - 1].fields)
  {
  }

  predicate Within(a: real, b: real, bound: real) {
    -bound <= a - b <= bound
  }

  /** A reader is off by at most the tolerance for each observation but the first. */
  lemma {:induction false} ReaderIsNear(obs: seq<Obs>)
    requires obs != []
    ensures var f, g := ReaderSees(obs), obs[|obs| - 1].fields;
            var bound := (|obs| - 1) as real * TOLERANCE;
            Within(f.lon, g.lon, bound) && Within(f.lat, g.lat, bound)
  {
    if |obs| > 1 {
      ReaderIsNear(obs[..|obs| - 1]);
    }
  }

  /** Folding any stored form of the log gives these statuses and columns. */
  ghost predicate Replays(log: seq<BagEvent>, first: Fields, units: seq<Unit>, fields: Fields) {
    forall stored: seq<Event<IncidentDelta>> | Stores(stored, log) ::
      ReplayStatuses(stored) == StatusMap(units) && ReplayColumns(first, stored) == fields
  }

  lemma ReplaysNoDelta(log: seq<BagEvent>, e: BagEvent, first: Fields, units: seq<Unit>, fields: Fields)
    requires Replays(log, first, units, fields) && !e.delta.Diff?
    ensures Replays(log + [e], first, units, fields)
  {
    forall stored: seq<Event<IncidentDelta>> | Stores(stored, log + [e])
      ensures ReplayStatuses(stored) == StatusMap(units) && ReplayColumns(first, stored) == fields
    {
      StoredPrefix(stored, log, e);
    }
  }

  lemma StoredPrefix(stored: seq<Event<IncidentDelta>>, log: seq<BagEvent>, e: BagEvent)
    requires Stores(stored, log + [e])
    ensures Stores(stored[..|log|], log) && StoresEvent(stored[|log|], e) && stored[..|stored| - 1] == stored[..|log|]
  {
    forall i | 0 <= i < |log| ensures StoresEvent(stored[i], log[i]) {
      assert (log + [e])[i] == log[i];
    }
    assert (log + [e])[|log|] == e;
  }

  lemma ReplaysCreated(inc: Incident, pollId: int, t: Time)
    ensures Replays(UpsertEvents(None, inc, pollId, t), inc.fields, inc.units, inc.fields)
  {
    var bag := UnitBag([], inc.units);
    var log := UpsertEvents(None, inc, pollId, t);
    forall stored: seq<Event<IncidentDelta>> | Stores(stored, log)
      ensures ReplayStatuses(stored) == StatusMap(inc.units) && ReplayColumns(inc.fields, stored) == inc.fields
    {
      assert stored[..0] == [] && StoresEvent(stored[0], log[0]);
      if bag.Empty() {
        EmptyDeltaIffUnchanged(Prior(inc.fields, [], None), inc);
        FieldDiffsReplay(inc.fields, inc.fields, inc.fields);
      } else {
        DeltaReplaysUnits([], inc.units, stored[0].delta.delta);
        assert stored[0].delta.delta.fields == bag.fields == [];
      }
    }
  }

  lemma ReplaysUpsert(log: seq<BagEvent>, first: Fields, had: Fields, p: Prior, inc: Incident, pollId: int, t: Time)
    requires Replays(log, first, p.units, had) && SameTexts(had, p.fields)
    ensures Replays(log + UpsertEvents(Some(p), inc, pollId, t), first, inc.units,
                    NextShown(had, p.fields, inc.fields))
  {
    var bag := IncidentBag(Some(p), inc);
    EmptyDeltaIffUnchanged(p, inc);
    var news := UpsertEvents(Some(p), inc, pollId, t);
    if news == [] {
      assert log + news == log;
    } else {
      assert log + news == log + [news[0]];
      if bag.Empty() {
        ReplaysNoDelta(log, news[0], first, inc.units, had);
      } else {
        ReplaysDiff(log, news[0], first, had, p, inc);
      }
    }
  }

  lemma ReplaysDiff(log: seq<BagEvent>, e: BagEvent, first: Fields, had: Fields, p: Prior, inc: Incident)
    requires Replays(log, first, p.units, had) && SameTexts(had, p.fields)
    requires e.delta == Diff(IncidentBag(Some(p), inc))
    ensures Replays(log + [e], first, inc.units, NextShown(had, p.fields, inc.fields))
  {
    forall stored: seq<Event<IncidentDelta>> | Stores(stored, log + [e])
      ensures ReplayStatuses(stored) == StatusMap(inc.units)
      ensures ReplayColumns(first, stored) == NextShown(had, p.fields, inc.fields)
    {
      StoredPrefix(stored, log, e);
      LastReplays(stored, first, had, p, inc);
    }
  }

  lemma LastReplays(stored: seq<Event<IncidentDelta>>, first: Fields, had: Fields, p: Prior, inc: Incident)
    requires stored != [] && SameTexts(had, p.fields)
    requires var before, e := stored[..|stored| - 1], stored[|stored| - 1];
             && ReplayStatuses(before) == StatusMap(p.units) && ReplayColumns(first, before) == had
             && e.delta.Diff? && e.delta.delta.Bag() == IncidentBag(Some(p), inc)
    ensures ReplayStatuses(stored) == StatusMap(inc.units)
    ensures ReplayColumns(first, stored) == NextShown(had, p.fields, inc.fields)
  {
    DiffReplays(had, p, inc, stored[|stored| - 1].delta.delta);
  }

  lemma DiffReplays(had: Fields, p: Prior, inc: Incident, d: IncidentDelta)
    requires d.Bag() == IncidentBag(Some(p), inc) && SameTexts(had, p.fields)
    ensures ReplayUnits(StatusMap(p.units), d) == StatusMap(inc.units)
    ensures ReplayFields(had, d.fields) == NextShown(had, p.fields, inc.fields)
  {
    DeltaReplaysUnits(p.units, inc.units, d);
    FieldDiffsReplay(had, p.fields, inc.fields);
    assert d.fields == FieldDiffs(p.fields, inc.fields);
  }

  // ---------------------------------------------------------------- unit rows

  lemma {:induction false} SyncedHistory(db: Db, prior: map<string, Unit>, key: Key, units: seq<Unit>,
                                         pollId: int, t: Time, uk: UnitKey)
    ensures SyncUnits(db, prior, key, units, pollId, t).History(uk) ==
      if uk.key == key then Feed(db.History(uk), uk.unit in prior, Listed(units, uk.unit), pollId, t)
      else db.History(uk)
  {
    if units != [] {
      var rest, unit := units[..|units| - 1], units[|units| - 1];
      SyncedHistory(db, prior, key, rest, pollId, t, uk);
      if uk.key == key && unit.name == uk.unit != "" {
        var l := Listed(rest, uk.unit);
        assert Listed(units, uk.unit) == l + [unit.status];
        assert (l + [unit.status])[..|l|] == l;
      } else if uk.key == key {
        assert Listed(units, uk.unit) == Listed(rest, uk.unit);
      }
    }
  }

  // ---------------------------------------------------------------- the invariant

  /** The tables hold exactly what these observations of the incident leave. */
  ghost predicate Recorded(db: Db, key: Key, obs: seq<Obs>) {
    && (key in db.incidents <==> obs != [])
    && (obs == [] ==> db.Log(key) == [])
    && (obs != [] ==>
          var row, last := db.incidents[key], obs[|obs| - 1];
          && row.units == last.units && row.fields == last.fields
          && row.lastSeenAt == last.at && row.lastSeenPollId == last.pollId && row.receivedAt == obs[0].at
          && Replays(db.Log(key), obs[0].fields, last.units, ReaderSees(obs)))
    && (forall u :: db.History(UnitKey(key, u)) == Rows(obs, u))
  }

  lemma UpsertRecords(db: Db, inc: Incident, a: Attempt, obs: seq<Obs>)
    requires Recorded(db, inc.key, obs)
    ensures Recorded(Upsert(db, inc, a.pollId, a.r.startedAt), inc.key, obs + [ObsFor(inc, a)])
  {
    var e := Upsert(db, inc, a.pollId, a.r.startedAt);
    var prior := db.PriorOf(inc.key);
    UpsertRecordsUnits(db, inc, a, obs);
    var log, news := db.Log(inc.key), UpsertEvents(prior, inc, a.pollId, a.r.startedAt);
    if obs == [] {
      ReplaysCreated(inc, a.pollId, a.r.startedAt);
      assert log + news == news;
    } else {
      UpsertRecordsLog(log, obs, ObsFor(inc, a), prior.value, inc);
    }
  }

  lemma UpsertRecordsLog(log: seq<BagEvent>, obs: seq<Obs>, o: Obs, p: Prior, inc: Incident)
    requires obs != [] && Replays(log, obs[0].fields, obs[|obs| - 1].units, ReaderSees(obs))
    requires p.units == obs[|obs| - 1].units && p.fields == obs[|obs| - 1].fields && o.fields == inc.fields
    ensures Replays(log + UpsertEvents(Some(p), inc, o.pollId, o.at), (obs + [o])[0].fields, inc.units,
                    ReaderSees(obs + [o]))
  {
    ReaderSeesTexts(obs);
    ReaderSeesNext(obs, o);
    ReplaysUpsert(log, obs[0].fields, ReaderSees(obs), p, inc, o.pollId, o.at);
  }

  lemma UpsertRecordsUnits(db: Db, inc: Incident, a: Attempt, obs: seq<Obs>)
    requires Recorded(db, inc.key, obs)
    ensures forall u :: Upsert(db, inc, a.pollId, a.r.startedAt).History(UnitKey(inc.key, u))
                     == Rows(obs + [ObsFor(inc, a)], u)
  {
    var e := Upsert(db, inc, a.pollId, a.r.startedAt);
    var prior := PriorUnits(db.PriorOf(inc.key));
    forall u ensures e.History(UnitKey(inc.key, u)) == Rows(obs + [ObsFor(inc, a)], u) {
      SyncedHistory(db, prior, inc.key, inc.units, a.pollId, a.r.startedAt, UnitKey(inc.key, u));
      SnocRows(obs, ObsFor(inc, a), u);
      assert e.History(UnitKey(inc.key, u))
          == SyncUnits(db, prior, inc.key, inc.units, a.pollId, a.r.startedAt).History(UnitKey(inc.key, u));
      assert u in prior <==> PrevStatus(obs, u).Some?;
    }
  }

  lemma UpsertKeepsOthers(db: Db, inc: Incident, a: Attempt, key: Key, obs: seq<Obs>)
    requires Recorded(db, key, obs) && key != inc.key
    ensures Recorded(Upsert(db, inc, a.pollId, a.r.startedAt), key, obs)
  {
    var e := Upsert(db, inc, a.pollId, a.r.startedAt);
    var prior := PriorUnits(db.PriorOf(inc.key));
    assert e.Log(key) == db.Log(key);
    forall u ensures e.History(UnitKey(key, u)) == Rows(obs, u) {
      SyncedHistory(db, prior, inc.key, inc.units, a.pollId, a.r.startedAt, UnitKey(key, u));
      assert e.History(UnitKey(key, u))
          == SyncUnits(db, prior, inc.key, inc.units, a.pollId, a.r.startedAt).History(UnitKey(key, u));
    }
  }

  /** Statements that change no snapshot, unit row or event of the incident. */
  ghost predicate SameRecord(d: Db, e: Db, key: Key) {
    && d.units == e.units && d.Log(key) == e.Log(key)
    && (key in d.incidents <==> key in e.incidents)
    && (key in d.incidents ==>
          var x, y := d.incidents[key], e.incidents[key];
          x.units == y.units && x.fields == y.fields && x.lastSeenAt == y.lastSeenAt
          && x.lastSeenPollId == y.lastSeenPollId && x.receivedAt == y.receivedAt)
  }

  lemma SameRecordKeeps(d: Db, e: Db, key: Key, obs: seq<Obs>)
    requires SameRecord(d, e, key) && Recorded(d, key, obs)
    ensures Recorded(e, key, obs)
  {
    assert forall u :: d.History(UnitKey(key, u)) == e.History(UnitKey(key, u));
  }

  lemma ClearingKeeps(d: Db, cleared: map<Key, Time>, pollId: int, key: Key, obs: seq<Obs>)
    requires Recorded(d, key, obs) && (key in cleared ==> key in d.incidents)
    ensures Recorded(RecordClearedEvents(d, cleared, pollId), key, obs)
  {
    var e := RecordClearedEvents(d, cleared, pollId);
    assert forall u :: d.History(UnitKey(key, u)) == e.History(UnitKey(key, u));
    if key in cleared {
      var last := obs[|obs| - 1];
      var event := ClearedEvent(cleared[key], pollId);
      assert e.Log(key) == d.Log(key) + [event];
      ReplaysNoDelta(d.Log(key), event, obs[0].fields, last.units, ReaderSees(obs));
    } else {
      assert e.Log(key) == d.Log(key);
    }
  }

  lemma {:induction false} AfterRecords(db: Db, a: Attempt, n: nat, k: nat, key: Key, obs: seq<Obs>)
    requires k <= Finished(a.r) && Recorded(db, key, obs)
    ensures Recorded(After(db, a, n, k), key, obs + ObsIn(a, k, key))
  {
    if k == 0 {
      assert obs + [] == obs;
    } else {
      AfterRecords(db, a, n, k - 1, key, obs);
      var cleared := if k == Succeeding(a.r) then ClearedBy(db, a, n) else map[];
      if k == Succeeding(a.r) {
        SweptAreIncidents(db, a, n);
      }
      RecordStep(After(db, a, n, k - 1), a, n, k, cleared, key, obs + ObsIn(a, k - 1, key));
      if 1 < k <= Missing(a.r) && a.r.incidents[k - 2].key == key {
        assert (obs + ObsIn(a, k - 1, key)) + [ObsFor(a.r.incidents[k - 2], a)] == obs + ObsIn(a, k, key);
      }
    }
  }

  lemma RecordStep(d: Db, a: Attempt, n: nat, k: nat, cleared: map<Key, Time>, key: Key, obs: seq<Obs>)
    requires 0 < k <= Finished(a.r) && Recorded(d, key, obs) && cleared.Keys <= d.incidents.Keys
    ensures Recorded(Issue(d, a, n, k, cleared), key,
      if 1 < k <= Missing(a.r) && a.r.incidents[k - 2].key == key then obs + [ObsFor(a.r.incidents[k - 2], a)] else obs)
  {
    if 1 < k <= Missing(a.r) {
      var inc := a.r.incidents[k - 2];
      if inc.key == key {
        UpsertRecords(d, inc, a, obs);
      } else {
        UpsertKeepsOthers(d, inc, a, key, obs);
      }
    } else if k == Succeeding(a.r) {
      ClearingKeeps(d, cleared, a.pollId, key, obs);
    } else {
      OtherStatements(d, a, n, k, cleared, key);
      SameRecordKeeps(d, Issue(d, a, n, k, cleared), key, obs);
    }
  }

  lemma SweptAreIncidents(db: Db, a: Attempt, n: nat)
    ensures ClearedBy(db, a, n).Keys <= After(db, a, n, Recording(a.r)).incidents.Keys
  {
  }

  lemma OtherStatements(d: Db, a: Attempt, n: nat, k: nat, cleared: map<Key, Time>, key: Key)
    requires k == 1 || k == Sweeping(a.r) || k == Recording(a.r) || k == Finished(a.r)
    ensures SameRecord(d, Issue(d, a, n, k, cleared), key)
  {
  }

  /** Every run leaves exactly what its observations leave. */
  lemma {:induction false} RunRecords(h: seq<Attempt>, n: nat, key: Key)
    ensures Recorded(Run(h, n), key, ObsOf(h, n, key))
  {
    if h != [] {
      var g, a := h[..|h| - 1], h[|h| - 1];
      RunRecords(g, n, key);
      ApplyRecords(Run(g, n), a, n, key, ObsOf(g, n, key));
    }
  }

  lemma ApplyRecords(db: Db, a: Attempt, n: nat, key: Key, obs: seq<Obs>)
    requires Recorded(db, key, obs)
    ensures Recorded(Apply(db, a, n), key, obs + if a.r.Success() then ObsIn(a, Reached(db, a, n), key) else [])
  {
    if a.r.Success() {
      AfterRecords(db, a, n, Reached(db, a, n), key, obs);
      SameRecordKeeps(After(db, a, n, Reached(db, a, n)), Apply(db, a, n), key,
                      obs + ObsIn(a, Reached(db, a, n), key));
    } else {
      assert obs + [] == obs;
      SameRecordKeeps(db, Apply(db, a, n), key, obs);
    }
  }

  // ---------------------------------------------------------------- theorems

  lemma {:induction false} ObsAreClocked(h: seq<Attempt>, n: nat, source: string, key: Key, t: Time)
    requires WellFormed(h, source) && forall i | 0 <= i < |h| :: h[i].r.startedAt <= t
    ensures Clocked(ObsOf(h, n, key)) && forall o | o in ObsOf(h, n, key) :: o.at <= t
  {
    if h != [] {
      var g, a := h[..|h| - 1], h[|h| - 1];
      ObsAreClocked(g, n, source, key, a.r.startedAt - 1);
      if a.r.Success() {
        ObsInAt(a, Reached(Run(g, n), a, n), key);
      }
    }
  }

  lemma {:induction false} ObsInAt(a: Attempt, k: nat, key: Key)
    requires k <= Finished(a.r)
    ensures forall o | o in ObsIn(a, k, key) :: o.at == a.r.startedAt && o.pollId == a.pollId
  {
    if k > 1 {
      ObsInAt(a, k - 1, key);
    }
  }

  lemma RunIsClocked(h: seq<Attempt>, a: Attempt, n: nat, source: string, k: nat, key: Key)
    requires WellFormed(h + [a], source) && k <= Finished(a.r)
    ensures Clocked(ObsOf(h, n, key) + ObsIn(a, k, key))
  {
    assert forall i | 0 <= i < |h| :: (h + [a])[i] == h[i] && h[i].r.startedAt < (h + [a])[|h|].r.startedAt;
    ObsAreClocked(h, n, source, key, a.r.startedAt);
    ObsInAt(a, k, key);
  }

  /** In every state a run can reach, between the statements of a poll too: if
      no snapshot of the incident names a unit twice, the rows of each unit are
      exactly its maximal runs over the incident's observations. Polls that did
      not observe the incident, and clears of it, do not split a run. */
  lemma UnitRowsAreMaximalRuns(h: seq<Attempt>, a: Attempt, n: nat, source: string, k: nat, key: Key, u: string)
    returns (obs: seq<Obs>, spans: seq<Span>)
    requires WellFormed(h + [a], source) && k <= Finished(a.r)
    requires forall o, i, j | o in ObsOf(h, n, key) + ObsIn(a, k, key) && 0 <= i < j < |o.units| ::
      o.units[i].name != o.units[j].name
    ensures obs == ObsOf(h, n, key) + ObsIn(a, k, key)
    ensures EncodesRuns(After(Run(h, n), a, n, k).History(UnitKey(key, u)), spans, obs, u)
  {
    ReachableFacts(h, a, n, source);
    RunRecords(h, n, key);
    AfterRecords(Run(h, n), a, n, k, key, ObsOf(h, n, key));
    obs := ObsOf(h, n, key) + ObsIn(a, k, key);
    RunIsClocked(h, a, n, source, k, key);
    assert forall i | 0 <= i < |obs| :: obs[i] in obs;
    spans := DistinctNamesEncode(obs, u);
  }

  /** Whatever the snapshots name and however often a poll lists the incident, a
      unit's rows are the run-length encoding exactly when each snapshot fits
      for the unit: one status for it, and a single entry unless the snapshot
      before had it too; a second listing by the same poll may also repeat the
      first one's status before changing it. */
  lemma UnitRowsEncodeIff(h: seq<Attempt>, a: Attempt, n: nat, source: string, k: nat, key: Key, u: string)
    requires WellFormed(h + [a], source) && k <= Finished(a.r)
    ensures var obs := ObsOf(h, n, key) + ObsIn(a, k, key);
      (After(Run(h, n), a, n, k).History(UnitKey(key, u)) == Encoding(obs, u))
      <==> (forall i | 0 <= i < |obs| :: FitsAt(obs, i, u))
  {
    RunRecords(h, n, key);
    AfterRecords(Run(h, n), a, n, k, key, ObsOf(h, n, key));
    RunIsClocked(h, a, n, source, k, key);
    RowsEncodeIff(ObsOf(h, n, key) + ObsIn(a, k, key), u);
  }

  /** In every reachable state, folding the stored deltas of an incident's
      events, whatever order each was emitted in, yields the statuses of its
      current snapshot, and from the first snapshot's columns the current texts;
      the position is off by at most the tolerance for each later upsert. */
  lemma EventsReplayToSnapshot(h: seq<Attempt>, a: Attempt, n: nat, k: nat, key: Key,
                               stored: seq<Event<IncidentDelta>>)
    requires k <= Finished(a.r) && key in After(Run(h, n), a, n, k).incidents
    requires Stores(stored, After(Run(h, n), a, n, k).Log(key))
    ensures var row := After(Run(h, n), a, n, k).incidents[key];
      ReplayStatuses(stored) == StatusMap(row.units)
    ensures var obs, f := ObsOf(h, n, key) + ObsIn(a, k, key), After(Run(h, n), a, n, k).incidents[key].fields;
      && obs != []
      && var shown, bound := ReplayColumns(obs[0].fields, stored), (|obs| - 1) as real * TOLERANCE;
         SameTexts(shown, f) && Within(shown.lon, f.lon, bound) && Within(shown.lat, f.lat, bound)
  {
    var obs := ObsOf(h, n, key) + ObsIn(a, k, key);
    RunRecords(h, n, key);
    AfterRecords(Run(h, n), a, n, k, key, ObsOf(h, n, key));
    ReaderSeesTexts(obs);
    ReaderIsNear(obs);
  }

  // ---------------------------------------------------------------- the bound is reached

  /** The incident as listed after m steps east that are too small to record. */
  function Creeping(inc: Incident, m: nat): Incident {
    inc.(fields := inc.fields.(lon := inc.fields.lon + m as real * TOLERANCE))
  }

  function Sighting(inc: Incident, t: nat): Attempt {
    Attempt(PollResult(inc.key.source, t, 200, [inc], "", Unclassified, "", None, None), t, NoFault)
  }

  function CreepingRun(inc: Incident, m: nat): seq<Attempt> {
    seq(m + 1, t requires 0 <= t <= m => Sighting(Creeping(inc, t), t))
  }

  lemma SightingIsObserved(inc: Incident, t: nat)
    ensures ObsIn(Sighting(inc, t), Finished(Sighting(inc, t).r), inc.key) == [ObsFor(inc, Sighting(inc, t))]
  {
    var a := Sighting(inc, t);
    assert ObsIn(a, 1, inc.key) == [];
    assert ObsIn(a, 2, inc.key) == [ObsFor(inc, a)];
    assert ObsIn(a, 4, inc.key) == ObsIn(a, 3, inc.key) == ObsIn(a, 2, inc.key);
    assert ObsIn(a, 6, inc.key) == ObsIn(a, 5, inc.key) == ObsIn(a, 4, inc.key);
  }

  lemma CreepingOneMore(inc: Incident, m: nat, n: nat)
    requires m > 0
    ensures ObsOf(CreepingRun(inc, m), n, inc.key)
         == ObsOf(CreepingRun(inc, m - 1), n, inc.key) + [ObsFor(Creeping(inc, m), Sighting(Creeping(inc, m), m))]
  {
    var h := CreepingRun(inc, m);
    assert h[..m] == CreepingRun(inc, m - 1) && h[m] == Sighting(Creeping(inc, m), m);
    SightingIsObserved(Creeping(inc, m), m);
  }

  /** What such observations come to. */
  ghost predicate Creeps(inc: Incident, obs: seq<Obs>, m: nat) {
    |obs| == m + 1 && obs[m].fields == Creeping(inc, m).fields && ReaderSees(obs) == inc.fields
  }

  lemma CreepsOneMore(inc: Incident, obs: seq<Obs>, m: nat, o: Obs)
    requires Creeps(inc, obs, m) && o.fields == Creeping(inc, m + 1).fields
    ensures Creeps(inc, obs + [o], m + 1)
  {
    ReaderSeesNext(obs, o);
  }

  lemma {:induction false} CreepingRunCreeps(inc: Incident, m: nat, n: nat)
    ensures Creeps(inc, ObsOf(CreepingRun(inc, m), n, inc.key), m)
  {
    if m == 0 {
      var a := Sighting(Creeping(inc, 0), 0);
      assert CreepingRun(inc, 0) == [a] && [a][..0] == [];
      SightingIsObserved(Creeping(inc, 0), 0);
      assert ObsOf([a], n, inc.key) == [ObsFor(Creeping(inc, 0), a)];
    } else {
      CreepingRunCreeps(inc, m - 1, n);
      CreepingOneMore(inc, m, n);
      CreepsOneMore(inc, ObsOf(CreepingRun(inc, m - 1), n, inc.key), m - 1,
                    ObsFor(Creeping(inc, m), Sighting(Creeping(inc, m), m)));
    }
  }

  /** An incident that creeps by exactly the tolerance at every poll never gets
      an event for it: a reader stays at the first position, m tolerances away. */
  lemma CreepIsNotShown(inc: Incident, m: nat, n: nat)
    ensures var db, obs := Run(CreepingRun(inc, m), n), ObsOf(CreepingRun(inc, m), n, inc.key);
            && inc.key in db.incidents
            && db.incidents[inc.key].fields.lon == inc.fields.lon + m as real * TOLERANCE
            && |obs| == m + 1 && obs[0].fields == inc.fields
            && forall stored | Stores(stored, db.Log(inc.key)) :: ReplayColumns(inc.fields, stored) == inc.fields
  {
    CreepingRunCreeps(inc, m, n);
    RunRecords(CreepingRun(inc, m), n, inc.key);
    FirstCreep(inc, m, n);
  }

  lemma {:induction false} FirstCreep(inc: Incident, m: nat, n: nat)
    ensures var obs := ObsOf(CreepingRun(inc, m), n, inc.key); obs != [] && obs[0].fields == inc.fields
  {
    CreepingRunCreeps(inc, m, n);
    if m > 0 {
      FirstCreep(inc, m - 1, n);
      CreepingOneMore(inc, m, n);
    }
  }

  // ---------------------------------------------------------------- the row

  /** The row shows this listing of the incident by this poll. */
  predicate Shows(row: IncidentRow, inc: Incident, a: Attempt) {
    && row.fields == inc.fields && row.units == inc.units && row.incidentDate == inc.incidentDate
    && row.lastSeenAt == a.r.startedAt && row.lastSeenPollId == a.pollId
  }

  predicate SameSnapshot(x: IncidentRow, y: IncidentRow) {
    && x.fields == y.fields && x.units == y.units && x.incidentDate == y.incidentDate
    && x.lastSeenAt == y.lastSeenAt && x.lastSeenPollId == y.lastSeenPollId
  }

  type Snapshots = map<Key, IncidentRow>

  /** On the way from d to e the incident was listed last at position j, or not at all. */
  ghost predicate ShownOrKept(d: Snapshots, e: Snapshots, a: Attempt, j: Option<nat>, key: Key) {
    match j
    case Some(x) =>
      x < |a.r.incidents| && a.r.incidents[x].key == key
      && key in e && Shows(e[key], a.r.incidents[x], a)
      && e[key].receivedAt == if key in d then d[key].receivedAt else a.r.startedAt
    case None =>
      && (key in e <==> key in d)
      && (key in d ==> SameSnapshot(e[key], d[key]) && e[key].receivedAt == d[key].receivedAt)
  }

  /** The last listing of the incident among the first k statements. */
  function LastListing(a: Attempt, k: nat, key: Key): (j: Option<nat>)
    requires k <= Finished(a.r)
    ensures j.Some? <==> exists x :: 0 <= x < k - 1 && x < |a.r.incidents| && a.r.incidents[x].key == key
    ensures j.Some? ==>
      && j.value < k - 1 && j.value < |a.r.incidents| && a.r.incidents[j.value].key == key
      && forall x | j.value < x < k - 1 && x < |a.r.incidents| :: a.r.incidents[x].key != key
  {
    if k <= 1 then None
    else if k <= Missing(a.r) && a.r.incidents[k - 2].key == key then Some(k - 2)
    else LastListing(a, k - 1, key)
  }

  /** What statement k does to the snapshots. */
  ghost predicate StepShows(d: Snapshots, e: Snapshots, a: Attempt, k: nat) {
    if 1 < k <= Missing(a.r) then
      var inc := a.r.incidents[k - 2];
      && inc.key in e && Shows(e[inc.key], inc, a)
      && e[inc.key].receivedAt == (if inc.key in d then d[inc.key].receivedAt else a.r.startedAt)
      && e == d[inc.key := e[inc.key]]
    else
      forall key :: ShownOrKept(d, e, a, None, key)
  }

  lemma UpsertShows(d: Db, a: Attempt, k: nat)
    requires 1 < k <= Missing(a.r)
    ensures StepShows(d.incidents, Upsert(d, a.r.incidents[k - 2], a.pollId, a.r.startedAt).incidents, a, k)
  {
  }

  lemma IssueShows(d: Db, a: Attempt, n: nat, k: nat, cleared: map<Key, Time>)
    requires 0 < k <= Finished(a.r)
    ensures StepShows(d.incidents, Issue(d, a, n, k, cleared).incidents, a, k)
  {
    if 1 < k <= Missing(a.r) {
      UpsertShows(d, a, k);
    }
  }

  lemma ShownOneMore(db: Snapshots, d: Snapshots, e: Snapshots, a: Attempt, k: nat, key: Key)
    requires 0 < k <= Finished(a.r)
    requires ShownOrKept(db, d, a, LastListing(a, k - 1, key), key) && StepShows(d, e, a, k)
    ensures ShownOrKept(db, e, a, LastListing(a, k, key), key)
  {
    if k == 1 || k > Missing(a.r) {
      assert ShownOrKept(d, e, a, None, key);
    }
  }

  lemma {:induction false} AfterShows(db: Db, a: Attempt, n: nat, k: nat, key: Key)
    requires k <= Finished(a.r)
    ensures ShownOrKept(db.incidents, After(db, a, n, k).incidents, a, LastListing(a, k, key), key)
  {
    if k > 0 {
      var before, cleared := After(db, a, n, k - 1), if k == Succeeding(a.r) then ClearedBy(db, a, n) else map[];
      AfterShows(db, a, n, k - 1, key);
      IssueShows(before, a, n, k, cleared);
      ShownOneMore(db.incidents, before.incidents, Issue(before, a, n, k, cleared).incidents, a, k, key);
    }
  }

  lemma ApplyShows(db: Db, a: Attempt, n: nat, key: Key)
    ensures ShownOrKept(db.incidents, Apply(db, a, n).incidents, a,
                        if a.r.Success() then LastListing(a, Reached(db, a, n), key) else None, key)
  {
    if a.r.Success() {
      AfterShows(db, a, n, Reached(db, a, n), key);
    }
  }

  /** Attempt i is the last that got to upsert the incident, and listed it last at
      position j. */
  ghost predicate LastListed(h: seq<Attempt>, n: nat, key: Key, i: nat, j: nat) {
    && i < |h| && LastOf(Run(h[..i], n), h[i], n, key, j)
    && forall x | i < x < |h| :: !Observes(Run(h[..x], n), h[x], n, key)
  }

  ghost predicate LastOf(db: Db, a: Attempt, n: nat, key: Key, j: nat) {
    a.r.Success() && LastListing(a, Reached(db, a, n), key) == Some(j)
  }

  lemma ObservesLast(db: Db, a: Attempt, n: nat, key: Key)
    ensures Observes(db, a, n, key) <==> a.r.Success() && LastListing(a, Reached(db, a, n), key).Some?
  {
  }

  lemma ListedNow(g: seq<Attempt>, a: Attempt, n: nat, key: Key, j: nat)
    requires LastOf(Run(g, n), a, n, key, j)
    ensures LastListed(g + [a], n, key, |g|, j)
  {
    assert (g + [a])[..|g|] == g;
  }

  lemma ListedBefore(g: seq<Attempt>, a: Attempt, n: nat, key: Key, i: nat, j: nat)
    requires LastListed(g, n, key, i, j) && !Observes(Run(g, n), a, n, key)
    ensures LastListed(g + [a], n, key, i, j)
  {
    var h := g + [a];
    assert forall x | 0 <= x < |g| :: h[..x] == g[..x] && h[x] == g[x];
    assert h[..|g|] == g;
  }

  /** After every run an incident's row shows its last listing by the last poll
      that got to upsert it. */
  lemma {:induction false} RowIsLastListing(h: seq<Attempt>, n: nat, key: Key) returns (i: nat, j: nat)
    requires key in Run(h, n).incidents
    ensures LastListed(h, n, key, i, j)
    ensures j < |h[i].r.incidents| && h[i].r.incidents[j].key == key
    ensures Shows(Run(h, n).incidents[key], h[i].r.incidents[j], h[i])
  {
    var g, a := h[..|h| - 1], h[|h| - 1];
    assert h == g + [a];
    ApplyShows(Run(g, n), a, n, key);
    ObservesLast(Run(g, n), a, n, key);
    if Observes(Run(g, n), a, n, key) {
      i, j := |g|, LastListing(a, Reached(Run(g, n), a, n), key).value;
      ListedNow(g, a, n, key, j);
    } else {
      i, j := RowIsLastListing(g, n, key);
      ListedBefore(g, a, n, key, i, j);
    }
  }
}
