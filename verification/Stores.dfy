/** The store and the lifecycle manager as they run: flat tables changed row by
    row, calls that may fail, and loops with early exits. Each method is proved
    against the statement or the run it stands for. */
module Stores {
  import opened Types
  import opened Deltas
  import opened Tables
  import opened RunLength
  import opened History
  import opened Lifecycle

  /** One row of incident_units; its position in the table is its id. */
  datatype UnitRow = UnitRow(uk: UnitKey, span: Interval)

  /** One row of incident_events. */
  datatype EventRow = EventRow(key: Key, event: Event<IncidentDelta>)

  datatype ClearedIncident = ClearedIncident(key: Key, clearedAt: Time)

  /** How one database call goes: it works, it fails without effect, or its
      effect is kept although the caller is told it failed. */
  datatype Luck = Fine | Lost | Landed

  function LuckAt(f: Fault, k: nat): Luck {
    if f.FaultAt? && f.k == k then (if f.landed then Landed else Lost) else Fine
  }

  // ---------------------------------------------------------------- reading the tables

  function RowsOf(rows: seq<UnitRow>, uk: UnitKey): seq<Interval> {
    if rows == [] then []
    else RowsOf(rows[..|rows| - 1], uk)
         + if rows[|rows| - 1].uk == uk then [rows[|rows| - 1].span] else []
  }

  function LogOf(rows: seq<EventRow>, key: Key): seq<Event<IncidentDelta>> {
    if rows == [] then []
    else LogOf(rows[..|rows| - 1], key)
         + if rows[|rows| - 1].key == key then [rows[|rows| - 1].event] else []
  }

  /** SELECT the unit's row, ORDER BY last_observed_at DESC, id DESC LIMIT 1. */
  function LatestRow(rows: seq<UnitRow>, uk: UnitKey): (i: Option<nat>)
    ensures i.Some? ==> i.value < |rows| && rows[i.value].uk == uk
    ensures i.Some? ==> forall j | 0 <= j < |rows| && rows[j].uk == uk ::
      rows[j].span.lastAt < rows[i.value].span.lastAt
      || (rows[j].span.lastAt == rows[i.value].span.lastAt && j <= i.value)
    ensures i.None? ==> forall j | 0 <= j < |rows| :: rows[j].uk != uk
  {
    if rows == [] then None
    else
      var n := |rows| - 1;
      var best := LatestRow(rows[..n], uk);
      assert forall j | 0 <= j < n :: rows[..n][j] == rows[j];
      if rows[n].uk != uk then best
      else if best.Some? && rows[best.value].span.lastAt > rows[n].span.lastAt then best
      else Some(n)
  }

  /** The row found in the flat table is the latest of the unit's own rows. */
  ghost predicate FindsLatest(rows: seq<UnitRow>, uk: UnitKey, found: Option<nat>) {
    && (found.None? <==> RowsOf(rows, uk) == [])
    && (found.Some? ==>
          var i := found.value;
          && i < |rows|
          && var rank := |RowsOf(rows[..i], uk)|;
             rank < |RowsOf(rows, uk)| && Latest(RowsOf(rows, uk)) == Some(rank)
             && RowsOf(rows, uk)[rank] == rows[i].span)
  }

  lemma ForeignRowAppended(before: seq<UnitRow>, row: UnitRow, uk: UnitKey, best: Option<nat>)
    requires row.uk != uk && FindsLatest(before, uk, best)
    ensures FindsLatest(before + [row], uk, best)
  {
    var rows := before + [row];
    assert rows[..|before|] == before;
    assert RowsOf(rows, uk) == RowsOf(before, uk);
    if best.Some? {
      assert rows[..best.value] == before[..best.value];
    }
  }

  lemma {:induction false} LatestRowIsLatest(rows: seq<UnitRow>, uk: UnitKey)
    ensures FindsLatest(rows, uk, LatestRow(rows, uk))
  {
    if rows != [] {
      var n := |rows| - 1;
      LatestRowIsLatest(rows[..n], uk);
      var best := LatestRow(rows[..n], uk);
      assert rows[..n] + [rows[n]] == rows;
      if rows[n].uk == uk {
        if best.Some? {
          assert rows[..n][best.value] == rows[best.value];
        }
        LatestAppended(rows[..n], rows[n], uk, best);
      } else {
        ForeignRowAppended(rows[..n], rows[n], uk, best);
      }
    }
  }

  lemma LatestAppended(before: seq<UnitRow>, row: UnitRow, uk: UnitKey, best: Option<nat>)
    requires row.uk == uk && FindsLatest(before, uk, best)
    ensures FindsLatest(before + [row], uk,
      if best.Some? && before[best.value].span.lastAt > row.span.lastAt then best else Some(|before|))
  {
    var h := RowsOf(before, uk);
    var rows := before + [row];
    assert rows[..|before|] == before;
    assert RowsOf(rows, uk) == h + [row.span];
    assert (h + [row.span])[..|h|] == h;
    if best.Some? {
      assert rows[..best.value] == before[..best.value];
    }
  }

  lemma {:induction false} RowUpdated(rows: seq<UnitRow>, i: nat, span: Interval, uk: UnitKey)
    requires i < |rows|
    ensures |RowsOf(rows[..i], uk)| + (if rows[i].uk == uk then 1 else 0) <= |RowsOf(rows, uk)|
    ensures RowsOf(rows[i := rows[i].(span := span)], uk) ==
      if rows[i].uk == uk then RowsOf(rows, uk)[|RowsOf(rows[..i], uk)| := span] else RowsOf(rows, uk)
  {
    var n := |rows| - 1;
    var updated := rows[i := rows[i].(span := span)];
    if i == n {
      assert updated[..n] == rows[..n];
    } else {
      RowUpdated(rows[..n], i, span, uk);
      assert rows[..n][..i] == rows[..i];
      assert updated[..n] == rows[..n][i := rows[i].(span := span)];
    }
  }

  lemma RowInserted(rows: seq<UnitRow>, row: UnitRow, uk: UnitKey)
    ensures RowsOf(rows + [row], uk) == RowsOf(rows, uk) + if row.uk == uk then [row.span] else []
  {
    assert (rows + [row])[..|rows|] == rows;
  }

  lemma EventInserted(rows: seq<EventRow>, row: EventRow, key: Key)
    ensures LogOf(rows + [row], key) == LogOf(rows, key) + if row.key == key then [row.event] else []
  {
    assert (rows + [row])[..|rows|] == rows;
  }

  /** One more stored event matches one more logged event. */
  lemma StoresOneMore(stored: seq<Event<IncidentDelta>>, log: seq<BagEvent>, s: Event<IncidentDelta>, e: BagEvent)
    requires Stores(stored, log) && StoresEvent(s, e)
    ensures Stores(stored + [s], log + [e])
  {
  }

  class Store {
    var incidents: map<Key, IncidentRow>
    var units: seq<UnitRow>
    var events: seq<EventRow>
    var polls: seq<PollRow>

    /** The tables grouped by key, as the statements are specified on. */
    ghost var db: Db

    ghost predicate Valid()
      reads this
    {
      && incidents == db.incidents && polls == db.polls
      && UnitsMatch(db) && EventsMatch(db)
    }

    ghost predicate UnitsMatch(d: Db)
      reads this
    {
      forall uk :: RowsOf(units, uk) == d.History(uk)
    }

    ghost predicate EventsMatch(d: Db)
      reads this
    {
      forall key :: Stores(LogOf(events, key), d.Log(key))
    }

    constructor ()
      ensures Valid() && db == EmptyDb
    {
      incidents, units, events, polls := map[], [], [], [];
      db := EmptyDb;
    }

    // -------------------------------------------------------------- source_polls

    method InsertPollRow(r: PollResult, pollId: int, success: bool, errStr: string, luck: Luck) returns (ok: bool)
      requires Valid()
      modifies this
      ensures Valid() && (ok <==> luck.Fine?)
      ensures db == if luck.Lost? then old(db) else InsertPoll(old(db), r, pollId, success, NullIfEmpty(errStr))
    {
      if luck.Lost? {
        return false;
      }
      polls := polls + [NewPoll(r, pollId, success, NullIfEmpty(errStr))];
      db := db.(polls := polls);
      return luck.Fine?;
    }

    method RecordPoll(r: PollResult, pollId: int, luck: Luck) returns (ok: bool)
      requires Valid()
      modifies this
      ensures Valid() && (ok <==> luck.Fine?)
      ensures db == if luck.Lost? then old(db)
        else InsertPoll(old(db), r, pollId, r.Success(), if r.err.Some? then NullIfEmpty(r.err.value) else None)
    {
      ok := InsertPollRow(r, pollId, r.Success(), if r.err.Some? then r.err.value else "", luck);
    }

    method RecordPollPending(r: PollResult, pollId: int, luck: Luck) returns (ok: bool)
      requires Valid()
      modifies this
      ensures Valid() && (ok <==> luck.Fine?)
      ensures db == if luck.Lost? then old(db) else InsertPoll(old(db), r, pollId, false, Some(PENDING))
    {
      ok := InsertPollRow(r, pollId, false, PENDING, luck);
    }

    method SetPollOutcome(pollId: int, success: bool, error: Option<string>, luck: Luck) returns (ok: bool)
      requires Valid()
      modifies this
      ensures Valid() && (ok <==> luck.Fine?)
      ensures db == if luck.Lost? then old(db) else FinishPoll(old(db), pollId, success, error)
    {
      if luck.Lost? {
        return false;
      }
      var rows := polls;
      for i := 0 to |rows|
        invariant |rows| == |old(polls)|
        invariant forall j | 0 <= j < i :: rows[j] == SetOutcome(old(polls)[j], pollId, success, error)
        invariant forall j | i <= j < |rows| :: rows[j] == old(polls)[j]
      {
        if rows[i].pollId == pollId {
          rows := rows[i := rows[i].(success := success, error := error)];
        }
      }
      polls := rows;
      db := FinishPoll(db, pollId, success, error);
      assert polls == db.polls;
      return luck.Fine?;
    }

    method MarkPollSucceeded(pollId: int, luck: Luck) returns (ok: bool)
      requires Valid()
      modifies this
      ensures Valid() && (ok <==> luck.Fine?)
      ensures db == if luck.Lost? then old(db) else FinishPoll(old(db), pollId, true, None)
    {
      ok := SetPollOutcome(pollId, true, None, luck);
    }

    method MarkPollFailed(pollId: int, applyErr: string, luck: Luck) returns (ok: bool)
      requires Valid()
      modifies this
      ensures Valid() && (ok <==> luck.Fine?)
      ensures db == if luck.Lost? then old(db) else FinishPoll(old(db), pollId, false, NullIfEmpty(applyErr))
    {
      ok := SetPollOutcome(pollId, false, NullIfEmpty(applyErr), luck);
    }

    // -------------------------------------------------------------- one upsert

    method LoadPriorIncident(key: Key) returns (prior: Option<Prior>)
      requires Valid()
      ensures prior == db.PriorOf(key)
    {
      if key in incidents {
        var row := incidents[key];
        prior := Some(Prior(row.fields, row.units, row.clearedAt));
      } else {
        prior := None;
      }
    }

    method UpsertIncidentSnapshot(inc: Incident, pollId: int, at: Time)
      requires incidents == db.incidents
      modifies this`incidents
      ensures incidents == old(incidents)[inc.key :=
        Snapshot(if inc.key in old(incidents) then Some(old(incidents)[inc.key]) else None, inc, pollId, at)]
    {
      if inc.key !in incidents {
        incidents := incidents[inc.key := IncidentRow(inc.fields, inc.units, inc.incidentDate, at, at, pollId,
                                                      None, None, 0)];
      } else {
        var row := incidents[inc.key];
        var reopens := row.reopenCount;
        if row.clearedAt.Some? {
          reopens := reopens + 1;
        }
        incidents := incidents[inc.key := row.(fields := inc.fields, units := inc.units,
                                               incidentDate := inc.incidentDate, lastSeenAt := at,
                                               lastSeenPollId := pollId, missingSince := None, clearedAt := None,
                                               reopenCount := reopens)];
      }
    }

    method InsertUnitInterval(uk: UnitKey, status: string, pollId: int, at: Time)
      modifies this`units
      ensures units == old(units) + [UnitRow(uk, NewInterval(status, pollId, at))]
    {
      units := units + [UnitRow(uk, Interval(status, at, at, pollId, pollId))];
    }

    /** One turn of the sync loop. */
    method SyncOneUnit(priorUnits: map<string, Unit>, key: Key, unit: Unit, pollId: int, at: Time, ghost d: Db)
      requires UnitsMatch(d) && unit.name != ""
      modifies this`units
      ensures UnitsMatch(d.(units := d.units[UnitKey(key, unit.name) :=
        SyncUnit(d.History(UnitKey(key, unit.name)), unit.name in priorUnits, unit.status, pollId, at)]))
    {
      var uk := UnitKey(key, unit.name);
      var wasPresentInPrior := unit.name in priorUnits;
      var latest := LatestRow(units, uk);
      LatestRowIsLatest(units, uk);
      ghost var rows := units;
      if latest.None? {
        InsertUnitInterval(uk, unit.status, pollId, at);
      } else if wasPresentInPrior && units[latest.value].span.status == unit.status {
        var i := latest.value;
        units := units[i := units[i].(span := units[i].span.(lastAt := at, lastPoll := pollId))];
      } else {
        InsertUnitInterval(uk, unit.status, pollId, at);
      }
      ghost var d' := d.(units := d.units[uk := SyncUnit(d.History(uk), wasPresentInPrior, unit.status, pollId, at)]);
      forall other ensures RowsOf(units, other) == d'.History(other) {
        assert RowsOf(rows, other) == d.History(other);
        RowInserted(rows, UnitRow(uk, NewInterval(unit.status, pollId, at)), other);
        if latest.Some? {
          RowUpdated(rows, latest.value, rows[latest.value].span.(lastAt := at, lastPoll := pollId), other);
        }
      }
    }

    method SyncUnitHistory(prior: Option<Prior>, inc: Incident, pollId: int, at: Time)
      requires UnitsMatch(db)
      modifies this`units
      ensures UnitsMatch(SyncUnits(db, PriorUnits(prior), inc.key, inc.units, pollId, at))
    {
      var priorUnits := map[];
      if prior.Some? {
        priorUnits := UnitsByName(prior.value.units);
      }
      for i := 0 to |inc.units|
        invariant UnitsMatch(SyncUnits(db, priorUnits, inc.key, inc.units[..i], pollId, at))
      {
        var unit := inc.units[i];
        assert inc.units[..i + 1][..i] == inc.units[..i];
        if unit.name == "" {
          continue;
        }
        ghost var before := SyncUnits(db, priorUnits, inc.key, inc.units[..i], pollId, at);
        SyncOneUnit(priorUnits, inc.key, unit, pollId, at, before);
      }
      assert inc.units[..|inc.units|] == inc.units;
    }

    method WriteIncidentEvent(key: Key, e: Event<IncidentDelta>)
      modifies this`events
      ensures events == old(events) + [EventRow(key, e)]
    {
      events := events + [EventRow(key, e)];
    }

    method WriteUpsertEvent(prior: Option<Prior>, inc: Incident, pollId: int, at: Time)
      requires EventsMatch(db)
      modifies this`events
      ensures forall key :: Stores(LogOf(events, key), db.Log(key)
        + if key == inc.key then UpsertEvents(prior, inc, pollId, at) else [])
    {
      var delta := BuildIncidentDelta(prior, inc);
      ghost var news := UpsertEvents(prior, inc, pollId, at);
      ghost var rows := events;
      var encoded := EncodeEventDelta(delta);
      if prior.None? {
        WriteIncidentEvent(inc.key, Event(Created, at, pollId, encoded));
      } else if prior.value.clearedAt.Some? {
        WriteIncidentEvent(inc.key, Event(Reopened, at, pollId, encoded));
      } else if !delta.Empty() {
        WriteIncidentEvent(inc.key, Event(Updated, at, pollId, encoded));
      }
      forall key ensures Stores(LogOf(events, key), db.Log(key) + if key == inc.key then news else []) {
        assert Stores(LogOf(rows, key), db.Log(key));
        if news == [] {
          assert db.Log(key) + [] == db.Log(key);
        } else {
          EventInserted(rows, events[|rows|], key);
          if key == inc.key {
            StoresOneMore(LogOf(rows, key), db.Log(key), events[|rows|].event, news[0]);
          } else {
            assert db.Log(key) + [] == db.Log(key);
          }
        }
      }
    }

    method EncodeEventDelta(delta: IncidentDelta) returns (d: EventDelta<IncidentDelta>)
      ensures d == if delta.Bag().Empty() then NoDelta else Diff(delta)
    {
      if delta.Empty() {
        return NoDelta;
      }
      return Diff(delta);
    }

    /** What an upsert leaves in the units and events tables. */
    lemma UpsertedTables(d: Db, prior: Option<Prior>, inc: Incident, pollId: int, at: Time)
      requires prior == d.PriorOf(inc.key)
      ensures forall uk :: Upsert(d, inc, pollId, at).History(uk)
                        == SyncUnits(d, PriorUnits(prior), inc.key, inc.units, pollId, at).History(uk)
      ensures forall key :: Upsert(d, inc, pollId, at).Log(key)
                         == d.Log(key) + if key == inc.key then UpsertEvents(prior, inc, pollId, at) else []
    {
      forall key ensures Upsert(d, inc, pollId, at).Log(key)
                      == d.Log(key) + if key == inc.key then UpsertEvents(prior, inc, pollId, at) else []
      {
        assert d.Log(key) + [] == d.Log(key);
      }
    }

    /** The upsert transaction: rolled back as a whole, or committed as a whole. */
    method UpsertIncident(inc: Incident, pollId: int, at: Time, luck: Luck) returns (ok: bool)
      requires Valid()
      modifies this
      ensures Valid() && (ok <==> luck.Fine?)
      ensures db == if luck.Lost? then old(db) else Upsert(old(db), inc, pollId, at)
    {
      if luck.Lost? {
        return false;
      }
      var prior := LoadPriorIncident(inc.key);
      UpsertIncidentSnapshot(inc, pollId, at);
      SyncUnitHistory(prior, inc, pollId, at);
      WriteUpsertEvent(prior, inc, pollId, at);
      UpsertedTables(db, prior, inc, pollId, at);
      db := Upsert(db, inc, pollId, at);
      return luck.Fine?;
    }

    // -------------------------------------------------------------- clearing

    method MarkMissing(source: string, observedAt: Time, observedIDs: seq<string>, luck: Luck) returns (ok: bool)
      requires Valid()
      modifies this
      ensures Valid() && (ok <==> luck.Fine?)
      ensures db == if luck.Lost? then old(db)
        else Tables.MarkMissing(old(db), source, observedAt, set id | id in observedIDs)
    {
      if luck.Lost? {
        return false;
      }
      var todo := incidents.Keys;
      ghost var ids := set id | id in observedIDs;
      ghost var target := Tables.MarkMissing(db, source, observedAt, ids).incidents;
      while todo != {}
        invariant todo <= old(incidents).Keys && incidents.Keys == old(incidents).Keys
        invariant forall k | k in incidents :: incidents[k] == if k in todo then old(incidents)[k] else target[k]
        invariant unchanged(this`units) && unchanged(this`events) && unchanged(this`polls) && db == old(db)
        decreases todo
      {
        var key :| key in todo;
        var row := incidents[key];
        if key.source == source && row.clearedAt.None? && key.id !in observedIDs {
          if row.missingSince.None? {
            row := row.(missingSince := Some(observedAt));
          }
          incidents := incidents[key := row];
        }
        todo := todo - {key};
      }
      db := Tables.MarkMissing(db, source, observedAt, ids);
      assert incidents == db.incidents;
      return luck.Fine?;
    }

    ghost predicate Lists(cleared: seq<ClearedIncident>, m: map<Key, Time>)
    {
      && (forall i, j | 0 <= i < j < |cleared| :: cleared[i].key != cleared[j].key)
      && (forall i | 0 <= i < |cleared| :: cleared[i].key in m && m[cleared[i].key] == cleared[i].clearedAt)
      && (forall key | key in m :: exists i :: 0 <= i < |cleared| && cleared[i].key == key)
    }

    method CountMisses(source: string, since: Time) returns (misses: nat)
      ensures misses == SuccessesSince(polls, source, since)
    {
      misses := 0;
      for i := 0 to |polls|
        invariant misses == SuccessesSince(polls[..i], source, since)
      {
        assert polls[..i + 1][..i] == polls[..i];
        var p := polls[i];
        if p.source == source && p.success && p.startedAt >= since {
          misses := misses + 1;
        }
      }
      assert polls[..|polls|] == polls;
    }

    /** The sweep has handled every row but those in todo. */
    ghost predicate SweptBut(todo: set<Key>, was: map<Key, IncidentRow>, target: map<Key, Time>,
                             cleared: seq<ClearedIncident>)
      reads this
    {
      && todo <= was.Keys && incidents.Keys == was.Keys
      && (forall k | k in was :: incidents[k] ==
            (if k !in todo && k in target then was[k].(clearedAt := Some(target[k])) else was[k]))
      && Lists(cleared, Handled(target, todo))
    }

    ghost function Handled(target: map<Key, Time>, todo: set<Key>): map<Key, Time> {
      map k | k in target && k !in todo :: target[k]
    }

    method SweepRow(key: Key, source: string, minMisses: nat, cleared: seq<ClearedIncident>,
                    ghost todo: set<Key>, ghost was: map<Key, IncidentRow>)
      returns (out: seq<ClearedIncident>)
      requires db.incidents == was && polls == db.polls && key in todo
      requires SweptBut(todo, was, Sweepable(db, source, minMisses), cleared)
      modifies this`incidents
      ensures SweptBut(todo - {key}, was, Sweepable(db, source, minMisses), out)
    {
      ghost var target := Sweepable(db, source, minMisses);
      var row := incidents[key];
      assert row == was[key];
      out := cleared;
      if key.source == source && row.clearedAt.None? && row.missingSince.Some? {
        var misses := CountMisses(source, row.missingSince.value);
        if misses >= minMisses {
          incidents := incidents[key := row.(clearedAt := row.missingSince)];
          out := out + [ClearedIncident(key, row.missingSince.value)];
        }
      }
      assert (todo - {key}) + {key} == todo;
      ListedOneMore(cleared, out, target, todo - {key}, key);
    }

    /** The rows come back in no particular order. */
    method SweepCleared(source: string, minMisses: nat, luck: Luck) returns (ok: bool, cleared: seq<ClearedIncident>)
      requires Valid()
      modifies this
      ensures Valid() && (ok <==> luck.Fine?)
      ensures db == if luck.Lost? then old(db) else Tables.SweepCleared(old(db), source, minMisses)
      ensures ok ==> Lists(cleared, Sweepable(old(db), source, minMisses))
    {
      cleared := [];
      if luck.Lost? {
        return false, [];
      }
      var todo := incidents.Keys;
      ghost var target := Sweepable(db, source, minMisses);
      assert Handled(target, todo) == map[];
      while todo != {}
        invariant SweptBut(todo, db.incidents, target, cleared)
        invariant unchanged(this`units) && unchanged(this`events) && unchanged(this`polls) && db == old(db)
        decreases todo
      {
        var key :| key in todo;
        cleared := SweepRow(key, source, minMisses, cleared, todo, db.incidents);
        todo := todo - {key};
      }
      FinishSweep(source, minMisses, target, cleared);
      return luck.Fine?, cleared;
    }

    ghost method FinishSweep(source: string, minMisses: nat, target: map<Key, Time>, cleared: seq<ClearedIncident>)
      requires UnitsMatch(db) && EventsMatch(db) && polls == db.polls
      requires target == Sweepable(db, source, minMisses) && SweptBut({}, db.incidents, target, cleared)
      modifies this`db
      ensures Valid() && db == Tables.SweepCleared(old(db), source, minMisses) && Lists(cleared, target)
    {
      assert Handled(target, {}) == target;
      ghost var before := db;
      db := Tables.SweepCleared(before, source, minMisses);
      SameLogsAndUnits(before, db);
      assert incidents == db.incidents;
    }

    lemma SameLogsAndUnits(d: Db, e: Db)
      requires d.units == e.units && d.events == e.events
      ensures UnitsMatch(d) ==> UnitsMatch(e)
      ensures EventsMatch(d) ==> EventsMatch(e)
    {
      assert forall uk :: d.History(uk) == e.History(uk);
      assert forall key :: d.Log(key) == e.Log(key);
    }

    lemma ListedOneMore(was: seq<ClearedIncident>, now: seq<ClearedIncident>, target: map<Key, Time>,
                        todo: set<Key>, key: Key)
      requires key !in todo && Lists(was, Handled(target, todo + {key}))
      requires now == if key in target then was + [ClearedIncident(key, target[key])] else was
      ensures Lists(now, Handled(target, todo))
    {
      var before, after := Handled(target, todo + {key}), Handled(target, todo);
      forall k | k in after ensures exists i :: 0 <= i < |now| && now[i].key == k {
        if k == key {
          assert now[|was|].key == k;
        } else {
          assert k in before;
          var i :| 0 <= i < |was| && was[i].key == k;
          assert now[i].key == k;
        }
      }
    }

    ghost predicate ClearsLogged(cleared: seq<ClearedIncident>, pollId: int)
      reads this
    {
      forall key :: Stores(LogOf(events, key), db.Log(key) + ClearedSoFar(cleared, key, pollId))
    }

    method RecordOneCleared(cleared: seq<ClearedIncident>, i: nat, pollId: int)
      requires i < |cleared| && ClearsLogged(cleared[..i], pollId)
      modifies this`events
      ensures ClearsLogged(cleared[..i + 1], pollId)
    {
      var item := cleared[i];
      ghost var rows := events;
      WriteIncidentEvent(item.key, Event(Cleared, item.clearedAt, pollId, ClearedDelta(item.clearedAt)));
      forall key ensures Stores(LogOf(events, key), db.Log(key) + ClearedSoFar(cleared[..i + 1], key, pollId)) {
        var log := db.Log(key) + ClearedSoFar(cleared[..i], key, pollId);
        assert Stores(LogOf(rows, key), log);
        OneMoreCleared(cleared, i, key, pollId);
        EventInserted(rows, events[|rows|], key);
        if key == item.key {
          StoresOneMore(LogOf(rows, key), log, events[|rows|].event, ClearedEvent(item.clearedAt, pollId));
          assert log + [ClearedEvent(item.clearedAt, pollId)]
              == db.Log(key) + ClearedSoFar(cleared[..i + 1], key, pollId);
        }
      }
    }

    /** What recording the cleared events leaves in the tables. */
    lemma RecordedTables(d: Db, cleared: seq<ClearedIncident>, m: map<Key, Time>, pollId: int)
      requires Lists(cleared, m)
      ensures forall key :: Tables.RecordClearedEvents(d, m, pollId).Log(key)
                         == d.Log(key) + ClearedSoFar(cleared, key, pollId)
      ensures forall uk :: Tables.RecordClearedEvents(d, m, pollId).History(uk) == d.History(uk)
    {
      forall key ensures Tables.RecordClearedEvents(d, m, pollId).Log(key)
                      == d.Log(key) + ClearedSoFar(cleared, key, pollId)
      {
        ClearedOnce(cleared, m, key, pollId);
        assert d.Log(key) + [] == d.Log(key);
      }
    }

    method RecordClearedEvents(cleared: seq<ClearedIncident>, pollId: int, luck: Luck, ghost m: map<Key, Time>)
      returns (ok: bool)
      requires Valid() && Lists(cleared, m)
      modifies this
      ensures Valid() && (ok <==> luck.Fine?)
      ensures db == if luck.Lost? then old(db) else Tables.RecordClearedEvents(old(db), m, pollId)
    {
      if luck.Lost? {
        return false;
      }
      assert cleared[..0] == [] && forall key :: db.Log(key) + [] == db.Log(key);
      for i := 0 to |cleared|
        invariant unchanged(this`incidents) && unchanged(this`units) && unchanged(this`polls) && db == old(db)
        invariant ClearsLogged(cleared[..i], pollId)
      {
        RecordOneCleared(cleared, i, pollId);
      }
      assert cleared[..|cleared|] == cleared;
      RecordedTables(db, cleared, m, pollId);
      db := Tables.RecordClearedEvents(db, m, pollId);
      return luck.Fine?;
    }

    /** The cleared events these items add to one incident's log. */
    ghost function ClearedSoFar(cleared: seq<ClearedIncident>, key: Key, pollId: int): seq<BagEvent> {
      if cleared == [] then []
      else ClearedSoFar(cleared[..|cleared| - 1], key, pollId)
           + if cleared[|cleared| - 1].key == key then [ClearedEvent(cleared[|cleared| - 1].clearedAt, pollId)] else []
    }

    lemma OneMoreCleared(cleared: seq<ClearedIncident>, i: nat, key: Key, pollId: int)
      requires i < |cleared|
      ensures ClearedSoFar(cleared[..i + 1], key, pollId) == ClearedSoFar(cleared[..i], key, pollId)
        + if cleared[i].key == key then [ClearedEvent(cleared[i].clearedAt, pollId)] else []
    {
      assert cleared[..i + 1][..i] == cleared[..i];
    }

    lemma {:induction false} NotCleared(cleared: seq<ClearedIncident>, key: Key, pollId: int)
      requires forall i | 0 <= i < |cleared| :: cleared[i].key != key
      ensures ClearedSoFar(cleared, key, pollId) == []
    {
      if cleared != [] {
        NotCleared(cleared[..|cleared| - 1], key, pollId);
      }
    }

    lemma {:induction false} ClearedAtIndex(cleared: seq<ClearedIncident>, i: nat, pollId: int)
      requires i < |cleared|
      requires forall x, y | 0 <= x < y < |cleared| :: cleared[x].key != cleared[y].key
      ensures ClearedSoFar(cleared, cleared[i].key, pollId) == [ClearedEvent(cleared[i].clearedAt, pollId)]
    {
      var rest := cleared[..|cleared| - 1];
      if i == |cleared| - 1 {
        NotCleared(rest, cleared[i].key, pollId);
      } else {
        ClearedAtIndex(rest, i, pollId);
      }
    }

    lemma ClearedOnce(cleared: seq<ClearedIncident>, m: map<Key, Time>, key: Key, pollId: int)
      requires Lists(cleared, m)
      ensures ClearedSoFar(cleared, key, pollId) == if key in m then [ClearedEvent(m[key], pollId)] else []
    {
      if key in m {
        var i :| 0 <= i < |cleared| && cleared[i].key == key;
        ClearedAtIndex(cleared, i, pollId);
      } else {
        NotCleared(cleared, key, pollId);
      }
    }
  }

  class Manager {
    const store: Store
    const clearAfterMisses: nat

    constructor (s: Store, n: nat)
      ensures store == s && clearAfterMisses == n
    {
      store := s;
      clearAfterMisses := n;
    }

    /** The first k statements of this call have taken effect. */
    ghost predicate Standing(before: Db, a: Attempt, k: nat)
      requires k <= Finished(a.r)
      reads store
    {
      store.Valid() && store.db == After(before, a, clearAfterMisses, k)
    }

    /** The call is over: it failed, and left what the specification says. */
    ghost predicate Stopped(before: Db, a: Attempt)
      reads store
    {
      && store.Valid() && store.db == Lifecycle.Apply(before, a, clearAfterMisses)
      && Stops(before, a, clearAfterMisses)
    }

    /** Where a run that stops at statement k leaves the tables. */
    ghost function StoppedAt(before: Db, a: Attempt, k: nat): Db
      requires a.fault.FaultAt? && k <= Succeeding(a.r)
    {
      var d := After(before, a, clearAfterMisses, if a.fault.landed then k + 1 else k);
      if 0 < k < Succeeding(a.r) && a.fault.marked
      then FinishPoll(d, a.pollId, false, NullIfEmpty(a.fault.message)) else d
    }

    lemma StopsThere(before: Db, a: Attempt, k: nat)
      requires a.r.Success() && a.fault.FaultAt? && a.fault.k == k && k <= Succeeding(a.r)
      requires k == Recording(a.r) ==> ClearedBy(before, a, clearAfterMisses) != map[]
      ensures Lifecycle.Apply(before, a, clearAfterMisses) == StoppedAt(before, a, k)
      ensures Stops(before, a, clearAfterMisses)
    {
    }

    method FailPollApply(r: PollResult, pollId: int, fault: Fault, k: nat, ghost before: Db)
      requires store.Valid() && r.Success() && fault.FaultAt? && fault.k == k && 0 < k < Succeeding(r)
      requires var a := Attempt(r, pollId, fault);
        && (k == Recording(r) ==> ClearedBy(before, a, clearAfterMisses) != map[])
        && store.db == After(before, a, clearAfterMisses, if fault.landed then k + 1 else k)
      modifies store
      ensures store.Valid() && Stops(before, Attempt(r, pollId, fault), clearAfterMisses)
      ensures store.db == Lifecycle.Apply(before, Attempt(r, pollId, fault), clearAfterMisses)
    {
      StopsThere(before, Attempt(r, pollId, fault), k);
      var _ := store.MarkPollFailed(pollId, fault.message, if fault.marked then Fine else Lost);
    }

    /** Records one poll result and runs the lifecycle; ok is false exactly when
        the source returns an error. */
    method Apply(r: PollResult, pollId: int, fault: Fault) returns (ok: bool)
      requires store.Valid()
      modifies store
      ensures store.Valid()
      ensures store.db == Lifecycle.Apply(old(store.db), Attempt(r, pollId, fault), clearAfterMisses)
      ensures ok <==> !(if r.Success() then Stops(old(store.db), Attempt(r, pollId, fault), clearAfterMisses)
                        else fault.FaultAt? && fault.k == 0)
    {
      ghost var a := Attempt(r, pollId, fault);
      ghost var before := store.db;
      if !r.Success() {
        ok := store.RecordPoll(r, pollId, LuckAt(fault, 0));
        return;
      }
      ok := store.RecordPollPending(r, pollId, LuckAt(fault, 0));
      if !ok {
        StopsThere(before, a, 0);
        return;
      }
      var observedIDs;
      ok, observedIDs := UpsertObserved(r, pollId, fault, before);
      if ok {
        ok := ClearAbsent(r, pollId, fault, observedIDs, before);
      }
    }

    method UpsertOne(r: PollResult, pollId: int, fault: Fault, i: nat, ghost before: Db) returns (ok: bool)
      requires r.Success() && i < |r.incidents| && (fault.FaultAt? ==> fault.k > i)
      requires Standing(before, Attempt(r, pollId, fault), i + 1)
      modifies store
      ensures ok ==> Standing(before, Attempt(r, pollId, fault), i + 2)
      ensures ok && fault.FaultAt? ==> fault.k > i + 1
      ensures !ok ==> Stopped(before, Attempt(r, pollId, fault))
    {
      ok := store.UpsertIncident(r.incidents[i], pollId, r.startedAt, LuckAt(fault, i + 1));
      if !ok {
        FailPollApply(r, pollId, fault, i + 1, before);
      }
    }

    method UpsertObserved(r: PollResult, pollId: int, fault: Fault, ghost before: Db)
      returns (ok: bool, observedIDs: seq<string>)
      requires r.Success() && (fault.FaultAt? ==> fault.k > 0)
      requires Standing(before, Attempt(r, pollId, fault), 1)
      modifies store
      ensures ok ==> Standing(before, Attempt(r, pollId, fault), Missing(r))
      ensures ok && fault.FaultAt? ==> fault.k > |r.incidents|
      ensures ok ==> IdsOf(r.incidents, observedIDs) && |observedIDs| == |r.incidents|
      ensures !ok ==> Stopped(before, Attempt(r, pollId, fault))
    {
      observedIDs := [];
      var i := 0;
      while i < |r.incidents|
        invariant i <= |r.incidents|
        invariant Standing(before, Attempt(r, pollId, fault), i + 1)
        invariant fault.FaultAt? ==> fault.k > i
        invariant |observedIDs| == i && IdsOf(r.incidents, observedIDs)
      {
        ok := UpsertOne(r, pollId, fault, i, before);
        if !ok {
          return;
        }
        IdsOfOneMore(r.incidents, observedIDs);
        observedIDs := observedIDs + [r.incidents[i].key.id];
        i := i + 1;
      }
      ok := true;
    }

    ghost predicate IdsOf(incidents: seq<Incident>, ids: seq<string>) {
      |ids| <= |incidents| && forall j | 0 <= j < |ids| :: ids[j] == incidents[j].key.id
    }

    lemma IdsOfOneMore(incidents: seq<Incident>, ids: seq<string>)
      requires IdsOf(incidents, ids) && |ids| < |incidents|
      ensures IdsOf(incidents, ids + [incidents[|ids|].key.id])
    {
    }

    lemma SameIds(incidents: seq<Incident>, ids: seq<string>)
      requires IdsOf(incidents, ids) && |ids| == |incidents|
      ensures (set id | id in ids) == Ids(incidents)
    {
      forall inc | inc in incidents ensures inc.key.id in ids {
        var j :| 0 <= j < |incidents| && incidents[j] == inc;
        assert ids[j] == inc.key.id;
      }
      forall id | id in ids ensures id in Ids(incidents) {
        var j :| 0 <= j < |ids| && ids[j] == id;
        assert incidents[j] in incidents;
      }
    }

    method MarkAbsent(r: PollResult, pollId: int, fault: Fault, observedIDs: seq<string>, ghost before: Db)
      returns (ok: bool)
      requires r.Success() && (fault.FaultAt? ==> fault.k > |r.incidents|)
      requires IdsOf(r.incidents, observedIDs) && |observedIDs| == |r.incidents|
      requires Standing(before, Attempt(r, pollId, fault), Missing(r))
      modifies store
      ensures ok ==> Standing(before, Attempt(r, pollId, fault), Sweeping(r))
      ensures ok && fault.FaultAt? ==> fault.k > Missing(r)
      ensures !ok ==> Stopped(before, Attempt(r, pollId, fault))
    {
      SameIds(r.incidents, observedIDs);
      ok := store.MarkMissing(r.source, r.startedAt, observedIDs, LuckAt(fault, Missing(r)));
      if !ok {
        FailPollApply(r, pollId, fault, Missing(r), before);
      }
    }

    method SweepAbsent(r: PollResult, pollId: int, fault: Fault, ghost before: Db)
      returns (ok: bool, cleared: seq<ClearedIncident>)
      requires r.Success() && (fault.FaultAt? ==> fault.k > Missing(r))
      requires Standing(before, Attempt(r, pollId, fault), Sweeping(r))
      modifies store
      ensures ok ==> Standing(before, Attempt(r, pollId, fault), Recording(r))
      ensures ok ==> store.Lists(cleared, ClearedBy(before, Attempt(r, pollId, fault), clearAfterMisses))
      ensures ok && fault.FaultAt? ==> fault.k > Sweeping(r)
      ensures !ok ==> Stopped(before, Attempt(r, pollId, fault))
    {
      ok, cleared := store.SweepCleared(r.source, clearAfterMisses, LuckAt(fault, Sweeping(r)));
      if !ok {
        FailPollApply(r, pollId, fault, Sweeping(r), before);
      }
    }

    /** Past the recording, only the last statement can still stop the call. */
    lemma PastRecording(before: Db, a: Attempt)
      requires a.fault.FaultAt? ==> a.fault.k > Recording(a.r) || ClearedBy(before, a, clearAfterMisses) == map[]
      requires a.fault.FaultAt? ==> a.fault.k > Sweeping(a.r)
      ensures Stops(before, a, clearAfterMisses) ==> a.fault.k == Succeeding(a.r)
    {
    }

    method RecordCleared(r: PollResult, pollId: int, fault: Fault, cleared: seq<ClearedIncident>, ghost before: Db)
      returns (ok: bool)
      requires r.Success() && (fault.FaultAt? ==> fault.k > Sweeping(r))
      requires Standing(before, Attempt(r, pollId, fault), Recording(r))
      requires store.Lists(cleared, ClearedBy(before, Attempt(r, pollId, fault), clearAfterMisses))
      modifies store
      ensures ok ==> Standing(before, Attempt(r, pollId, fault), Succeeding(r))
      ensures ok && Stops(before, Attempt(r, pollId, fault), clearAfterMisses) ==> fault.k == Succeeding(r)
      ensures !ok ==> Stopped(before, Attempt(r, pollId, fault))
    {
      ghost var a := Attempt(r, pollId, fault);
      ghost var m := ClearedBy(before, a, clearAfterMisses);
      if |cleared| == 0 {
        NothingListed(cleared, m);
        NothingToRecord(before, a, clearAfterMisses);
        PastRecording(before, a);
        return true;
      }
      assert cleared[0].key in m;
      ok := store.RecordClearedEvents(cleared, pollId, LuckAt(fault, Recording(r)), m);
      if !ok {
        FailPollApply(r, pollId, fault, Recording(r), before);
      } else {
        PastRecording(before, a);
      }
    }

    method ClearAbsent(r: PollResult, pollId: int, fault: Fault, observedIDs: seq<string>, ghost before: Db)
      returns (ok: bool)
      requires r.Success() && (fault.FaultAt? ==> fault.k > |r.incidents|)
      requires IdsOf(r.incidents, observedIDs) && |observedIDs| == |r.incidents|
      requires Standing(before, Attempt(r, pollId, fault), Missing(r))
      modifies store
      ensures store.Valid() && (ok <==> !Stops(before, Attempt(r, pollId, fault), clearAfterMisses))
      ensures store.db == Lifecycle.Apply(before, Attempt(r, pollId, fault), clearAfterMisses)
    {
      ok := MarkAbsent(r, pollId, fault, observedIDs, before);
      if !ok {
        return;
      }
      var cleared;
      ok, cleared := SweepAbsent(r, pollId, fault, before);
      if !ok {
        return;
      }
      ok := RecordCleared(r, pollId, fault, cleared, before);
      if ok {
        ok := Succeed(r, pollId, fault, before);
      }
    }

    method Succeed(r: PollResult, pollId: int, fault: Fault, ghost before: Db) returns (ok: bool)
      requires r.Success() && Standing(before, Attempt(r, pollId, fault), Succeeding(r))
      requires Stops(before, Attempt(r, pollId, fault), clearAfterMisses) ==> fault.k == Succeeding(r)
      modifies store
      ensures store.Valid() && (ok <==> !Stops(before, Attempt(r, pollId, fault), clearAfterMisses))
      ensures store.db == Lifecycle.Apply(before, Attempt(r, pollId, fault), clearAfterMisses)
    {
      ok := store.MarkPollSucceeded(pollId, LuckAt(fault, Succeeding(r)));
      if !ok {
        StopsThere(before, Attempt(r, pollId, fault), Succeeding(r));
      }
    }

    lemma NothingListed(cleared: seq<ClearedIncident>, m: map<Key, Time>)
      requires cleared == [] && store.Lists(cleared, m)
      ensures m == map[]
    {
      assert forall key :: key !in m;
    }

    lemma NothingToRecord(before: Db, a: Attempt, n: nat)
      requires ClearedBy(before, a, n) == map[]
      ensures After(before, a, n, Succeeding(a.r)) == After(before, a, n, Recording(a.r))
    {
      var d := After(before, a, n, Recording(a.r));
      assert d.events + map[] == d.events;
    }
  }
}
