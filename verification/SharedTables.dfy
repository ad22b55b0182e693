/** Several programs on one database: every statement belongs to one source and
    reads and writes only that source's rows, so each source's rows evolve as
    if its own statements were the only ones. */
module SharedTables {
  import opened Types
  import opened Deltas
  import opened Tables
  import L = Lifecycle

  const SDR := "sdr_audio"

  /** A transcript promoted to an incident, with the ids the database hands out. */
  datatype Promotion = Promotion(key: Key, fields: Fields, units: seq<Unit>, capturedAt: Time, now: Time,
                                 pollId: int, rowId: int)

  /** The statements of the ingester, the dispatch worker and the janitor. */
  datatype Statement =
    | StartPoll(r: PollResult, pollId: int, error: Option<string>)
    | UpsertOne(inc: Incident, pollId: int, at: Time, rowId: int)
    | MarkAbsent(source: string, at: Time, ids: set<string>)
    | Sweep(source: string, minMisses: nat)
    | RecordSwept(source: string, pollId: int)
    | EndPoll(source: string, pollId: int, success: bool, error: Option<string>)
    | Promote(p: Promotion)
    | ClearStale(source: string, now: Time, window: Time)
  {
    function Source(): string {
      match this
      case StartPoll(r, _, _) => r.source
      case UpsertOne(inc, _, _, _) => inc.key.source
      case MarkAbsent(s, _, _) => s
      case Sweep(s, _) => s
      case RecordSwept(s, _) => s
      case EndPoll(s, _, _, _) => s
      case Promote(p) => p.key.source
      case ClearStale(s, _, _) => s
    }
  }

  /** The tables, the incidents' surrogate ids, and for each source what its
      last sweep returned. */
  datatype Shared = Shared(db: Db, rowIds: map<Key, int>, swept: map<Key, Time>)

  const Start := Shared(EmptyDb, map[], map[])

  // ---------------------------------------------------------------- statements

  /** RETURNING id: the row keeps the id it was first given. */
  function WithRowId(rowIds: map<Key, int>, key: Key, rowId: int): map<Key, int> {
    if key in rowIds then rowIds else rowIds[key := rowId]
  }

  ghost function AddUnits(db: Db, key: Key, units: seq<Unit>, pollId: int, at: Time): Db {
    if units == [] then db
    else
      var u := units[|units| - 1];
      var rest := AddUnits(db, key, units[..|units| - 1], pollId, at);
      var uk := UnitKey(key, u.name);
      rest.(units := rest.units[uk := rest.History(uk) + [NewInterval(u.status, pollId, at)]])
  }

  function PromotedRow(prior: Option<IncidentRow>, p: Promotion): IncidentRow {
    match prior
    case None => IncidentRow(p.fields, p.units, p.capturedAt, p.now, p.now, p.pollId, None, None, 0)
    case Some(row) =>
      IncidentRow(p.fields, p.units, p.capturedAt, row.receivedAt, p.now, p.pollId, None, None, row.reopenCount)
  }

  function ParserPoll(p: Promotion): PollRow {
    PollRow(p.pollId, p.key.source, p.now, 1, true, None, Unclassified, "", None)
  }

  ghost function PromoteRow(db: Db, p: Promotion): Db {
    var prior := if p.key in db.incidents then Some(db.incidents[p.key]) else None;
    var added := AddUnits(db, p.key, p.units, p.pollId, p.now);
    Db(db.incidents[p.key := PromotedRow(prior, p)], added.units, db.events, db.polls + [ParserPoll(p)])
  }

  ghost function ClearStaleRows(db: Db, source: string, now: Time, window: Time): Db {
    db.(incidents := map k | k in db.incidents ::
      var row := db.incidents[k];
      if k.source == source && row.clearedAt.None? && row.incidentDate < now - window
      then row.(clearedAt := Some(now)) else row)
  }

  /** The part of the last sweeps' responses that belongs to a source. */
  ghost function Part<V>(m: map<Key, V>, source: string): map<Key, V> {
    map k | k in m && k.source == source :: m[k]
  }

  ghost function Others<V>(m: map<Key, V>, source: string): map<Key, V> {
    map k | k in m && k.source != source :: m[k]
  }

  /** What a statement does to the tables, given its source's last sweep. */
  ghost function Write(db: Db, swept: map<Key, Time>, s: Statement): Db {
    match s
    case StartPoll(r, pollId, error) => InsertPoll(db, r, pollId, false, error)
    case UpsertOne(inc, pollId, at, _) => Upsert(db, inc, pollId, at)
    case MarkAbsent(source, at, ids) => MarkMissing(db, source, at, ids)
    case Sweep(source, n) => SweepCleared(db, source, n)
    case RecordSwept(source, pollId) => RecordClearedEvents(db, swept, pollId)
    case EndPoll(_, pollId, success, error) => FinishPoll(db, pollId, success, error)
    case Promote(p) => PromoteRow(db, p)
    case ClearStale(source, now, window) => ClearStaleRows(db, source, now, window)
  }

  function Number(rowIds: map<Key, int>, s: Statement): map<Key, int> {
    match s
    case UpsertOne(inc, _, _, rowId) => WithRowId(rowIds, inc.key, rowId)
    case Promote(p) => WithRowId(rowIds, p.key, p.rowId)
    case _ => rowIds
  }

  ghost function Return(db: Db, swept: map<Key, Time>, s: Statement): map<Key, Time> {
    match s
    case Sweep(source, n) => Others(swept, source) + Sweepable(db, source, n)
    case _ => swept
  }

  ghost function Exec(t: Shared, s: Statement): Shared {
    Shared(Write(t.db, Part(t.swept, s.Source()), s), Number(t.rowIds, s), Return(t.db, t.swept, s))
  }

  ghost function Fold<S, E>(f: (S, E) -> S, start: S, es: seq<E>): S {
    if es == [] then start else f(Fold(f, start, es[..|es| - 1]), es[|es| - 1])
  }

  lemma {:induction false} FoldAppend<S, E>(f: (S, E) -> S, start: S, es: seq<E>, more: seq<E>)
    ensures Fold(f, start, es + more) == Fold(f, Fold(f, start, es), more)
  {
    if more == [] {
      assert es + more == es;
    } else {
      var n := |more| - 1;
      FoldAppend(f, start, es, more[..n]);
      assert (es + more)[..|es| + n] == es + more[..n];
    }
  }

  ghost function ExecFrom(t: Shared, ss: seq<Statement>): Shared {
    Fold(Exec, t, ss)
  }

  ghost function ExecAll(ss: seq<Statement>): Shared {
    ExecFrom(Start, ss)
  }

  lemma ExecFromSnoc(t: Shared, ss: seq<Statement>, s: Statement)
    ensures ExecFrom(t, ss + [s]) == Exec(ExecFrom(t, ss), s)
  {
    assert (ss + [s])[..|ss|] == ss;
  }

  // ---------------------------------------------------------------- one source's rows

  function PollsOfSource(polls: seq<PollRow>, source: string): seq<PollRow> {
    if polls == [] then []
    else PollsOfSource(polls[..|polls| - 1], source)
         + if polls[|polls| - 1].source == source then [polls[|polls| - 1]] else []
  }

  ghost function UnitsOfSource(units: map<UnitKey, seq<Interval>>, source: string): map<UnitKey, seq<Interval>> {
    map uk | uk in units && uk.key.source == source :: units[uk]
  }

  ghost function RowsOfSource(db: Db, source: string): Db {
    Db(Part(db.incidents, source), UnitsOfSource(db.units, source), Part(db.events, source),
       PollsOfSource(db.polls, source))
  }

  ghost function Project(t: Shared, source: string): Shared {
    Shared(RowsOfSource(t.db, source), Part(t.rowIds, source), Part(t.swept, source))
  }

  function Only(ss: seq<Statement>, source: string): seq<Statement> {
    if ss == [] then []
    else Only(ss[..|ss| - 1], source)
         + if ss[|ss| - 1].Source() == source then [ss[|ss| - 1]] else []
  }

  // ---------------------------------------------------------------- poll ids

  /** The id sequence of source_polls never serves two sources with one id:
      every statement that names a poll id belongs to the id's owner. */
  ghost predicate Owned(s: Statement, owner: int -> string) {
    match s
    case StartPoll(r, pollId, _) => owner(pollId) == r.source
    case EndPoll(source, pollId, _, _) => owner(pollId) == source
    case Promote(p) => owner(p.pollId) == p.key.source
    case _ => true
  }

  ghost predicate PollsOwned(polls: seq<PollRow>, owner: int -> string) {
    forall p | p in polls :: owner(p.pollId) == p.source
  }

  lemma ExecKeepsPollsOwned(t: Shared, s: Statement, owner: int -> string)
    requires PollsOwned(t.db.polls, owner) && Owned(s, owner)
    ensures PollsOwned(Exec(t, s).db.polls, owner)
  {
  }

  // ---------------------------------------------------------------- statements and projection

  lemma {:induction false} CountOfSource(polls: seq<PollRow>, source: string, since: Time)
    ensures SuccessesSince(PollsOfSource(polls, source), source, since) == SuccessesSince(polls, source, since)
  {
    if polls != [] {
      var n := |polls| - 1;
      CountOfSource(polls[..n], source, since);
      var rest := PollsOfSource(polls[..n], source);
      if polls[n].source == source {
        assert (rest + [polls[n]])[..|rest|] == rest;
      } else {
        assert rest + [] == rest;
      }
    }
  }

  lemma PollsSnoc(polls: seq<PollRow>, p: PollRow, source: string)
    ensures PollsOfSource(polls + [p], source)
         == if p.source == source then PollsOfSource(polls, source) + [p] else PollsOfSource(polls, source)
  {
    assert (polls + [p])[..|polls|] == polls;
  }

  function Outcomes(polls: seq<PollRow>, pollId: int, success: bool, error: Option<string>): seq<PollRow> {
    seq(|polls|, i requires 0 <= i < |polls| => SetOutcome(polls[i], pollId, success, error))
  }

  lemma FinishIsOutcomes(db: Db, pollId: int, success: bool, error: Option<string>)
    ensures FinishPoll(db, pollId, success, error) == db.(polls := Outcomes(db.polls, pollId, success, error))
  {
  }

  lemma {:induction false} OutcomesOfSource(polls: seq<PollRow>, pollId: int, success: bool, error: Option<string>,
                                            source: string)
    ensures PollsOfSource(Outcomes(polls, pollId, success, error), source)
         == Outcomes(PollsOfSource(polls, source), pollId, success, error)
  {
    if polls != [] {
      var n := |polls| - 1;
      OutcomesOfSource(polls[..n], pollId, success, error, source);
      assert Outcomes(polls, pollId, success, error)[..n] == Outcomes(polls[..n], pollId, success, error);
    }
  }

  lemma {:induction false} PollsOfSourceIn(polls: seq<PollRow>, source: string)
    ensures forall p | p in PollsOfSource(polls, source) :: p in polls && p.source == source
  {
    if polls != [] {
      PollsOfSourceIn(polls[..|polls| - 1], source);
    }
  }

  lemma ForeignOutcome(polls: seq<PollRow>, pollId: int, success: bool, error: Option<string>, source: string,
                       owner: int -> string)
    requires PollsOwned(polls, owner) && owner(pollId) != source
    ensures PollsOfSource(Outcomes(polls, pollId, success, error), source) == PollsOfSource(polls, source)
  {
    OutcomesOfSource(polls, pollId, success, error, source);
    PollsOfSourceIn(polls, source);
    var own := PollsOfSource(polls, source);
    assert forall i | 0 <= i < |own| :: own[i] in own;
  }

  // Each statement sees only its own source's rows...

  ghost function SetHistory(db: Db, uk: UnitKey, h: seq<Interval>): Db {
    db.(units := db.units[uk := h])
  }

  lemma SetHistoryHere(db: Db, uk: UnitKey, h: seq<Interval>)
    ensures RowsOfSource(SetHistory(db, uk, h), uk.key.source) == SetHistory(RowsOfSource(db, uk.key.source), uk, h)
    ensures RowsOfSource(db, uk.key.source).History(uk) == db.History(uk)
  {
  }

  lemma SetHistoryElsewhere(db: Db, uk: UnitKey, h: seq<Interval>, source: string)
    requires uk.key.source != source
    ensures RowsOfSource(SetHistory(db, uk, h), source) == RowsOfSource(db, source)
  {
  }

  lemma {:induction false} SyncUnitsHere(db: Db, prior: map<string, Unit>, key: Key, units: seq<Unit>, pollId: int,
                                         at: Time)
    ensures RowsOfSource(SyncUnits(db, prior, key, units, pollId, at), key.source)
         == SyncUnits(RowsOfSource(db, key.source), prior, key, units, pollId, at)
  {
    if units != [] {
      var u := units[|units| - 1];
      SyncUnitsHere(db, prior, key, units[..|units| - 1], pollId, at);
      var rest := SyncUnits(db, prior, key, units[..|units| - 1], pollId, at);
      var uk := UnitKey(key, u.name);
      SetHistoryHere(rest, uk, SyncUnit(rest.History(uk), u.name in prior, u.status, pollId, at));
    }
  }

  lemma {:induction false} SyncUnitsElsewhere(db: Db, prior: map<string, Unit>, key: Key, units: seq<Unit>, pollId: int,
                                              at: Time, source: string)
    requires key.source != source
    ensures RowsOfSource(SyncUnits(db, prior, key, units, pollId, at), source) == RowsOfSource(db, source)
  {
    if units != [] {
      var u := units[|units| - 1];
      SyncUnitsElsewhere(db, prior, key, units[..|units| - 1], pollId, at, source);
      var rest := SyncUnits(db, prior, key, units[..|units| - 1], pollId, at);
      var uk := UnitKey(key, u.name);
      SetHistoryElsewhere(rest, uk, SyncUnit(rest.History(uk), u.name in prior, u.status, pollId, at), source);
    }
  }

  lemma {:induction false} AddUnitsHere(db: Db, key: Key, units: seq<Unit>, pollId: int, at: Time)
    ensures RowsOfSource(AddUnits(db, key, units, pollId, at), key.source)
         == AddUnits(RowsOfSource(db, key.source), key, units, pollId, at)
  {
    if units != [] {
      var u := units[|units| - 1];
      AddUnitsHere(db, key, units[..|units| - 1], pollId, at);
      var rest := AddUnits(db, key, units[..|units| - 1], pollId, at);
      var uk := UnitKey(key, u.name);
      SetHistoryHere(rest, uk, rest.History(uk) + [NewInterval(u.status, pollId, at)]);
    }
  }

  lemma {:induction false} AddUnitsElsewhere(db: Db, key: Key, units: seq<Unit>, pollId: int, at: Time, source: string)
    requires key.source != source
    ensures RowsOfSource(AddUnits(db, key, units, pollId, at), source) == RowsOfSource(db, source)
  {
    if units != [] {
      AddUnitsElsewhere(db, key, units[..|units| - 1], pollId, at, source);
    }
  }

  lemma PartUpdate<V>(m: map<Key, V>, k: Key, v: V, source: string)
    ensures Part(m[k := v], source) == if k.source == source then Part(m, source)[k := v] else Part(m, source)
  {
  }

  lemma UpsertHere(db: Db, inc: Incident, pollId: int, at: Time)
    ensures RowsOfSource(Upsert(db, inc, pollId, at), inc.key.source)
         == Upsert(RowsOfSource(db, inc.key.source), inc, pollId, at)
  {
    var source := inc.key.source;
    var part := RowsOfSource(db, source);
    var prior := db.PriorOf(inc.key);
    assert part.PriorOf(inc.key) == prior && part.Log(inc.key) == db.Log(inc.key);
    SyncUnitsHere(db, PriorUnits(prior), inc.key, inc.units, pollId, at);
    var row := if inc.key in db.incidents then Some(db.incidents[inc.key]) else None;
    PartUpdate(db.incidents, inc.key, Snapshot(row, inc, pollId, at), source);
    PartUpdate(db.events, inc.key, db.Log(inc.key) + UpsertEvents(prior, inc, pollId, at), source);
  }

  lemma UpsertElsewhere(db: Db, inc: Incident, pollId: int, at: Time, source: string)
    requires inc.key.source != source
    ensures RowsOfSource(Upsert(db, inc, pollId, at), source) == RowsOfSource(db, source)
  {
    var prior := db.PriorOf(inc.key);
    SyncUnitsElsewhere(db, PriorUnits(prior), inc.key, inc.units, pollId, at, source);
    var row := if inc.key in db.incidents then Some(db.incidents[inc.key]) else None;
    PartUpdate(db.incidents, inc.key, Snapshot(row, inc, pollId, at), source);
    PartUpdate(db.events, inc.key, db.Log(inc.key) + UpsertEvents(prior, inc, pollId, at), source);
  }

  lemma {:induction false} AddUnitsFrame(db: Db, key: Key, units: seq<Unit>, pollId: int, at: Time)
    ensures var r := AddUnits(db, key, units, pollId, at);
            r.incidents == db.incidents && r.events == db.events && r.polls == db.polls
  {
    if units != [] {
      AddUnitsFrame(db, key, units[..|units| - 1], pollId, at);
    }
  }

  lemma PromoteHere(db: Db, p: Promotion)
    ensures RowsOfSource(PromoteRow(db, p), p.key.source) == PromoteRow(RowsOfSource(db, p.key.source), p)
  {
    var source := p.key.source;
    AddUnitsHere(db, p.key, p.units, p.pollId, p.now);
    PollsSnoc(db.polls, ParserPoll(p), source);
    var prior := if p.key in db.incidents then Some(db.incidents[p.key]) else None;
    PartUpdate(db.incidents, p.key, PromotedRow(prior, p), source);
    var part := RowsOfSource(db, source);
    assert prior == if p.key in part.incidents then Some(part.incidents[p.key]) else None;
  }

  lemma PromoteElsewhere(db: Db, p: Promotion, source: string)
    requires p.key.source != source
    ensures RowsOfSource(PromoteRow(db, p), source) == RowsOfSource(db, source)
  {
    AddUnitsElsewhere(db, p.key, p.units, p.pollId, p.now, source);
    PollsSnoc(db.polls, ParserPoll(p), source);
  }

  lemma SweepableHere(db: Db, source: string, n: nat)
    ensures Sweepable(RowsOfSource(db, source), source, n) == Sweepable(db, source, n)
  {
    forall k | k in db.incidents && db.incidents[k].missingSince.Some?
      ensures SuccessesSince(PollsOfSource(db.polls, source), source, db.incidents[k].missingSince.value)
           == SuccessesSince(db.polls, source, db.incidents[k].missingSince.value)
    {
      CountOfSource(db.polls, source, db.incidents[k].missingSince.value);
    }
  }

  lemma SweepHere(db: Db, source: string, n: nat)
    ensures RowsOfSource(SweepCleared(db, source, n), source) == SweepCleared(RowsOfSource(db, source), source, n)
  {
    SweepableHere(db, source, n);
    assert Part(SweepCleared(db, source, n).incidents, source)
        == SweepCleared(RowsOfSource(db, source), source, n).incidents;
  }

  lemma SweepElsewhere(db: Db, source: string, n: nat, other: string)
    requires source != other
    ensures RowsOfSource(SweepCleared(db, source, n), other) == RowsOfSource(db, other)
  {
    assert Part(SweepCleared(db, source, n).incidents, other) == Part(db.incidents, other);
  }

  lemma MarkHere(db: Db, source: string, at: Time, ids: set<string>)
    ensures RowsOfSource(MarkMissing(db, source, at, ids), source)
         == MarkMissing(RowsOfSource(db, source), source, at, ids)
  {
    assert Part(MarkMissing(db, source, at, ids).incidents, source)
        == MarkMissing(RowsOfSource(db, source), source, at, ids).incidents;
  }

  lemma MarkElsewhere(db: Db, source: string, at: Time, ids: set<string>, other: string)
    requires source != other
    ensures RowsOfSource(MarkMissing(db, source, at, ids), other) == RowsOfSource(db, other)
  {
    assert Part(MarkMissing(db, source, at, ids).incidents, other) == Part(db.incidents, other);
  }

  lemma PartMerge<V>(m: map<Key, V>, more: map<Key, V>, source: string)
    requires forall k | k in more :: k.source == source
    ensures Part(m + more, source) == Part(m, source) + more
  {
  }

  ghost function ClearedLogs(db: Db, cleared: map<Key, Time>, pollId: int): map<Key, seq<BagEvent>> {
    map k | k in cleared :: db.Log(k) + [ClearedEvent(cleared[k], pollId)]
  }

  lemma SameClearedLogs(db: Db, cleared: map<Key, Time>, pollId: int, source: string)
    requires forall k | k in cleared :: k.source == source
    ensures ClearedLogs(RowsOfSource(db, source), cleared, pollId) == ClearedLogs(db, cleared, pollId)
  {
    var part := RowsOfSource(db, source);
    assert forall k | k in cleared :: part.Log(k) == db.Log(k);
  }

  lemma RecordIsMerge(db: Db, cleared: map<Key, Time>, pollId: int)
    ensures RecordClearedEvents(db, cleared, pollId) == db.(events := db.events + ClearedLogs(db, cleared, pollId))
  {
  }

  lemma RecordHere(db: Db, cleared: map<Key, Time>, pollId: int, source: string)
    requires forall k | k in cleared :: k.source == source
    ensures RowsOfSource(RecordClearedEvents(db, cleared, pollId), source)
         == RecordClearedEvents(RowsOfSource(db, source), cleared, pollId)
  {
    RecordIsMerge(db, cleared, pollId);
    RecordIsMerge(RowsOfSource(db, source), cleared, pollId);
    SameClearedLogs(db, cleared, pollId, source);
    PartMerge(db.events, ClearedLogs(db, cleared, pollId), source);
  }

  lemma RecordElsewhere(db: Db, cleared: map<Key, Time>, pollId: int, source: string, other: string)
    requires source != other && forall k | k in cleared :: k.source == source
    ensures RowsOfSource(RecordClearedEvents(db, cleared, pollId), other) == RowsOfSource(db, other)
  {
    assert Part(RecordClearedEvents(db, cleared, pollId).events, other) == Part(db.events, other);
  }

  lemma ClearStaleHere(db: Db, source: string, now: Time, window: Time)
    ensures RowsOfSource(ClearStaleRows(db, source, now, window), source)
         == ClearStaleRows(RowsOfSource(db, source), source, now, window)
  {
    assert Part(ClearStaleRows(db, source, now, window).incidents, source)
        == ClearStaleRows(RowsOfSource(db, source), source, now, window).incidents;
  }

  lemma ClearStaleElsewhere(db: Db, source: string, now: Time, window: Time, other: string)
    requires source != other
    ensures RowsOfSource(ClearStaleRows(db, source, now, window), other) == RowsOfSource(db, other)
  {
    assert Part(ClearStaleRows(db, source, now, window).incidents, other) == Part(db.incidents, other);
  }

  lemma SweptHere(t: Shared, source: string, n: nat)
    ensures Part(Others(t.swept, source) + Sweepable(t.db, source, n), source)
         == Others(Part(t.swept, source), source) + Sweepable(RowsOfSource(t.db, source), source, n)
  {
    SweepableHere(t.db, source, n);
  }

  lemma SweptElsewhere(t: Shared, source: string, n: nat, other: string)
    requires source != other
    ensures Part(Others(t.swept, source) + Sweepable(t.db, source, n), other) == Part(t.swept, other)
  {
  }

  lemma WriteHere(db: Db, swept: map<Key, Time>, s: Statement)
    requires forall k | k in swept :: k.source == s.Source()
    ensures RowsOfSource(Write(db, swept, s), s.Source()) == Write(RowsOfSource(db, s.Source()), swept, s)
  {
    match s
    case StartPoll(r, pollId, error) => PollsSnoc(db.polls, NewPoll(r, pollId, false, error), r.source);
    case UpsertOne(inc, pollId, at, _) => UpsertHere(db, inc, pollId, at);
    case MarkAbsent(source, at, ids) => MarkHere(db, source, at, ids);
    case Sweep(source, n) => SweepHere(db, source, n);
    case RecordSwept(source, pollId) => RecordHere(db, swept, pollId, source);
    case EndPoll(source, pollId, success, error) =>
      OutcomesOfSource(db.polls, pollId, success, error, source);
      FinishIsOutcomes(db, pollId, success, error);
      FinishIsOutcomes(RowsOfSource(db, source), pollId, success, error);
    case Promote(p) => PromoteHere(db, p);
    case ClearStale(source, now, window) => ClearStaleHere(db, source, now, window);
  }

  lemma WriteElsewhere(db: Db, swept: map<Key, Time>, s: Statement, owner: int -> string, source: string)
    requires forall k | k in swept :: k.source == s.Source()
    requires s.Source() != source && PollsOwned(db.polls, owner) && Owned(s, owner)
    ensures RowsOfSource(Write(db, swept, s), source) == RowsOfSource(db, source)
  {
    match s
    case StartPoll(r, pollId, error) => PollsSnoc(db.polls, NewPoll(r, pollId, false, error), source);
    case UpsertOne(inc, pollId, at, _) => UpsertElsewhere(db, inc, pollId, at, source);
    case MarkAbsent(other, at, ids) => MarkElsewhere(db, other, at, ids, source);
    case Sweep(other, n) => SweepElsewhere(db, other, n, source);
    case RecordSwept(other, pollId) => RecordElsewhere(db, swept, pollId, other, source);
    case EndPoll(other, pollId, success, error) =>
      ForeignOutcome(db.polls, pollId, success, error, source, owner);
      FinishIsOutcomes(db, pollId, success, error);
    case Promote(p) => PromoteElsewhere(db, p, source);
    case ClearStale(other, now, window) => ClearStaleElsewhere(db, other, now, window, source);
  }

  lemma NumberSplits(rowIds: map<Key, int>, s: Statement, source: string)
    ensures Part(Number(rowIds, s), source)
         == if s.Source() == source then Number(Part(rowIds, source), s) else Part(rowIds, source)
  {
  }

  lemma ReturnSplits(t: Shared, s: Statement, source: string)
    ensures Part(Return(t.db, t.swept, s), source)
         == if s.Source() == source then Return(RowsOfSource(t.db, source), Part(t.swept, source), s)
            else Part(t.swept, source)
  {
    if s.Sweep? {
      if s.source == source {
        SweptHere(t, source, s.minMisses);
      } else {
        SweptElsewhere(t, s.source, s.minMisses, source);
      }
    }
  }

  lemma PartTwice(swept: map<Key, Time>, source: string)
    ensures Part(Part(swept, source), source) == Part(swept, source)
  {
  }

  /** ...so a statement does on its source's rows alone what it does on the
      shared tables, and what it reads there is the same. */
  lemma StatementHere(t: Shared, s: Statement)
    ensures Project(Exec(t, s), s.Source()) == Exec(Project(t, s.Source()), s)
  {
    var source := s.Source();
    PartTwice(t.swept, source);
    WriteHere(t.db, Part(t.swept, source), s);
    NumberSplits(t.rowIds, s, source);
    ReturnSplits(t, s, source);
  }

  lemma StatementElsewhere(t: Shared, s: Statement, owner: int -> string, source: string)
    requires s.Source() != source && PollsOwned(t.db.polls, owner) && Owned(s, owner)
    ensures Project(Exec(t, s), source) == Project(t, source)
  {
    WriteElsewhere(t.db, Part(t.swept, s.Source()), s, owner, source);
    NumberSplits(t.rowIds, s, source);
    ReturnSplits(t, s, source);
  }

  lemma OnlySnoc(ss: seq<Statement>, s: Statement, source: string)
    ensures Only(ss + [s], source) == if s.Source() == source then Only(ss, source) + [s] else Only(ss, source)
  {
    assert (ss + [s])[..|ss|] == ss;
  }

  lemma {:induction false} AllPollsOwned(ss: seq<Statement>, owner: int -> string)
    requires forall s | s in ss :: Owned(s, owner)
    ensures PollsOwned(ExecAll(ss).db.polls, owner)
  {
    if ss != [] {
      AllPollsOwned(ss[..|ss| - 1], owner);
      ExecFromSnoc(Start, ss[..|ss| - 1], ss[|ss| - 1]);
      assert ss == ss[..|ss| - 1] + [ss[|ss| - 1]];
      ExecKeepsPollsOwned(ExecAll(ss[..|ss| - 1]), ss[|ss| - 1], owner);
    }
  }

  lemma StatementSplits(t: Shared, s: Statement, owner: int -> string, source: string, alone: Shared)
    requires PollsOwned(t.db.polls, owner) && Owned(s, owner) && Project(t, source) == alone
    ensures Project(Exec(t, s), source) == if s.Source() == source then Exec(alone, s) else alone
  {
    if s.Source() == source {
      StatementHere(t, s);
    } else {
      StatementElsewhere(t, s, owner, source);
    }
  }

  /** In every interleaving, a source's rows are what its own statements, in
      their order, would have produced on an empty database. */
  lemma {:induction false} SourcesDoNotInterfere(ss: seq<Statement>, owner: int -> string, source: string)
    requires forall s | s in ss :: Owned(s, owner)
    ensures Project(ExecAll(ss), source) == ExecAll(Only(ss, source))
  {
    if ss == [] {
      assert Project(Start, source) == Start;
    } else {
      var n := |ss| - 1;
      SourcesDoNotInterfere(ss[..n], owner, source);
      AllPollsOwned(ss[..n], owner);
      StatementSplits(ExecAll(ss[..n]), ss[n], owner, source, ExecAll(Only(ss[..n], source)));
      assert ss == ss[..n] + [ss[n]];
      ExecFromSnoc(Start, ss[..n], ss[n]);
      OnlySnoc(ss[..n], ss[n], source);
      if ss[n].Source() == source {
        ExecFromSnoc(Start, Only(ss[..n], source), ss[n]);
      }
    }
  }
}
