/** The four shared tables and the SQL statements of the store, each one atomic.
    Rows that are only ever read by key are kept grouped by that key; the
    class in Stores.dfy keeps them as flat tables and is proved to agree. */
module Tables {
  import opened Types
  import opened Deltas

  datatype IncidentRow = IncidentRow(fields: Fields, units: seq<Unit>, incidentDate: Time,
                                     receivedAt: Time, lastSeenAt: Time, lastSeenPollId: int,
                                     missingSince: Option<Time>, clearedAt: Option<Time>,
                                     reopenCount: nat)

  datatype UnitKey = UnitKey(key: Key, unit: string)

  /** One incident_units row: a unit seen in one status from first to last. */
  datatype Interval = Interval(status: string, firstAt: Time, lastAt: Time, firstPoll: int, lastPoll: int)

  datatype EventKind = Created | Updated | Cleared | Reopened

  datatype EventDelta<+D> = NoDelta | Diff(delta: D) | ClearedDelta(clearedAt: Time)

  datatype Event<+D> = Event(kind: EventKind, at: Time, pollId: int, delta: EventDelta<D>)

  type BagEvent = Event<DeltaBag>

  datatype PollRow = PollRow(pollId: int, source: string, startedAt: Time, featureCount: nat,
                             success: bool, error: Option<string>, classification: Classification,
                             reason: string, unchangedSince: Option<Time>)

  const PENDING := "poll apply pending"

  datatype Db = Db(incidents: map<Key, IncidentRow>, units: map<UnitKey, seq<Interval>>,
                   events: map<Key, seq<BagEvent>>, polls: seq<PollRow>)
  {
    ghost function History(uk: UnitKey): seq<Interval> {
      if uk in units then units[uk] else []
    }

    ghost function Log(key: Key): seq<BagEvent> {
      if key in events then events[key] else []
    }

    ghost function PriorOf(key: Key): Option<Prior> {
      if key in incidents
      then Some(Prior(incidents[key].fields, incidents[key].units, incidents[key].clearedAt))
      else None
    }
  }

  const EmptyDb := Db(map[], map[], map[], [])

  // ---------------------------------------------------------------- source_polls

  function NullIfEmpty(s: string): Option<string> {
    if s == "" then None else Some(s)
  }

  function NewPoll(r: PollResult, pollId: int, success: bool, error: Option<string>): PollRow {
    PollRow(pollId, r.source, r.startedAt, |r.incidents|, success, error,
            r.classification, r.reason, r.unchangedSince)
  }

  ghost function InsertPoll(db: Db, r: PollResult, pollId: int, success: bool, error: Option<string>): Db {
    db.(polls := db.polls + [NewPoll(r, pollId, success, error)])
  }

  function SetOutcome(p: PollRow, pollId: int, success: bool, error: Option<string>): PollRow {
    if p.pollId == pollId then p.(success := success, error := error) else p
  }

  /** UPDATE source_polls SET success, error WHERE poll_id. */
  ghost function FinishPoll(db: Db, pollId: int, success: bool, error: Option<string>): Db {
    db.(polls := seq(|db.polls|, i requires 0 <= i < |db.polls| =>
                       SetOutcome(db.polls[i], pollId, success, error)))
  }

  /** How many polls of the source succeeded at or after an instant. */
  function SuccessesSince(polls: seq<PollRow>, source: string, since: Time): nat {
    if polls == [] then 0
    else
      var p := polls[|polls| - 1];
      SuccessesSince(polls[..|polls| - 1], source, since)
      + if p.source == source && p.success && p.startedAt >= since then 1 else 0
  }

  // ---------------------------------------------------------------- incident_units

  /** ORDER BY last_observed_at DESC, id DESC LIMIT 1 */
  function Latest(h: seq<Interval>): (i: Option<nat>)
    ensures i.Some? <==> h != []
    ensures i.Some? ==> i.value < |h| && forall j | 0 <= j < |h| ::
      h[j].lastAt < h[i.value].lastAt || (h[j].lastAt == h[i.value].lastAt && j <= i.value)
  {
    if h == [] then None
    else
      var n := |h| - 1;
      var best := Latest(h[..n]);
      assert forall j | 0 <= j < n :: h[..n][j] == h[j];
      if best.Some? && h[best.value].lastAt > h[n].lastAt then best else Some(n)
  }

  function NewInterval(status: string, pollId: int, at: Time): Interval {
    Interval(status, at, at, pollId, pollId)
  }

  /** One observed unit: extend its latest interval or open a new one. */
  function SyncUnit(h: seq<Interval>, wasPresent: bool, status: string, pollId: int, at: Time): seq<Interval> {
    var latest := Latest(h);
    if latest.Some? && wasPresent && h[latest.value].status == status
    then h[latest.value := h[latest.value].(lastAt := at, lastPoll := pollId)]
    else h + [NewInterval(status, pollId, at)]
  }

  ghost function SyncUnits(db: Db, prior: map<string, Unit>, key: Key, units: seq<Unit>, pollId: int, at: Time): Db {
    if units == [] then db
    else
      var unit := units[|units| - 1];
      var rest := SyncUnits(db, prior, key, units[..|units| - 1], pollId, at);
      if unit.name == "" then rest
      else
        var uk := UnitKey(key, unit.name);
        rest.(units := rest.units[uk := SyncUnit(rest.History(uk), unit.name in prior, unit.status, pollId, at)])
  }

  // ---------------------------------------------------------------- upsert

  ghost function PriorUnits(prior: Option<Prior>): map<string, Unit> {
    match prior case None => map[] case Some(p) => ByName(p.units)
  }

  function Snapshot(prior: Option<IncidentRow>, inc: Incident, pollId: int, at: Time): IncidentRow {
    match prior
    case None =>
      IncidentRow(inc.fields, inc.units, inc.incidentDate, at, at, pollId, None, None, 0)
    case Some(row) =>
      IncidentRow(inc.fields, inc.units, inc.incidentDate, row.receivedAt, at, pollId, None, None,
                  row.reopenCount + if row.clearedAt.Some? then 1 else 0)
  }

  /** An empty delta is stored as NULL. */
  ghost function Encode(bag: DeltaBag): EventDelta<DeltaBag> {
    if bag.Empty() then NoDelta else Diff(bag)
  }

  ghost function UpsertEvents(prior: Option<Prior>, inc: Incident, pollId: int, at: Time): seq<BagEvent> {
    var bag := IncidentBag(prior, inc);
    if prior.None? then [Event(Created, at, pollId, Encode(bag))]
    else if prior.value.clearedAt.Some? then [Event(Reopened, at, pollId, Encode(bag))]
    else if !bag.Empty() then [Event(Updated, at, pollId, Encode(bag))]
    else []
  }

  /** The whole upsert transaction. */
  ghost function Upsert(db: Db, inc: Incident, pollId: int, at: Time): Db {
    var prior := db.PriorOf(inc.key);
    var row := if inc.key in db.incidents then Some(db.incidents[inc.key]) else None;
    var synced := SyncUnits(db, PriorUnits(prior), inc.key, inc.units, pollId, at);
    Db(db.incidents[inc.key := Snapshot(row, inc, pollId, at)],
       synced.units,
       db.events[inc.key := db.Log(inc.key) + UpsertEvents(prior, inc, pollId, at)],
       db.polls)
  }

  // ---------------------------------------------------------------- clearing

  ghost predicate Goes(key: Key, row: IncidentRow, source: string, ids: set<string>) {
    key.source == source && row.clearedAt.None? && key.id !in ids
  }

  ghost function MarkMissing(db: Db, source: string, at: Time, ids: set<string>): Db {
    db.(incidents := map k | k in db.incidents ::
      var row := db.incidents[k];
      if Goes(k, row, source, ids) && row.missingSince.None? then row.(missingSince := Some(at)) else row)
  }

  /** The rows SweepCleared updates, with the cleared_at it returns for them. */
  ghost function Sweepable(db: Db, source: string, minMisses: nat): map<Key, Time> {
    map k | && k in db.incidents && k.source == source
            && db.incidents[k].clearedAt.None? && db.incidents[k].missingSince.Some?
            && SuccessesSince(db.polls, source, db.incidents[k].missingSince.value) >= minMisses
      :: db.incidents[k].missingSince.value
  }

  ghost function SweepCleared(db: Db, source: string, minMisses: nat): Db {
    var cleared := Sweepable(db, source, minMisses);
    db.(incidents := map k | k in db.incidents ::
      if k in cleared then db.incidents[k].(clearedAt := Some(cleared[k])) else db.incidents[k])
  }

  function ClearedEvent(at: Time, pollId: int): BagEvent {
    Event(Cleared, at, pollId, ClearedDelta(at))
  }

  ghost function RecordClearedEvents(db: Db, cleared: map<Key, Time>, pollId: int): Db {
    db.(events := db.events + map k | k in cleared :: db.Log(k) + [ClearedEvent(cleared[k], pollId)])
  }
}
