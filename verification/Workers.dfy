/** The dispatch worker as it runs: it locks a row, decides, updates the tables
    inside one transaction, and counts what it did. */
module Workers {
  import opened Types
  import opened Tables
  import opened SharedTables
  import opened Dispatch
  import opened ExactlyOnce
  import opened Draining
  import opened Settling
  import G = GeocodeCache

  datatype ProcessOutcome = NoRows | GateFail | StaleCapture | GeocodeFailed | GeocodeRetry | Inserted

  /** One call of processNext and what it meets: the clock, the geocoder's
      answer, the ids the sequences serve, and whether the database reports an
      error, perhaps after the commit took effect. */
  datatype Call = Call(now: Time, geo: G.Outcome, pollId: int, rowId: int, fails: bool, landed: bool)

  datatype BatchStats = BatchStats(batchSize: nat, gatePass: nat, gateFail: nat, stale: nat,
                                   geocodePass: nat, geocodeFail: nat, inserted: nat)

  function OutcomeOf(v: Verdict): ProcessOutcome {
    match v
    case Stale => StaleCapture
    case GateFailed => GateFail
    case NoPlace => GeocodeFailed
    case GaveUp => GeocodeFailed
    case Retry => GeocodeRetry
    case Promoted(_) => Inserted
  }

  /** How a transaction ends, on the row's facts: counted as stale or as a gate
      failure, as a geocode failure with or without another attempt, or inserted. */
  ghost predicate EndsAs(cfg: Config, row: Transcript, now: Time, geo: G.Outcome, outcome: ProcessOutcome) {
    && (outcome == StaleCapture <==> now > row.capturedAt + cfg.maxAge)
    && (outcome == GateFail <==> now <= row.capturedAt + cfg.maxAge && cfg.parse(row.text).None?)
    && (outcome == Inserted <==> Passes(cfg, row, now) && geo.Success?)
    && (outcome == GeocodeRetry <==> Passes(cfg, row, now) && Unsure(geo) && row.attempts + 1 < cfg.maxAttempts)
    && (outcome == GeocodeFailed <==>
          && Passes(cfg, row, now)
          && (geo.PermanentFailure? || (Unsure(geo) && row.attempts + 1 >= cfg.maxAttempts)))
  }

  lemma JudgedEndsAs(cfg: Config, row: Transcript, now: Time, geo: G.Outcome)
    ensures EndsAs(cfg, row, now, geo, OutcomeOf(Judge(cfg, row, now, geo)))
  {
  }

  const NoStats := BatchStats(0, 0, 0, 0, 0, 0, 0)

  function Count(outcomes: seq<ProcessOutcome>, o: ProcessOutcome): nat {
    if outcomes == [] then 0
    else Count(outcomes[..|outcomes| - 1], o) + if outcomes[|outcomes| - 1] == o then 1 else 0
  }

  /** The counters are the numbers of transactions that ended each way. */
  ghost predicate Counts(stats: BatchStats, outcomes: seq<ProcessOutcome>) {
    && stats.batchSize == |outcomes|
    && stats.gateFail == Count(outcomes, GateFail) + Count(outcomes, StaleCapture)
    && stats.stale == Count(outcomes, StaleCapture)
    && stats.gatePass == Count(outcomes, GeocodeFailed) + Count(outcomes, GeocodeRetry) + Count(outcomes, Inserted)
    && stats.geocodeFail == Count(outcomes, GeocodeFailed) + Count(outcomes, GeocodeRetry)
    && stats.geocodePass == Count(outcomes, Inserted) && stats.inserted == Count(outcomes, Inserted)
  }

  /** Counters that count add up. */
  lemma {:induction false} CountersAddUp(stats: BatchStats, outcomes: seq<ProcessOutcome>)
    requires Counts(stats, outcomes) && NoRows !in outcomes
    ensures stats.batchSize == stats.gatePass + stats.gateFail
    ensures stats.gatePass == stats.geocodePass + stats.geocodeFail
    ensures stats.stale <= stats.gateFail && stats.inserted == stats.geocodePass
  {
    CountsCover(outcomes);
  }

  lemma {:induction false} CountsCover(outcomes: seq<ProcessOutcome>)
    requires NoRows !in outcomes
    ensures |outcomes| == Count(outcomes, GateFail) + Count(outcomes, StaleCapture) + Count(outcomes, GeocodeFailed)
                          + Count(outcomes, GeocodeRetry) + Count(outcomes, Inserted)
  {
    if outcomes != [] {
      CountsCover(outcomes[..|outcomes| - 1]);
    }
  }

  lemma CountSnoc(outcomes: seq<ProcessOutcome>, last: ProcessOutcome, o: ProcessOutcome)
    ensures Count(outcomes + [last], o) == Count(outcomes, o) + if last == o then 1 else 0
  {
    assert (outcomes + [last])[..|outcomes|] == outcomes;
  }

  /** The counters after one more transaction. */
  function Counted(stats: BatchStats, outcome: ProcessOutcome): BatchStats {
    var s := stats.(batchSize := stats.batchSize + 1);
    match outcome
    case GateFail => s.(gateFail := s.gateFail + 1)
    case StaleCapture => s.(gateFail := s.gateFail + 1, stale := s.stale + 1)
    case GeocodeFailed => s.(gatePass := s.gatePass + 1, geocodeFail := s.geocodeFail + 1)
    case GeocodeRetry => s.(gatePass := s.gatePass + 1, geocodeFail := s.geocodeFail + 1)
    case Inserted =>
      s.(gatePass := s.gatePass + 1, geocodePass := s.geocodePass + 1, inserted := s.inserted + 1)
    case NoRows => s
  }

  lemma CountedSnoc(stats: BatchStats, outcomes: seq<ProcessOutcome>, outcome: ProcessOutcome)
    requires Counts(stats, outcomes) && outcome != NoRows
    ensures Counts(Counted(stats, outcome), outcomes + [outcome])
  {
    CountSnoc(outcomes, outcome, GateFail);
    CountSnoc(outcomes, outcome, StaleCapture);
    CountSnoc(outcomes, outcome, GeocodeFailed);
    CountSnoc(outcomes, outcome, GeocodeRetry);
    CountSnoc(outcomes, outcome, Inserted);
  }

  /** The transactions that ended this way are the ones committed since. */
  ghost predicate Logged(before: seq<Entry>, after: seq<Entry>, outcomes: seq<ProcessOutcome>) {
    && |before| + |outcomes| == |after| && before <= after
    && forall j | 0 <= j < |outcomes| :: OutcomeOf(after[|before| + j].verdict) == outcomes[j]
  }

  /** id is the primary key. */
  ghost predicate IdsDistinct(ts: seq<Transcript>) {
    forall i, j | 0 <= i < j < |ts| :: ts[i].id != ts[j].id
  }

  class Worker {
    const cfg: Config
    const me: nat
    var transcripts: seq<Transcript>
    var holds: map<nat, Claim>
    var db: Db
    var rowIds: map<Key, int>
    ghost var log: seq<Entry>

    /** The rows the others hold are locked, and every waiting row has attempts left. */
    ghost predicate Sound(w: World) {
      && cfg.maxAttempts > 0 && me !in w.holds
      && HoldsExclusive(w.transcripts, w.holds) && IdsDistinct(w.transcripts)
      && forall i | 0 <= i < |w.transcripts| && w.transcripts[i].parsedAt.None? ::
           w.transcripts[i].attempts < cfg.maxAttempts
    }

    /** The database as this worker sees it between two transactions. */
    ghost predicate Valid()
      reads this
    {
      Sound(AsWorld())
    }

    ghost function AsWorld(): World
      reads this
    {
      World(Shared(db, rowIds, map[]), transcripts, 0, holds, [], map[], log)
    }

    constructor (cfg: Config, me: nat)
      requires cfg.maxAttempts > 0
      ensures Valid() && this.cfg == cfg && this.me == me && transcripts == [] && holds == map[]
    {
      this.cfg := cfg;
      this.me := me;
      transcripts, holds, db, rowIds, log := [], map[], EmptyDb, map[], [];
    }

    /** A waiting row nobody holds; none of these has fewer attempts, and none
        with as many arrived earlier. */
    method LockNextTranscript() returns (r: Option<nat>)
      ensures r.None? <==> forall i: nat :: !Free(transcripts, holds, i)
      ensures r.Some? ==> Next(transcripts, holds, r.value)
      ensures r.Some? ==>
        && r.value < |transcripts| && transcripts[r.value].parsedAt.None?
        && forall w | w in holds :: holds[w].index != r.value
      ensures r.Some? ==> forall j: nat | Free(transcripts, holds, j) ::
        && transcripts[r.value].attempts <= transcripts[j].attempts
        && (transcripts[r.value].attempts == transcripts[j].attempts ==>
              transcripts[r.value].receivedAt <= transcripts[j].receivedAt)
    {
      r := None;
      for i := 0 to |transcripts|
        invariant r.None? <==> forall j: nat | j < i :: !Free(transcripts, holds, j)
        invariant r.Some? ==> r.value < i && Free(transcripts, holds, r.value)
        invariant r.Some? ==>
          forall j: nat | j < i && Free(transcripts, holds, j) :: Before(transcripts[r.value], transcripts[j])
      {
        if Free(transcripts, holds, i) && (r.None? || !Before(transcripts[r.value], transcripts[i])) {
          r := Some(i);
        }
      }
    }

    predicate StaleAt(capturedAt: Time, now: Time) {
      now - capturedAt > cfg.maxAge
    }

    /** Settles the row with that id and no other: it leaves the queue, and every
        other row waits or is held as before. */
    method MarkTranscriptParsed(transcriptId: nat, now: Time, incident: Option<int>)
      modifies this`transcripts
      ensures |transcripts| == |old(transcripts)|
      ensures forall j | 0 <= j < |transcripts| ::
        if old(transcripts)[j].id == transcriptId
        then transcripts[j] == old(transcripts)[j].(parsedAt := Some(now), parsedIncident := incident)
        else transcripts[j] == old(transcripts)[j]
      ensures forall j: nat :: Free(transcripts, holds, j) <==>
        Free(old(transcripts), holds, j) && old(transcripts)[j].id != transcriptId
    {
      for j := 0 to |transcripts|
        invariant |transcripts| == |old(transcripts)|
        invariant forall x | j <= x < |transcripts| :: transcripts[x] == old(transcripts)[x]
        invariant forall x | 0 <= x < j ::
          if old(transcripts)[x].id == transcriptId
          then transcripts[x] == old(transcripts)[x].(parsedAt := Some(now), parsedIncident := incident)
          else transcripts[x] == old(transcripts)[x]
      {
        if transcripts[j].id == transcriptId {
          transcripts := transcripts[j := transcripts[j].(parsedAt := Some(now), parsedIncident := incident)];
        }
      }
    }

    /** Counts an attempt on the row with that id and no other; the row keeps
        waiting, behind every waiting row with fewer attempts. */
    method RecordTranscriptGeocodeAttempt(transcriptId: nat, attempts: nat)
      modifies this`transcripts
      ensures |transcripts| == |old(transcripts)|
      ensures forall j | 0 <= j < |transcripts| ::
        if old(transcripts)[j].id == transcriptId
        then transcripts[j] == old(transcripts)[j].(attempts := attempts)
        else transcripts[j] == old(transcripts)[j]
      ensures forall j: nat :: Free(transcripts, holds, j) <==> Free(old(transcripts), holds, j)
      ensures forall i: nat, j: nat | Next(transcripts, holds, i) && Free(transcripts, holds, j) ::
        transcripts[i].id == transcriptId ==> transcripts[j].attempts >= attempts
    {
      for j := 0 to |transcripts|
        invariant |transcripts| == |old(transcripts)|
        invariant forall x | j <= x < |transcripts| :: transcripts[x] == old(transcripts)[x]
        invariant forall x | 0 <= x < j ::
          if old(transcripts)[x].id == transcriptId
          then transcripts[x] == old(transcripts)[x].(attempts := attempts)
          else transcripts[x] == old(transcripts)[x]
      {
        if transcripts[j].id == transcriptId {
          transcripts := transcripts[j := transcripts[j].(attempts := attempts)];
        }
      }
    }

    /** Gives the row with that id up, with its attempts and without an incident:
        it leaves the queue, and every other row waits or is held as before. */
    method MarkTranscriptParsedAfterGeocodeAttempts(transcriptId: nat, now: Time, attempts: nat)
      modifies this`transcripts
      ensures |transcripts| == |old(transcripts)|
      ensures forall j | 0 <= j < |transcripts| ::
        if old(transcripts)[j].id == transcriptId
        then transcripts[j] == old(transcripts)[j].(parsedAt := Some(now), parsedIncident := None, attempts := attempts)
        else transcripts[j] == old(transcripts)[j]
      ensures forall j: nat :: Free(transcripts, holds, j) <==>
        Free(old(transcripts), holds, j) && old(transcripts)[j].id != transcriptId
    {
      for j := 0 to |transcripts|
        invariant |transcripts| == |old(transcripts)|
        invariant forall x | j <= x < |transcripts| :: transcripts[x] == old(transcripts)[x]
        invariant forall x | 0 <= x < j ::
          if old(transcripts)[x].id == transcriptId
          then transcripts[x]
            == old(transcripts)[x].(parsedAt := Some(now), parsedIncident := None, attempts := attempts)
          else transcripts[x] == old(transcripts)[x]
      {
        if transcripts[j].id == transcriptId {
          transcripts := transcripts[j := transcripts[j].(parsedAt := Some(now), parsedIncident := None,
                                                          attempts := attempts)];
        }
      }
    }

    method InsertIncident(p: Promotion) returns (id: int)
      modifies this`db, this`rowIds
      ensures db == PromoteRow(old(db), p) && rowIds == WithRowId(old(rowIds), p.key, p.rowId)
      ensures id == ReturnedId(old(rowIds), p.key, p.rowId)
    {
      ghost var before := db;
      var prior := if p.key in db.incidents then Some(db.incidents[p.key]) else None;
      if p.key !in rowIds {
        rowIds := rowIds[p.key := p.rowId];
      }
      id := rowIds[p.key];
      for j := 0 to |p.units|
        invariant db == AddUnits(before, p.key, p.units[..j], p.pollId, p.now)
        invariant rowIds == WithRowId(old(rowIds), p.key, p.rowId)
      {
        var uk := UnitKey(p.key, p.units[j].name);
        var rows := if uk in db.units then db.units[uk] else [];
        assert p.units[..j + 1][..j] == p.units[..j];
        db := db.(units := db.units[uk := rows + [NewInterval(p.units[j].status, p.pollId, p.now)]]);
      }
      assert p.units[..|p.units|] == p.units;
      AddUnitsFrame(before, p.key, p.units, p.pollId, p.now);
      db := db.(incidents := db.incidents[p.key := PromotedRow(prior, p)], polls := db.polls + [ParserPoll(p)]);
    }

    /** The tables after the worker's update of row i. */
    ghost function Written(t: Shared, row: Transcript, call: Call): Shared {
      match Judge(cfg, row, call.now, call.geo)
      case Promoted(parsed) => Exec(t, Promote(PromotionOf(row, parsed, call.now, call.pollId, call.rowId)))
      case _ => t
    }

    ghost function Settled(w: World, i: nat, call: Call): World
      requires i < |w.transcripts|
    {
      var row := w.transcripts[i];
      var v := Judge(cfg, row, call.now, call.geo);
      var incident := ReturnedId(w.tables.rowIds, SdrKey(row.id), call.rowId);
      w.(tables := Written(w.tables, row, call),
         transcripts := w.transcripts[i := Marked(row, v, call.now, incident)],
         log := w.log + [Entry(i, v)])
    }

    /** Settling a row is one Take and one Commit of the protocol. */
    lemma SettledIsTakeAndCommit(w: World, i: nat, call: Call)
      requires me !in w.holds && Next(w.transcripts, w.holds, i)
      ensures Settled(w, i, call)
           == After(cfg, After(cfg, w, Take(me, i)), Commit(me, call.now, call.geo, call.pollId, call.rowId))
    {
      var held := After(cfg, w, Take(me, i));
      assert held == w.(holds := w.holds[me := Claim(i, w.transcripts[i])]);
      assert held.holds - {me} == w.holds;
    }

    lemma SettledStaysValid(w: World, i: nat, call: Call)
      requires cfg.maxAttempts > 0 && Next(w.transcripts, w.holds, i) && HoldsExclusive(w.transcripts, w.holds)
      requires w.transcripts[i].attempts < cfg.maxAttempts
      requires IdsDistinct(w.transcripts)
      ensures IdsDistinct(Settled(w, i, call).transcripts)
      ensures HoldsExclusive(Settled(w, i, call).transcripts, w.holds)
      ensures Settled(w, i, call).transcripts[i].parsedAt.None? ==>
        Settled(w, i, call).transcripts[i].attempts < cfg.maxAttempts
      ensures Backlog(Settled(w, i, call).transcripts, cfg.maxAttempts) < Backlog(w.transcripts, cfg.maxAttempts)
    {
      var row := w.transcripts[i];
      var incident := ReturnedId(w.tables.rowIds, SdrKey(row.id), call.rowId);
      JudgedLess(cfg, row, call.now, call.geo, incident);
      BacklogUpdate(w.transcripts, i, Settled(w, i, call).transcripts[i], cfg.maxAttempts);
      assert forall k | k in w.holds :: w.holds[k].index != i;
    }

    /** The body of the transaction, from the claimed row to the commit. */
    method Decide(i: nat, call: Call) returns (outcome: ProcessOutcome)
      requires i < |transcripts| && transcripts[i].parsedAt.None? && IdsDistinct(transcripts)
      modifies this`transcripts, this`db, this`rowIds, this`log
      ensures AsWorld() == Settled(old(AsWorld()), i, call)
      ensures outcome == OutcomeOf(Judge(cfg, old(transcripts)[i], call.now, call.geo))
    {
      var row := transcripts[i];
      log := log + [Entry(i, Judge(cfg, row, call.now, call.geo))];
      if StaleAt(row.capturedAt, call.now) {
        MarkTranscriptParsed(row.id, call.now, None);
        return StaleCapture;
      }
      var parsed := cfg.parse(row.text);
      if parsed.None? {
        MarkTranscriptParsed(row.id, call.now, None);
        return GateFail;
      }
      if !call.geo.Success? {
        if !call.geo.PermanentFailure? {
          var attempts := row.attempts + 1;
          if attempts >= cfg.maxAttempts {
            MarkTranscriptParsedAfterGeocodeAttempts(row.id, call.now, attempts);
            return GeocodeFailed;
          }
          RecordTranscriptGeocodeAttempt(row.id, attempts);
          return GeocodeRetry;
        }
        MarkTranscriptParsed(row.id, call.now, None);
        return GeocodeFailed;
      }
      var placed := Placed(parsed.value, call.geo.place);
      var id := InsertIncident(PromotionOf(row, placed, call.now, call.pollId, call.rowId));
      MarkTranscriptParsed(row.id, call.now, Some(id));
      return Inserted;
    }

    ghost predicate NothingWaits(w: World) {
      forall i: nat :: !Free(w.transcripts, w.holds, i)
    }

    /** The transaction settled the next row. */
    ghost predicate Took(before: World, after: World, i: nat, call: Call, id: nat) {
      Next(before.transcripts, before.holds, i) && id == before.transcripts[i].id && after == Settled(before, i, call)
    }

    /** What one transaction does and reports; i is the row it takes, if any. */
    ghost predicate Transacted(before: World, after: World, call: Call, outcome: ProcessOutcome, id: nat, ok: bool,
                               i: nat)
    {
      && (ok <==> !call.fails)
      && if NothingWaits(before) || (!ok && !call.landed) then after == before && outcome == NoRows
         else
           && Took(before, after, i, call, id)
           && outcome == if ok then OutcomeOf(Judge(cfg, before.transcripts[i], call.now, call.geo)) else NoRows
    }

    /** The transaction on row i, committed. */
    lemma SettledIsTransacted(w: World, i: nat, call: Call)
      requires me !in w.holds && Next(w.transcripts, w.holds, i) && (!call.fails || call.landed)
      ensures Transacted(w, Settled(w, i, call), call,
                         if call.fails then NoRows else OutcomeOf(Judge(cfg, w.transcripts[i], call.now, call.geo)),
                         w.transcripts[i].id, !call.fails, i)
    {
      assert Took(w, Settled(w, i, call), i, call, w.transcripts[i].id);
      assert Free(w.transcripts, w.holds, i);
    }

    /** So a transaction that reports no error takes the next row, if one waits,
        leaves it as the facts have it, and reports that. */
    lemma TransactedAs(before: World, after: World, call: Call, outcome: ProcessOutcome, id: nat, i: nat)
      requires Transacted(before, after, call, outcome, id, true, i) && !NothingWaits(before)
      requires forall j | 0 <= j < |before.transcripts| && before.transcripts[j].parsedAt.None? ::
        before.transcripts[j].parsedIncident.None?
      ensures Next(before.transcripts, before.holds, i) && |after.transcripts| == |before.transcripts|
      ensures EndsAs(cfg, before.transcripts[i], call.now, call.geo, outcome)
      ensures SettledAs(cfg, before.transcripts[i], call.now, call.geo, after.transcripts[i])
    {
      var row := before.transcripts[i];
      JudgedEndsAs(cfg, row, call.now, call.geo);
      MarkedAs(cfg, row, call.now, call.geo, ReturnedId(before.tables.rowIds, SdrKey(row.id), call.rowId));
    }

    lemma NothingTransacted(w: World, call: Call, id: nat, i: nat)
      requires NothingWaits(w) || (call.fails && !call.landed)
      ensures Transacted(w, w, call, NoRows, id, !call.fails, i)
    {
    }

    /** One transaction: nothing waits, or the next row is settled; an error
        either rolls everything back or comes after the commit. */
    method ProcessNext(call: Call) returns (outcome: ProcessOutcome, id: nat, ok: bool, ghost i: nat)
      requires Valid()
      modifies this`transcripts, this`db, this`rowIds, this`log
      ensures Valid() && holds == old(holds)
      ensures Transacted(old(AsWorld()), AsWorld(), call, outcome, id, ok, i)
      ensures !ok ==> call.fails && outcome == NoRows
      ensures ok && outcome == NoRows ==> NothingWaits(AsWorld())
      ensures ok ==> Logged(old(log), log, if outcome == NoRows then [] else [outcome])
      ensures var left := Backlog(transcripts, cfg.maxAttempts);
              left + (if outcome == NoRows then 0 else 1) <= Backlog(old(transcripts), cfg.maxAttempts)
    {
      ok := !call.fails;
      ghost var w := AsWorld();
      var r := LockNextTranscript();
      i := if r.Some? then r.value else 0;
      if r.None? {
        NothingTransacted(w, call, 0, i);
        return NoRows, 0, ok, i;
      }
      id := transcripts[r.value].id;
      if call.fails && !call.landed {
        NothingTransacted(w, call, id, i);
        outcome := NoRows;
        return;
      }
      SettledIsTransacted(w, i, call);
      SettledStaysValid(w, i, call);
      outcome := Decide(r.value, call);
      if call.fails {
        outcome := NoRows;
      }
    }

    /** What a batch has done so far: the counters say how its transactions
        ended, the log shows them, and each left fewer attempts open. */
    ghost predicate Batched(before: World, after: World, stats: BatchStats, outcomes: seq<ProcessOutcome>) {
      && Counts(stats, outcomes) && NoRows !in outcomes && Logged(before.log, after.log, outcomes)
      && Backlog(after.transcripts, cfg.maxAttempts) + stats.batchSize <= Backlog(before.transcripts, cfg.maxAttempts)
    }

    lemma BatchedOneMore(before: World, mid: World, after: World, stats: BatchStats, outcomes: seq<ProcessOutcome>,
                         outcome: ProcessOutcome)
      requires Batched(before, mid, stats, outcomes) && outcome != NoRows
      requires Logged(mid.log, after.log, [outcome])
      requires Backlog(after.transcripts, cfg.maxAttempts) + 1 <= Backlog(mid.transcripts, cfg.maxAttempts)
      ensures Batched(before, after, Counted(stats, outcome), outcomes + [outcome])
    {
      CountedSnoc(stats, outcomes, outcome);
    }

    lemma BatchedNoMore(before: World, mid: World, after: World, stats: BatchStats, outcomes: seq<ProcessOutcome>)
      requires Batched(before, mid, stats, outcomes) && Logged(mid.log, after.log, [])
      requires Backlog(after.transcripts, cfg.maxAttempts) <= Backlog(mid.transcripts, cfg.maxAttempts)
      ensures Batched(before, after, stats, outcomes)
    {
      assert after.log == mid.log;
    }

    /** One transaction as a batch sees it: how it ended, and what it committed. */
    method ProcessOne(call: Call) returns (outcome: ProcessOutcome, id: nat, ok: bool)
      requires Valid()
      modifies this`transcripts, this`db, this`rowIds, this`log
      ensures Valid() && holds == old(holds)
      ensures !ok ==> call.fails
      ensures ok && outcome == NoRows ==> NothingWaits(AsWorld())
      ensures ok ==> Logged(old(log), log, if outcome == NoRows then [] else [outcome])
      ensures var left := Backlog(transcripts, cfg.maxAttempts);
              left + (if outcome == NoRows then 0 else 1) <= Backlog(old(transcripts), cfg.maxAttempts)
    {
      ghost var taken;
      outcome, id, ok, taken := ProcessNext(call);
    }

    /** Settles rows until the limit, an empty queue, a retry or an error; a
        retry can only be the last transaction. What the batch did before an
        error stands, and `done` is the state it left. */
    method ProcessBatch(limit: int, calls: nat -> Call)
      returns (stats: BatchStats, ok: bool, ghost outcomes: seq<ProcessOutcome>, ghost done: World)
      requires Valid()
      modifies this`transcripts, this`db, this`rowIds, this`log
      ensures Valid() && holds == old(holds)
      ensures Batched(old(AsWorld()), done, stats, outcomes)
      ensures stats.batchSize <= if limit <= 0 then 50 else limit
      ensures forall j | 0 <= j < |outcomes| - 1 :: outcomes[j] != GeocodeRetry
      ensures ok ==> AsWorld() == done
      ensures ok && stats.batchSize < (if limit <= 0 then 50 else limit) ==>
        || NothingWaits(done)
        || (outcomes != [] && outcomes[|outcomes| - 1] == GeocodeRetry)
      ensures !ok ==> calls(stats.batchSize).fails
      ensures Backlog(transcripts, cfg.maxAttempts) <= Backlog(done.transcripts, cfg.maxAttempts)
    {
      var most := if limit <= 0 then 50 else limit;
      ghost var start := AsWorld();
      stats, outcomes, done := NoStats, [], start;
      while stats.batchSize < most
        invariant Valid() && holds == old(holds)
        invariant Batched(start, done, stats, outcomes) && done == AsWorld()
        invariant stats.batchSize <= most && GeocodeRetry !in outcomes
      {
        var outcome, id;
        outcome, id, ok := ProcessOne(calls(stats.batchSize));
        if !ok {
          return;
        }
        ghost var mid := done;
        done := AsWorld();
        if outcome == NoRows {
          BatchedNoMore(start, mid, done, stats, outcomes);
          break;
        }
        BatchedOneMore(start, mid, done, stats, outcomes, outcome);
        stats := Counted(stats, outcome);
        outcomes := outcomes + [outcome];
        if outcome == GeocodeRetry {
          break;
        }
      }
      ok := true;
    }
  }
}
