/** Promotion to incidents is one-to-one, and an SDR incident is cleared once
    and for all. */
module Promotions {
  import opened Types
  import opened Deltas
  import opened Tables
  import opened SharedTables
  import opened Dispatch
  import opened ExactlyOnce

  // ---------------------------------------------------------------- the invariant

  /** The incident of transcript i, as the gate read its text. */
  ghost predicate IsIncidentOf(cfg: Config, row: IncidentRow, t: Transcript) {
    && cfg.parse(t.text).Some?
    && SameTexts(row.fields, cfg.parse(t.text).value.fields) && row.units == cfg.parse(t.text).value.units
    && row.incidentDate == t.capturedAt
    && row.missingSince.None? && row.reopenCount == 0
  }

  ghost predicate HasTranscript(cfg: Config, w: World, k: Key) {
    exists i :: 0 <= i < |w.transcripts| && FromTranscript(cfg, w, k, i)
  }

  ghost predicate FromTranscript(cfg: Config, w: World, k: Key, i: nat)
    requires i < |w.transcripts|
  {
    && k in w.tables.db.incidents && k in w.tables.rowIds
    && k == SdrKey(w.transcripts[i].id)
    && w.transcripts[i].parsedIncident == Some(w.tables.rowIds[k])
    && IsIncidentOf(cfg, w.tables.db.incidents[k], w.transcripts[i])
  }

  ghost predicate SdrOk(cfg: Config, w: World) {
    && (forall k | k in w.tables.db.incidents && k.source == SDR :: HasTranscript(cfg, w, k))
    && (forall k | k in w.tables.rowIds :: k in w.tables.db.incidents)
    && (forall i | 0 <= i < |w.transcripts| && w.transcripts[i].parsedIncident.Some? ::
          FromTranscript(cfg, w, SdrKey(w.transcripts[i].id), i) && w.transcripts[i].parsedAt.Some?)
  }

  /** Statements of another source leave an incident and its id alone. */
  lemma IncidentElsewhere(t: Shared, s: Statement, k: Key)
    requires k.source != s.Source()
    ensures var r := Exec(t, s);
            && (k in r.db.incidents <==> k in t.db.incidents) && (k in r.rowIds <==> k in t.rowIds)
            && (k in t.db.incidents ==> r.db.incidents[k] == t.db.incidents[k])
            && (k in t.rowIds ==> r.rowIds[k] == t.rowIds[k])
  {
  }

  lemma IdsHaveIncidents(t: Shared, s: Statement)
    requires forall k | k in t.rowIds :: k in t.db.incidents
    ensures forall k | k in Exec(t, s).rowIds :: k in Exec(t, s).db.incidents
  {
  }

  /** A held row was never promoted, so its incident does not exist yet: the
      insert never meets a conflict. */
  lemma PromotionIsNew(cfg: Config, w: World, i: nat)
    requires TableOk(w) && SdrOk(cfg, w) && i < |w.transcripts| && w.transcripts[i].parsedAt.None?
    ensures SdrKey(w.transcripts[i].id) !in w.tables.db.incidents
    ensures SdrKey(w.transcripts[i].id) !in w.tables.rowIds
  {
    var k := SdrKey(w.transcripts[i].id);
    if k in w.tables.db.incidents {
      assert HasTranscript(cfg, w, k);
      var j :| 0 <= j < |w.transcripts| && FromTranscript(cfg, w, k, j);
      SdrKeyIsInjective(w.transcripts[i].id, w.transcripts[j].id);
    }
  }

  // ---------------------------------------------------------------- each kind of step

  /** Steps that touch neither SDR incidents nor settled rows. */
  lemma UntouchedStepKeeps(cfg: Config, w: World, v: World)
    requires SdrOk(cfg, w)
    requires |w.transcripts| <= |v.transcripts|
    requires forall i | 0 <= i < |v.transcripts| ::
      if i < |w.transcripts| && w.transcripts[i].parsedIncident.Some? then v.transcripts[i] == w.transcripts[i]
      else v.transcripts[i].parsedIncident.None?
    requires forall k | k in v.tables.rowIds :: k in v.tables.db.incidents
    requires forall k: Key | k.source == SDR :: SameIncident(w.tables, v.tables, k)
    ensures SdrOk(cfg, v)
  {
    forall i | 0 <= i < |v.transcripts| && v.transcripts[i].parsedIncident.Some?
      ensures FromTranscript(cfg, v, SdrKey(v.transcripts[i].id), i) && v.transcripts[i].parsedAt.Some?
    {
      assert FromTranscript(cfg, w, SdrKey(w.transcripts[i].id), i);
      assert SameIncident(w.tables, v.tables, SdrKey(w.transcripts[i].id));
    }
    forall k | k in v.tables.db.incidents && k.source == SDR ensures HasTranscript(cfg, v, k) {
      assert SameIncident(w.tables, v.tables, k);
      assert HasTranscript(cfg, w, k);
      var i :| 0 <= i < |w.transcripts| && FromTranscript(cfg, w, k, i);
      assert FromTranscript(cfg, v, k, i);
    }
  }

  /** The same row and id, but for the time it was cleared. */
  ghost predicate SameIncident(a: Shared, b: Shared, k: Key) {
    && (k in a.db.incidents <==> k in b.db.incidents) && (k in a.rowIds <==> k in b.rowIds)
    && (k in a.rowIds ==> a.rowIds[k] == b.rowIds[k])
    && (k in a.db.incidents ==>
          b.db.incidents[k] == a.db.incidents[k].(clearedAt := b.db.incidents[k].clearedAt))
  }

  /** A promotion leaves the incidents of other transcripts as they are. */
  lemma OthersStay(cfg: Config, w: World, step: Step, v: World, k: Key, i: nat)
    requires TableOk(w) && Commits(w, step) && VerdictOf(cfg, w, step).Promoted? && v == After(cfg, w, step)
    requires i < |w.transcripts| && i != w.holds[step.worker].index && FromTranscript(cfg, w, k, i)
    ensures |v.transcripts| == |w.transcripts| && v.transcripts[i] == w.transcripts[i]
    ensures FromTranscript(cfg, v, k, i)
  {
    var row := w.holds[step.worker].row;
    assert row == w.transcripts[w.holds[step.worker].index];
    if k == SdrKey(row.id) {
      SdrKeyIsInjective(row.id, w.transcripts[i].id);
    }
  }

  lemma PromotionKeeps(cfg: Config, w: World, step: Step)
    requires TableOk(w) && SdrOk(cfg, w) && Commits(w, step) && VerdictOf(cfg, w, step).Promoted?
    ensures SdrOk(cfg, After(cfg, w, step))
  {
    var c := w.holds[step.worker];
    var v := After(cfg, w, step);
    var key := SdrKey(c.row.id);
    PromotionIsNew(cfg, w, c.index);
    IdsHaveIncidents(w.tables, StatementOf(cfg, w, step).value);
    assert v.transcripts == w.transcripts[c.index := Committed(cfg, w, step)];
    assert FromTranscript(cfg, v, key, c.index);
    forall i | 0 <= i < |v.transcripts| && v.transcripts[i].parsedIncident.Some?
      ensures FromTranscript(cfg, v, SdrKey(v.transcripts[i].id), i) && v.transcripts[i].parsedAt.Some?
    {
      if i != c.index {
        OthersStay(cfg, w, step, v, SdrKey(w.transcripts[i].id), i);
      }
    }
    forall k | k in v.tables.db.incidents && k.source == SDR ensures HasTranscript(cfg, v, k) {
      if k != key {
        assert HasTranscript(cfg, w, k);
        var i :| 0 <= i < |w.transcripts| && FromTranscript(cfg, w, k, i);
        OthersStay(cfg, w, step, v, k, i);
      }
    }
  }

  lemma OtherStepKeeps(cfg: Config, w: World, step: Step)
    requires TableOk(w) && SdrOk(cfg, w) && !(Commits(w, step) && VerdictOf(cfg, w, step).Promoted?)
    ensures SdrOk(cfg, After(cfg, w, step))
  {
    var v := After(cfg, w, step);
    var s := StatementOf(cfg, w, step);
    if s.Some? {
      IdsHaveIncidents(w.tables, s.value);
    }
    forall k: Key | k.source == SDR ensures SameIncident(w.tables, v.tables, k) {
      if s.Some? && s.value.Source() != SDR {
        IncidentElsewhere(w.tables, s.value, k);
      }
    }
    UntouchedStepKeeps(cfg, w, v);
  }

  lemma {:induction false} SdrAlwaysOk(cfg: Config, steps: seq<Step>)
    ensures SdrOk(cfg, Reach(cfg, steps))
  {
    if steps != [] {
      var before, step := steps[..|steps| - 1], steps[|steps| - 1];
      var w := Reach(cfg, before);
      SdrAlwaysOk(cfg, before);
      TableAlwaysOk(cfg, before);
      if Commits(w, step) && VerdictOf(cfg, w, step).Promoted? {
        PromotionKeeps(cfg, w, step);
      } else {
        OtherStepKeeps(cfg, w, step);
      }
    }
  }

  // ---------------------------------------------------------------- unit rows

  /** The rows a promotion opens for one unit name, one per listing. */
  ghost function Opened(units: seq<Unit>, u: string, pollId: int, at: Time): seq<Interval> {
    if units == [] then []
    else
      var last := units[|units| - 1];
      Opened(units[..|units| - 1], u, pollId, at)
      + if last.name == u then [NewInterval(last.status, pollId, at)] else []
  }

  lemma {:induction false} AddUnitsOpens(db: Db, key: Key, units: seq<Unit>, pollId: int, at: Time, uk: UnitKey)
    ensures var r := AddUnits(db, key, units, pollId, at);
            && r.History(uk) == db.History(uk) + (if uk.key == key then Opened(units, uk.unit, pollId, at) else [])
            && (uk in r.units ==> uk in db.units || uk.key == key)
  {
    if units != [] {
      AddUnitsOpens(db, key, units[..|units| - 1], pollId, at, uk);
    }
  }

  /** An incident's unit rows are those its promotion opened. */
  ghost predicate UnitsAsPromoted(db: Db, k: Key, u: string) {
    k in db.incidents ==>
      && db.History(UnitKey(k, u))
         == Opened(db.incidents[k].units, u, db.incidents[k].lastSeenPollId, db.incidents[k].lastSeenAt)
      && db.incidents[k].receivedAt == db.incidents[k].lastSeenAt
  }

  ghost predicate UnitsOk(db: Db) {
    && (forall uk | uk in db.units && uk.key.source == SDR :: uk.key in db.incidents)
    && (forall k: Key, u | k.source == SDR :: UnitsAsPromoted(db, k, u))
  }

  /** The same SDR rows in both tables, but for the time they were cleared. */
  ghost predicate SameUnits(a: Db, b: Db) {
    && UnitsOfSource(a.units, SDR) == UnitsOfSource(b.units, SDR)
    && forall k: Key | k.source == SDR ::
         && (k in a.incidents <==> k in b.incidents)
         && (k in a.incidents ==> b.incidents[k] == a.incidents[k].(clearedAt := b.incidents[k].clearedAt))
  }

  lemma SameUnitsOk(a: Db, b: Db)
    requires UnitsOk(a) && SameUnits(a, b)
    ensures UnitsOk(b)
  {
    forall uk | uk in b.units && uk.key.source == SDR ensures uk.key in b.incidents {
      assert uk in UnitsOfSource(b.units, SDR);
    }
    forall k: Key, u | k.source == SDR ensures UnitsAsPromoted(b, k, u) {
      var uk := UnitKey(k, u);
      assert UnitsAsPromoted(a, k, u);
      assert uk in a.units <==> uk in UnitsOfSource(a.units, SDR);
      assert uk in b.units <==> uk in UnitsOfSource(b.units, SDR);
      assert a.History(uk) == b.History(uk);
    }
  }

  lemma ForeignStatementSameUnits(t: Shared, s: Statement)
    requires s.Source() != SDR
    ensures SameUnits(t.db, Exec(t, s).db)
  {
    forall k: Key | k.source == SDR
      ensures (k in t.db.incidents <==> k in Exec(t, s).db.incidents)
      ensures k in t.db.incidents ==> Exec(t, s).db.incidents[k] == t.db.incidents[k]
    {
      IncidentElsewhere(t, s, k);
    }
    match s
    case UpsertOne(inc, pollId, at, _) => UpsertElsewhere(t.db, inc, pollId, at, SDR);
    case Promote(p) => PromoteElsewhere(t.db, p, SDR);
    case _ =>
  }

  lemma PromotionOpensUnits(db: Db, p: Promotion)
    requires UnitsOk(db) && p.key.source == SDR && p.key !in db.incidents
    ensures UnitsOk(PromoteRow(db, p))
  {
    var e := PromoteRow(db, p);
    forall uk | uk in e.units && uk.key.source == SDR ensures uk.key in e.incidents {
      AddUnitsOpens(db, p.key, p.units, p.pollId, p.now, uk);
    }
    forall k: Key, u | k.source == SDR ensures UnitsAsPromoted(e, k, u) {
      AddUnitsOpens(db, p.key, p.units, p.pollId, p.now, UnitKey(k, u));
      assert UnitsAsPromoted(db, k, u);
      if k == p.key {
        assert db.History(UnitKey(k, u)) == [];
      }
    }
  }

  lemma StepKeepsUnits(cfg: Config, w: World, step: Step)
    requires TableOk(w) && SdrOk(cfg, w) && UnitsOk(w.tables.db)
    ensures UnitsOk(NextTables(cfg, w, step).db)
  {
    var s := StatementOf(cfg, w, step);
    if s.Some? {
      if s.value.Source() != SDR {
        ForeignStatementSameUnits(w.tables, s.value);
        SameUnitsOk(w.tables.db, Exec(w.tables, s.value).db);
      } else if s.value.Promote? {
        PromotionIsNew(cfg, w, w.holds[step.worker].index);
        PromotionOpensUnits(w.tables.db, s.value.p);
      } else {
        SameUnitsOk(w.tables.db, Exec(w.tables, s.value).db);
      }
    }
  }

  /** In every reachable state an SDR incident has exactly the unit rows of the
      transcript it came from, opened and closed at its promotion. */
  lemma {:induction false} UnitsStayAsPromoted(cfg: Config, steps: seq<Step>)
    ensures UnitsOk(Reach(cfg, steps).tables.db)
  {
    if steps != [] {
      var before := steps[..|steps| - 1];
      UnitsStayAsPromoted(cfg, before);
      TableAlwaysOk(cfg, before);
      SdrAlwaysOk(cfg, before);
      StepKeepsUnits(cfg, Reach(cfg, before), steps[|steps| - 1]);
    }
  }

  // ---------------------------------------------------------------- surrogate ids

  /** The incidents.id a step would use if it inserts. */
  function Offered(step: Step): Option<int> {
    match step
    case Ingest(UpsertOne(_, _, _, rowId)) => Some(rowId)
    case Commit(_, _, _, _, rowId) => Some(rowId)
    case _ => None
  }

  /** The id sequence never serves the same value twice. */
  ghost predicate DistinctIds(steps: seq<Step>) {
    forall i, j | 0 <= i < j < |steps| && Offered(steps[i]).Some? :: Offered(steps[i]) != Offered(steps[j])
  }

  ghost predicate WasOffered(steps: seq<Step>, id: int) {
    exists i :: 0 <= i < |steps| && Offered(steps[i]) == Some(id)
  }

  ghost predicate IdsUnique(rowIds: map<Key, int>) {
    forall k, l | k in rowIds && l in rowIds && rowIds[k] == rowIds[l] :: k == l
  }

  ghost predicate IdsFrom(rowIds: map<Key, int>, steps: seq<Step>) {
    forall k | k in rowIds :: WasOffered(steps, rowIds[k])
  }

  lemma OneIdAtMost(cfg: Config, w: World, step: Step)
    ensures var r := NextTables(cfg, w, step).rowIds;
            forall k | k in r :: (k in w.tables.rowIds && r[k] == w.tables.rowIds[k]) || Offered(step) == Some(r[k])
    ensures var r := NextTables(cfg, w, step).rowIds;
            forall k, l | k in r && l in r && k !in w.tables.rowIds && l !in w.tables.rowIds :: k == l
  {
  }

  lemma OfferedEarlier(steps: seq<Step>, step: Step, id: int)
    requires WasOffered(steps, id)
    ensures WasOffered(steps + [step], id)
    ensures DistinctIds(steps + [step]) ==> Offered(step) != Some(id)
  {
    var i :| 0 <= i < |steps| && Offered(steps[i]) == Some(id);
    assert (steps + [step])[i] == steps[i] && (steps + [step])[|steps|] == step;
  }

  lemma DistinctEarlier(steps: seq<Step>, step: Step)
    requires DistinctIds(steps + [step])
    ensures DistinctIds(steps)
  {
    assert forall i | 0 <= i < |steps| :: (steps + [step])[i] == steps[i];
  }

  lemma IdsStayUnique(cfg: Config, w: World, steps: seq<Step>, step: Step)
    requires DistinctIds(steps + [step]) && IdsUnique(w.tables.rowIds) && IdsFrom(w.tables.rowIds, steps)
    ensures var r := NextTables(cfg, w, step).rowIds; IdsUnique(r) && IdsFrom(r, steps + [step])
  {
    var r := NextTables(cfg, w, step).rowIds;
    OneIdAtMost(cfg, w, step);
    forall k | k in w.tables.rowIds
      ensures WasOffered(steps + [step], w.tables.rowIds[k]) && Offered(step) != Some(w.tables.rowIds[k])
    {
      OfferedEarlier(steps, step, w.tables.rowIds[k]);
    }
    assert (steps + [step])[|steps|] == step;
  }

  lemma {:induction false} IdsAlwaysUnique(cfg: Config, steps: seq<Step>)
    requires DistinctIds(steps)
    ensures IdsUnique(Reach(cfg, steps).tables.rowIds) && IdsFrom(Reach(cfg, steps).tables.rowIds, steps)
  {
    if steps != [] {
      var n := |steps| - 1;
      assert steps == steps[..n] + [steps[n]];
      DistinctEarlier(steps[..n], steps[n]);
      IdsAlwaysUnique(cfg, steps[..n]);
      IdsStayUnique(cfg, Reach(cfg, steps[..n]), steps[..n], steps[n]);
    }
  }

  // ---------------------------------------------------------------- the theorems

  /** SDR incidents and transcripts with a parsed_incident_id are in one-to-one
      correspondence: an incident's id appears in exactly one transcript, a
      transcript's id belongs to exactly one incident, and that incident shows
      what the gate read in that transcript. */
  lemma PromotionIsOneToOne(cfg: Config, steps: seq<Step>)
    requires DistinctIds(steps)
    ensures var w := Reach(cfg, steps);
            && (forall k | k in w.tables.db.incidents && k.source == SDR ::
                  exists i :: 0 <= i < |w.transcripts| && FromTranscript(cfg, w, k, i))
            && (forall i | 0 <= i < |w.transcripts| && w.transcripts[i].parsedIncident.Some? ::
                  FromTranscript(cfg, w, SdrKey(w.transcripts[i].id), i))
            && (forall i, j | 0 <= i < j < |w.transcripts| && w.transcripts[i].parsedIncident.Some? ::
                  w.transcripts[i].parsedIncident != w.transcripts[j].parsedIncident)
  {
    var w := Reach(cfg, steps);
    SdrAlwaysOk(cfg, steps);
    TableAlwaysOk(cfg, steps);
    IdsAlwaysUnique(cfg, steps);
    forall k | k in w.tables.db.incidents && k.source == SDR
      ensures exists i :: 0 <= i < |w.transcripts| && FromTranscript(cfg, w, k, i)
    {
      assert HasTranscript(cfg, w, k);
    }
    forall i, j | 0 <= i < j < |w.transcripts| && w.transcripts[i].parsedIncident.Some?
      ensures w.transcripts[i].parsedIncident != w.transcripts[j].parsedIncident
    {
      if w.transcripts[i].parsedIncident == w.transcripts[j].parsedIncident {
        assert FromTranscript(cfg, w, SdrKey(w.transcripts[i].id), i);
        assert FromTranscript(cfg, w, SdrKey(w.transcripts[j].id), j);
        SdrKeyIsInjective(w.transcripts[i].id, w.transcripts[j].id);
      }
    }
  }

  /** From recording to incident at most once: however often a wav file is
      uploaded, and by whom, it has one transcript row and one incident at most. */
  lemma AtMostOnce(cfg: Config, steps: seq<Step>, i: nat, j: nat, k: Key, l: Key)
    requires var w := Reach(cfg, steps);
             && i < |w.transcripts| && j < |w.transcripts| && w.transcripts[i].wav == w.transcripts[j].wav
             && FromTranscript(cfg, w, k, i) && FromTranscript(cfg, w, l, j)
    ensures i == j && k == l
  {
    TableAlwaysOk(cfg, steps);
    var w := Reach(cfg, steps);
    assert !(i < j) && !(j < i);
  }

  /** A cleared SDR incident stays cleared, at the same time, whatever happens. */
  lemma ClearedForGood(cfg: Config, w: World, step: Step, k: Key)
    requires TableOk(w) && SdrOk(cfg, w) && k.source == SDR && k in w.tables.db.incidents
    requires w.tables.db.incidents[k].clearedAt.Some?
    ensures var v := After(cfg, w, step);
            k in v.tables.db.incidents && v.tables.db.incidents[k] == w.tables.db.incidents[k]
  {
    var s := StatementOf(cfg, w, step);
    if s.Some? {
      if s.value.Source() != k.source {
        IncidentElsewhere(w.tables, s.value, k);
      } else if s.value.Promote? {
        var c := w.holds[step.worker];
        PromotionIsNew(cfg, w, c.index);
      }
    }
  }

  lemma {:induction false} NeverActiveAgain(cfg: Config, steps: seq<Step>, n: nat, k: Key)
    requires n <= |steps| && k.source == SDR && k in Reach(cfg, steps[..n]).tables.db.incidents
    requires Reach(cfg, steps[..n]).tables.db.incidents[k].clearedAt.Some?
    ensures k in Reach(cfg, steps).tables.db.incidents
    ensures Reach(cfg, steps).tables.db.incidents[k] == Reach(cfg, steps[..n]).tables.db.incidents[k]
  {
    if n == |steps| {
      assert steps[..n] == steps;
    } else {
      var before := steps[..|steps| - 1];
      assert before[..n] == steps[..n];
      NeverActiveAgain(cfg, before, n, k);
      TableAlwaysOk(cfg, before);
      SdrAlwaysOk(cfg, before);
      ClearedForGood(cfg, Reach(cfg, before), steps[|steps| - 1], k);
    }
  }

  /** A sweep clears the SDR incidents that are active and outside the window,
      as of now, and changes nothing else about any of them; without a positive
      window it is refused. */
  lemma NothingStaleAfterSweep(cfg: Config, w: World, now: Time, window: Time, k: Key)
    requires k.source == SDR && k in w.tables.db.incidents
    ensures var v := After(cfg, w, Janitor(now, window));
            var before, after := w.tables.db.incidents[k], v.tables.db.incidents[k];
            && k in v.tables.db.incidents
            && (after.clearedAt.None? <==>
                  before.clearedAt.None? && (window <= 0 || now <= before.incidentDate + window))
            && (before.clearedAt.None? && after.clearedAt.Some? ==> after.clearedAt.value == now)
            && (before.clearedAt.Some? ==> after.clearedAt == before.clearedAt)
            && after == before.(clearedAt := after.clearedAt)
            && v.tables.db == w.tables.db.(incidents := v.tables.db.incidents)
  {
  }

  /** An SDR incident keeps its row and its date. */
  lemma DateStays(cfg: Config, w: World, step: Step, k: Key)
    requires TableOk(w) && SdrOk(cfg, w) && k.source == SDR && k in w.tables.db.incidents
    ensures var v := After(cfg, w, step);
            k in v.tables.db.incidents
            && v.tables.db.incidents[k].incidentDate == w.tables.db.incidents[k].incidentDate
  {
    var s := StatementOf(cfg, w, step);
    if s.Some? {
      if s.value.Source() != k.source {
        IncidentElsewhere(w.tables, s.value, k);
      } else if s.value.Promote? {
        PromotionIsNew(cfg, w, w.holds[step.worker].index);
      }
    }
  }

  lemma {:induction false} DateIsFixed(cfg: Config, steps: seq<Step>, n: nat, k: Key)
    requires n <= |steps| && k.source == SDR && k in Reach(cfg, steps[..n]).tables.db.incidents
    ensures k in Reach(cfg, steps).tables.db.incidents
    ensures Reach(cfg, steps).tables.db.incidents[k].incidentDate
         == Reach(cfg, steps[..n]).tables.db.incidents[k].incidentDate
  {
    if n == |steps| {
      assert steps[..n] == steps;
    } else {
      var before := steps[..|steps| - 1];
      assert before[..n] == steps[..n];
      DateIsFixed(cfg, before, n, k);
      TableAlwaysOk(cfg, before);
      SdrAlwaysOk(cfg, before);
      DateStays(cfg, Reach(cfg, before), steps[|steps| - 1], k);
    }
  }

  lemma SweepClearsStale(cfg: Config, w: World, now: Time, window: Time, v: World, k: Key)
    requires window > 0 && v == After(cfg, w, Janitor(now, window)) && k.source == SDR
    requires k in v.tables.db.incidents
    ensures v.tables.db.incidents[k].clearedAt.Some? || v.tables.db.incidents[k].incidentDate >= now - window
  {
  }

  lemma SweptAt(cfg: Config, steps: seq<Step>, n: nat, now: Time, window: Time, k: Key)
    requires n < |steps| && steps[n] == Janitor(now, window) && window > 0 && k.source == SDR
    requires k in Reach(cfg, steps[..n + 1]).tables.db.incidents
    ensures var row := Reach(cfg, steps[..n + 1]).tables.db.incidents[k];
            row.clearedAt.Some? || row.incidentDate >= now - window
  {
    assert steps[..n + 1] == steps[..n] + [steps[n]];
    ReachSnoc(cfg, steps[..n], steps[n]);
    SweepClearsStale(cfg, Reach(cfg, steps[..n]), now, window, Reach(cfg, steps[..n + 1]), k);
  }

  /** At any time after a sweep, an active SDR incident that the sweep's window
      already excluded was promoted since: the sweep left no such row active,
      and no row it cleared is active again. */
  lemma StaleOnlySinceSweep(cfg: Config, steps: seq<Step>, n: nat, now: Time, window: Time, k: Key)
    requires n < |steps| && steps[n] == Janitor(now, window) && window > 0
    requires k.source == SDR && k in Reach(cfg, steps).tables.db.incidents
    requires Reach(cfg, steps).tables.db.incidents[k].clearedAt.None?
    requires Reach(cfg, steps).tables.db.incidents[k].incidentDate < now - window
    ensures k !in Reach(cfg, steps[..n + 1]).tables.db.incidents
  {
    if k in Reach(cfg, steps[..n + 1]).tables.db.incidents {
      DateIsFixed(cfg, steps, n + 1, k);
      SweptAt(cfg, steps, n, now, window, k);
      NeverActiveAgain(cfg, steps, n + 1, k);
    }
  }
}
