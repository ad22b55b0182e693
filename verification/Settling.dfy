/** What a worker's commit does to the row it holds and to the tables, in terms
    of the row, the clock, the gate and the geocoder alone. */
module Settling {
  import opened Types
  import opened Deltas
  import opened Tables
  import opened SharedTables
  import opened Dispatch
  import opened ExactlyOnce
  import opened Promotions
  import G = GeocodeCache

  /** The capture is not too old, and the gate can read the text. */
  predicate Passes(cfg: Config, row: Transcript, now: Time) {
    now <= row.capturedAt + cfg.maxAge && cfg.parse(row.text).Some?
  }

  /** Neither a place nor a permanent no. */
  predicate Unsure(geo: G.Outcome) {
    geo.TransientFailure? || geo.CacheError?
  }

  /** The row is left with an incident if and only if it passes and has a place;
      it is left waiting if and only if it passes, the geocoder is unsure and
      another attempt is allowed; otherwise it is settled without an incident.
      An unsure answer, and nothing else, counts an attempt. */
  ghost predicate SettledAs(cfg: Config, row: Transcript, now: Time, geo: G.Outcome, left: Transcript) {
    && (left.parsedIncident.Some? <==> Passes(cfg, row, now) && geo.Success?)
    && (left.parsedAt.None? <==> Passes(cfg, row, now) && Unsure(geo) && row.attempts + 1 < cfg.maxAttempts)
    && (left.parsedAt.Some? ==> left.parsedAt.value == now)
    && left.attempts == row.attempts + (if Passes(cfg, row, now) && Unsure(geo) then 1 else 0)
    && left == row.(parsedAt := left.parsedAt, parsedIncident := left.parsedIncident, attempts := left.attempts)
  }

  lemma MarkedAs(cfg: Config, row: Transcript, now: Time, geo: G.Outcome, incident: int)
    requires row.parsedAt.None? && row.parsedIncident.None?
    ensures SettledAs(cfg, row, now, geo, Marked(row, Judge(cfg, row, now, geo), now, incident))
  {
  }

  lemma WaitingHasNoIncident(cfg: Config, steps: seq<Step>, i: nat)
    requires i < |Reach(cfg, steps).transcripts| && Reach(cfg, steps).transcripts[i].parsedAt.None?
    ensures Reach(cfg, steps).transcripts[i].parsedIncident.None?
  {
    SdrAlwaysOk(cfg, steps);
  }

  /** In every run, a commit changes the row its worker holds, as it stands, in
      this way, and no other row. */
  lemma CommitSettles(cfg: Config, steps: seq<Step>, step: Step)
    requires Commits(Reach(cfg, steps), step)
    ensures var w := Reach(cfg, steps);
            var ts, i := After(cfg, w, step).transcripts, w.holds[step.worker].index;
            && |ts| == |w.transcripts| && (forall j | 0 <= j < |ts| && j != i :: ts[j] == w.transcripts[j])
            && SettledAs(cfg, w.transcripts[i], step.now, step.geo, ts[i])
  {
    var w := Reach(cfg, steps);
    TableAlwaysOk(cfg, steps);
    var c := w.holds[step.worker];
    assert w.transcripts[c.index] == c.row;
    WaitingHasNoIncident(cfg, steps, c.index);
    MarkedAs(cfg, c.row, step.now, step.geo, ReturnedId(w.tables.rowIds, SdrKey(c.row.id), step.rowId));
  }

  /** The incident is the transcript's: its texts and units are what the gate
      read, its position is the geocoder's, and its date is the capture's. */
  ghost predicate IncidentAs(row: Transcript, parsed: Parsed, place: G.Place, now: Time, pollId: int,
                             made: IncidentRow)
  {
    && made.fields == parsed.fields.(lon := place.lon, lat := place.lat) && made.units == parsed.units
    && made.incidentDate == row.capturedAt && made.receivedAt == now && made.lastSeenAt == now
    && made.lastSeenPollId == pollId
    && made.missingSince.None? && made.clearedAt.None? && made.reopenCount == 0
  }

  /** The poll row that goes with it: one feature, successful, without notes. */
  ghost predicate PollAs(now: Time, pollId: int, p: PollRow) {
    && p.pollId == pollId && p.source == "sdr_audio" && p.startedAt == now && p.featureCount == 1
    && p.success && p.error.None? && p.classification.Unclassified? && p.reason == "" && p.unchangedSince.None?
  }

  /** What the commit of a row that passes and has a place does to the tables. */
  ghost predicate PromotedAs(t: Shared, row: Transcript, parsed: Parsed, place: G.Place, step: Step, u: Shared)
    requires step.Commit?
  {
    var key := SdrKey(row.id);
    && key !in t.db.incidents && key in u.db.incidents
    && u.db.incidents == t.db.incidents[key := u.db.incidents[key]]
    && IncidentAs(row, parsed, place, step.now, step.pollId, u.db.incidents[key])
    && |u.db.polls| == |t.db.polls| + 1 && u.db.polls[..|t.db.polls|] == t.db.polls
    && PollAs(step.now, step.pollId, u.db.polls[|t.db.polls|])
    && u.db.events == t.db.events
    && u.rowIds == t.rowIds[key := step.rowId]
  }

  lemma PromotionAs(t: Shared, row: Transcript, parsed: Parsed, place: G.Place, step: Step, u: Shared)
    requires step.Commit? && SdrKey(row.id) !in t.db.incidents && SdrKey(row.id) !in t.rowIds
    requires u == Exec(t, Promote(PromotionOf(row, Placed(parsed, place), step.now, step.pollId, step.rowId)))
    ensures PromotedAs(t, row, parsed, place, step, u)
  {
  }

  /** The one statement of a commit, if it has one. */
  lemma CommitStatement(cfg: Config, w: World, step: Step, row: Transcript)
    requires Commits(w, step) && row == w.holds[step.worker].row
    ensures StatementOf(cfg, w, step) ==
      if Passes(cfg, row, step.now) && step.geo.Success? then
        Some(Promote(PromotionOf(row, Placed(cfg.parse(row.text).value, step.geo.place), step.now, step.pollId,
                                 step.rowId)))
      else None
  {
  }

  lemma ReturnedIdIsNew(cfg: Config, w: World, step: Step, row: Transcript)
    requires Commits(w, step) && row == w.holds[step.worker].row && SdrKey(row.id) !in w.tables.rowIds
    requires Passes(cfg, row, step.now) && step.geo.Success?
    ensures NextTranscripts(cfg, w, step)[w.holds[step.worker].index].parsedIncident == Some(step.rowId)
  {
  }

  /** In every run, a commit of a row that passes and has a place inserts one new
      incident, one poll row and one surrogate id, which the row is left with;
      any other commit leaves the tables alone. */
  lemma CommitPromotes(cfg: Config, steps: seq<Step>, step: Step)
    requires Commits(Reach(cfg, steps), step)
    ensures var w := Reach(cfg, steps);
            var v, row, i := After(cfg, w, step), w.holds[step.worker].row, w.holds[step.worker].index;
            if Passes(cfg, row, step.now) && step.geo.Success? then
              && PromotedAs(w.tables, row, cfg.parse(row.text).value, step.geo.place, step, v.tables)
              && v.transcripts[i].parsedIncident == Some(step.rowId)
            else v.tables == w.tables
  {
    var w := Reach(cfg, steps);
    TableAlwaysOk(cfg, steps);
    SdrAlwaysOk(cfg, steps);
    var c := w.holds[step.worker];
    CommitStatement(cfg, w, step, c.row);
    if Passes(cfg, c.row, step.now) && step.geo.Success? {
      NotNumbered(cfg, w, c.index, c.row);
      ReturnedIdIsNew(cfg, w, step, c.row);
      PromotionAs(w.tables, c.row, cfg.parse(c.row.text).value, step.geo.place, step, NextTables(cfg, w, step));
    }
  }

  lemma NotNumbered(cfg: Config, w: World, i: nat, row: Transcript)
    requires TableOk(w) && SdrOk(cfg, w) && i < |w.transcripts| && w.transcripts[i] == row && row.parsedAt.None?
    ensures SdrKey(row.id) !in w.tables.db.incidents && SdrKey(row.id) !in w.tables.rowIds
  {
    PromotionIsNew(cfg, w, i);
  }

  // ---------------------------------------------------------------- locks

  /** A worker holds a row from its claim to its commit or rollback: a claim needs
      a row that waits, is nobody's and is next; both ends give the row back, and
      nothing else changes what anyone holds. */
  lemma HoldsChange(cfg: Config, w: World, step: Step, k: nat)
    ensures var v := After(cfg, w, step);
            && (k in w.holds ==> (k !in v.holds <==> step == Rollback(k) || (step.Commit? && step.worker == k)))
            && (k !in w.holds ==>
                  (k in v.holds <==>
                     step.Take? && step.worker == k && Next(w.transcripts, w.holds, step.index)))
            && (k in w.holds && k in v.holds ==> v.holds[k] == w.holds[k])
            && (k !in w.holds && k in v.holds ==> v.holds[k] == Claim(step.index, w.transcripts[step.index]))
  {
  }
}
