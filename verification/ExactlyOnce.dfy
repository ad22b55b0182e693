/** What every interleaving of uploaders, server and workers keeps: one row per
    recording, one holder per row, one parse per row, no attempt lost. */
module ExactlyOnce {
  import opened Types
  import opened SharedTables
  import opened Dispatch
  import G = GeocodeCache

  // ---------------------------------------------------------------- rows

  ghost predicate RowsOrdered(ts: seq<Transcript>, nextId: nat) {
    && (forall i | 0 <= i < |ts| :: ts[i].id < nextId)
    && (forall i, j | 0 <= i < j < |ts| :: ts[i].id < ts[j].id)
  }

  ghost predicate WavsUnique(ts: seq<Transcript>) {
    forall i, j | 0 <= i < j < |ts| :: ts[i].wav != ts[j].wav
  }

  /** The locked row is still what its holder read, and has one holder. */
  ghost predicate HoldsExclusive(ts: seq<Transcript>, holds: map<nat, Claim>) {
    && (forall k | k in holds ::
          holds[k].index < |ts| && ts[holds[k].index] == holds[k].row && holds[k].row.parsedAt.None?)
    && (forall k, l | k in holds && l in holds && k != l :: holds[k].index != holds[l].index)
  }

  ghost predicate TableOk(w: World) {
    RowsOrdered(w.transcripts, w.nextId) && WavsUnique(w.transcripts) && HoldsExclusive(w.transcripts, w.holds)
  }

  lemma InsertKeepsRows(w: World, q: Request, at: Time)
    requires TableOk(w)
    ensures RowsOrdered(Insert(w.transcripts, w.nextId, q, at), w.nextId + 1)
    ensures WavsUnique(Insert(w.transcripts, w.nextId, q, at))
    ensures HoldsExclusive(Insert(w.transcripts, w.nextId, q, at), w.holds)
  {
  }

  /** A worker's update changes one row and neither its id nor its name. */
  lemma CommitKeepsRows(cfg: Config, w: World, step: Step)
    requires TableOk(w) && Commits(w, step)
    ensures TableOk(After(cfg, w, step))
  {
    var i := w.holds[step.worker].index;
    var ts := NextTranscripts(cfg, w, step);
    assert ts == w.transcripts[i := Committed(cfg, w, step)];
    assert ts[i].id == w.transcripts[i].id && ts[i].wav == w.transcripts[i].wav;
    assert forall j | 0 <= j < |ts| :: ts[j].id == w.transcripts[j].id && ts[j].wav == w.transcripts[j].wav;
  }

  lemma StepKeepsTable(cfg: Config, w: World, step: Step)
    requires TableOk(w)
    ensures TableOk(After(cfg, w, step))
  {
    if Commits(w, step) {
      CommitKeepsRows(cfg, w, step);
    } else if Serves(w, step) && Inserts(step.answer) {
      InsertKeepsRows(w, w.requests[step.request], step.at);
    }
  }

  /** In every reachable state the ids and names are distinct, no row is held
      twice, and what a worker holds is the row as it stands. */
  lemma {:induction false} TableAlwaysOk(cfg: Config, steps: seq<Step>)
    ensures TableOk(Reach(cfg, steps))
  {
    if steps != [] {
      TableAlwaysOk(cfg, steps[..|steps| - 1]);
      StepKeepsTable(cfg, Reach(cfg, steps[..|steps| - 1]), steps[|steps| - 1]);
    }
  }

  // ---------------------------------------------------------------- attempts and parses

  /** How often row i was settled for good. */
  function Parses(log: seq<Entry>, i: nat): nat {
    if log == [] then 0
    else
      var e := log[|log| - 1];
      Parses(log[..|log| - 1], i) + if e.index == i && e.verdict.Parses() then 1 else 0
  }

  /** How often geocoding row i failed for the time being. */
  function Attempts(log: seq<Entry>, i: nat): nat {
    if log == [] then 0
    else
      var e := log[|log| - 1];
      Attempts(log[..|log| - 1], i) + if e.index == i && e.verdict.Transient() then 1 else 0
  }

  ghost predicate LoggedOk(row: Transcript, log: seq<Entry>, i: nat, max: nat) {
    && Parses(log, i) == (if row.parsedAt.Some? then 1 else 0)
    && Attempts(log, i) == row.attempts
    && (row.parsedAt.None? ==> row.attempts < max)
    && row.attempts <= max
  }

  ghost predicate LogOk(w: World, max: nat) {
    && (forall e | e in w.log :: e.index < |w.transcripts|)
    && (forall i | 0 <= i < |w.transcripts| :: LoggedOk(w.transcripts[i], w.log, i, max))
  }

  lemma CountsSnoc(log: seq<Entry>, e: Entry, i: nat)
    ensures Parses(log + [e], i) == Parses(log, i) + if e.index == i && e.verdict.Parses() then 1 else 0
    ensures Attempts(log + [e], i) == Attempts(log, i) + if e.index == i && e.verdict.Transient() then 1 else 0
  {
    assert (log + [e])[..|log|] == log;
  }

  lemma {:induction false} NewRowHasNoEntries(log: seq<Entry>, i: nat)
    requires forall e | e in log :: e.index < i
    ensures Parses(log, i) == 0 && Attempts(log, i) == 0
  {
    if log != [] {
      NewRowHasNoEntries(log[..|log| - 1], i);
    }
  }

  lemma StepKeepsLog(cfg: Config, w: World, step: Step)
    requires cfg.maxAttempts > 0 && TableOk(w) && LogOk(w, cfg.maxAttempts)
    ensures LogOk(After(cfg, w, step), cfg.maxAttempts)
  {
    var ts := NextTranscripts(cfg, w, step);
    var log := NextLog(cfg, w, step);
    if Commits(w, step) {
      var c := w.holds[step.worker];
      forall i | 0 <= i < |ts| ensures LoggedOk(ts[i], log, i, cfg.maxAttempts) {
        CountsSnoc(w.log, Entry(c.index, VerdictOf(cfg, w, step)), i);
        assert LoggedOk(w.transcripts[i], w.log, i, cfg.maxAttempts);
      }
    } else if Serves(w, step) && Inserts(step.answer) {
      NewRowHasNoEntries(w.log, |w.transcripts|);
    }
  }

  lemma {:induction false} LogAlwaysOk(cfg: Config, steps: seq<Step>)
    requires cfg.maxAttempts > 0
    ensures LogOk(Reach(cfg, steps), cfg.maxAttempts)
  {
    if steps != [] {
      LogAlwaysOk(cfg, steps[..|steps| - 1]);
      TableAlwaysOk(cfg, steps[..|steps| - 1]);
      StepKeepsLog(cfg, Reach(cfg, steps[..|steps| - 1]), steps[|steps| - 1]);
    }
  }

  /** Every row is settled at most once, its counter is the number of committed
      transient failures, whichever workers met them, and it is settled at the
      latest by the last attempt allowed. */
  lemma NoAttemptLost(cfg: Config, steps: seq<Step>, i: nat)
    requires cfg.maxAttempts > 0 && i < |Reach(cfg, steps).transcripts|
    ensures var w := Reach(cfg, steps);
            && Parses(w.log, i) <= 1
            && (Parses(w.log, i) == 1 <==> w.transcripts[i].parsedAt.Some?)
            && Attempts(w.log, i) == w.transcripts[i].attempts <= cfg.maxAttempts
            && (w.transcripts[i].attempts == cfg.maxAttempts ==> w.transcripts[i].parsedAt.Some?)
  {
    LogAlwaysOk(cfg, steps);
    assert LoggedOk(Reach(cfg, steps).transcripts[i], Reach(cfg, steps).log, i, cfg.maxAttempts);
  }

  lemma ParsedStays(cfg: Config, w: World, step: Step, i: nat)
    requires TableOk(w) && i < |w.transcripts| && w.transcripts[i].parsedAt.Some?
    ensures i < |After(cfg, w, step).transcripts|
    ensures After(cfg, w, step).transcripts[i] == w.transcripts[i]
  {
  }

  /** Once parsed, a row never changes again, whatever steps follow. */
  lemma {:induction false} ParsedIsFinal(cfg: Config, steps: seq<Step>, n: nat, i: nat)
    requires n <= |steps| && i < |Reach(cfg, steps[..n]).transcripts|
    requires Reach(cfg, steps[..n]).transcripts[i].parsedAt.Some?
    ensures i < |Reach(cfg, steps).transcripts|
    ensures Reach(cfg, steps).transcripts[i] == Reach(cfg, steps[..n]).transcripts[i]
  {
    if n == |steps| {
      assert steps[..n] == steps;
    } else {
      var before := steps[..|steps| - 1];
      assert before[..n] == steps[..n];
      ParsedIsFinal(cfg, before, n, i);
      TableAlwaysOk(cfg, before);
      ParsedStays(cfg, Reach(cfg, before), steps[|steps| - 1], i);
    }
  }
}
