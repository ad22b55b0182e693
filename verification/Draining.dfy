/** The queue of unparsed transcripts drains. */
module Draining {
  import opened Types
  import opened SharedTables
  import opened Dispatch
  import opened ExactlyOnce
  import G = GeocodeCache

  /** The attempts still open to a row. */
  function Left(row: Transcript, max: nat): nat {
    if row.parsedAt.None? && row.attempts < max then max - row.attempts else 0
  }

  function Backlog(ts: seq<Transcript>, max: nat): nat {
    if ts == [] then 0 else Backlog(ts[..|ts| - 1], max) + Left(ts[|ts| - 1], max)
  }

  lemma {:induction false} BacklogUpdate(ts: seq<Transcript>, i: nat, row: Transcript, max: nat)
    requires i < |ts|
    ensures Backlog(ts[i := row], max) + Left(ts[i], max) == Backlog(ts, max) + Left(row, max)
  {
    var n := |ts| - 1;
    if i == n {
      assert ts[i := row][..n] == ts[..n];
    } else {
      assert ts[i := row][..n] == ts[..n][i := row];
      BacklogUpdate(ts[..n], i, row, max);
    }
  }

  lemma JudgedLess(cfg: Config, row: Transcript, now: Time, geo: G.Outcome, incident: int)
    requires row.parsedAt.None? && row.attempts < cfg.maxAttempts
    ensures Left(Marked(row, Judge(cfg, row, now, geo), now, incident), cfg.maxAttempts) < Left(row, cfg.maxAttempts)
  {
  }

  lemma CommitShrinks(cfg: Config, w: World, step: Step)
    requires TableOk(w) && LogOk(w, cfg.maxAttempts) && Commits(w, step)
    ensures Backlog(NextTranscripts(cfg, w, step), cfg.maxAttempts) < Backlog(w.transcripts, cfg.maxAttempts)
  {
    var c := w.holds[step.worker];
    assert LoggedOk(w.transcripts[c.index], w.log, c.index, cfg.maxAttempts);
    var incident := ReturnedId(w.tables.rowIds, SdrKey(c.row.id), step.rowId);
    JudgedLess(cfg, c.row, step.now, step.geo, incident);
    BacklogUpdate(w.transcripts, c.index, Committed(cfg, w, step), cfg.maxAttempts);
  }

  lemma OthersAdd(cfg: Config, w: World, step: Step)
    requires !Commits(w, step) && cfg.maxAttempts > 0
    ensures var ts := NextTranscripts(cfg, w, step);
            && |w.transcripts| <= |ts| <= |w.transcripts| + 1
            && Backlog(ts, cfg.maxAttempts) == Backlog(w.transcripts, cfg.maxAttempts)
                                               + if |ts| > |w.transcripts| then cfg.maxAttempts else 0
  {
    var ts := NextTranscripts(cfg, w, step);
    if |ts| > |w.transcripts| {
      assert ts[..|w.transcripts|] == w.transcripts;
    }
  }

  /** Every committed transaction makes the backlog smaller, and only a new
      transcript makes it larger, by the attempts allowed. */
  lemma BacklogDrains(cfg: Config, steps: seq<Step>, step: Step)
    requires cfg.maxAttempts > 0
    ensures var w := Reach(cfg, steps);
            var v := After(cfg, w, step);
            if Commits(w, step) then
              Backlog(v.transcripts, cfg.maxAttempts) < Backlog(w.transcripts, cfg.maxAttempts)
            else
              Backlog(v.transcripts, cfg.maxAttempts) ==
                Backlog(w.transcripts, cfg.maxAttempts)
                + if |v.transcripts| > |w.transcripts| then cfg.maxAttempts else 0
  {
    var w := Reach(cfg, steps);
    TableAlwaysOk(cfg, steps);
    LogAlwaysOk(cfg, steps);
    if Commits(w, step) {
      CommitShrinks(cfg, w, step);
    } else {
      OthersAdd(cfg, w, step);
    }
  }

  /** Over a whole run every transcript pays for its commits: with those still
      open, they are never more than the attempts allowed to each row stored. */
  lemma {:induction false} CommitsAreBounded(cfg: Config, steps: seq<Step>)
    requires cfg.maxAttempts > 0
    ensures var w := Reach(cfg, steps);
            |w.log| + Backlog(w.transcripts, cfg.maxAttempts) <= cfg.maxAttempts * |w.transcripts|
  {
    if steps != [] {
      var before, step := steps[..|steps| - 1], steps[|steps| - 1];
      CommitsAreBounded(cfg, before);
      BacklogDrains(cfg, before, step);
      OneMoreCommit(cfg, Reach(cfg, before), step);
    }
  }

  lemma OneMoreCommit(cfg: Config, w: World, step: Step)
    ensures |NextLog(cfg, w, step)| == |w.log| + if Commits(w, step) then 1 else 0
    ensures var n := |NextTranscripts(cfg, w, step)|;
            && |w.transcripts| <= n <= |w.transcripts| + 1
            && (Commits(w, step) ==> n == |w.transcripts|)
            && cfg.maxAttempts * n
               == cfg.maxAttempts * |w.transcripts| + if n > |w.transcripts| then cfg.maxAttempts else 0
  {
  }
}
