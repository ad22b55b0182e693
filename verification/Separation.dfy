/** Ingester, workers, janitor and uploaders share one database, and each side
    sees what it would see alone. */
module Separation {
  import opened Types
  import opened Tables
  import opened SharedTables
  import opened Interleaving
  import opened Dispatch
  import L = Lifecycle

  /** The poll id sequence never serves two sources with one id. */
  ghost predicate StepOwned(step: Step, owner: int -> string) {
    match step
    case Ingest(s) => Owned(s, owner)
    case Commit(_, _, _, pollId, _) => owner(pollId) == SDR
    case _ => true
  }

  ghost predicate AllOwned(steps: seq<Step>, owner: int -> string) {
    forall i | 0 <= i < |steps| :: StepOwned(steps[i], owner)
  }

  /** The statements a run has executed, in order. */
  ghost function Executed(cfg: Config, steps: seq<Step>): seq<Statement> {
    if steps == [] then []
    else
      var before := steps[..|steps| - 1];
      var s := StatementOf(cfg, Reach(cfg, before), steps[|steps| - 1]);
      Executed(cfg, before) + match s case None => [] case Some(x) => [x]
  }

  lemma {:induction false} TablesAreExecuted(cfg: Config, steps: seq<Step>)
    ensures Reach(cfg, steps).tables == ExecAll(Executed(cfg, steps))
  {
    if steps != [] {
      var before, step := steps[..|steps| - 1], steps[|steps| - 1];
      TablesAreExecuted(cfg, before);
      var s := StatementOf(cfg, Reach(cfg, before), step);
      if s.Some? {
        ExecFromSnoc(Start, Executed(cfg, before), s.value);
      } else {
        assert Executed(cfg, before) + [] == Executed(cfg, before);
      }
    }
  }

  lemma StatementOwned(cfg: Config, w: World, step: Step, owner: int -> string)
    requires StepOwned(step, owner)
    ensures var s := StatementOf(cfg, w, step); s.Some? ==> Owned(s.value, owner)
  {
  }

  lemma {:induction false} ExecutedOwned(cfg: Config, steps: seq<Step>, owner: int -> string)
    requires AllOwned(steps, owner)
    ensures forall s | s in Executed(cfg, steps) :: Owned(s, owner)
  {
    if steps != [] {
      var n := |steps| - 1;
      assert forall i | 0 <= i < n :: steps[..n][i] == steps[i];
      ExecutedOwned(cfg, steps[..n], owner);
      StatementOwned(cfg, Reach(cfg, steps[..n]), steps[n], owner);
    }
  }

  // ---------------------------------------------------------------- the feed's side

  function IngestedBy(step: Step, source: string): seq<Statement> {
    if step.Ingest? && Ingests(step.s) && step.s.Source() == source then [step.s] else []
  }

  /** The ingester's statements for one source. */
  function Ingested(steps: seq<Step>, source: string): seq<Statement> {
    if steps == [] then []
    else Ingested(steps[..|steps| - 1], source) + IngestedBy(steps[|steps| - 1], source)
  }

  lemma OnlyIngested(cfg: Config, w: World, step: Step, source: string)
    requires source != SDR
    ensures var s := StatementOf(cfg, w, step);
            IngestedBy(step, source) == if s.Some? && s.value.Source() == source then [s.value] else []
  {
  }

  lemma {:induction false} IngestedIsOnly(cfg: Config, steps: seq<Step>, source: string)
    requires source != SDR
    ensures Only(Executed(cfg, steps), source) == Ingested(steps, source)
  {
    if steps != [] {
      var before, step := steps[..|steps| - 1], steps[|steps| - 1];
      IngestedIsOnly(cfg, before, source);
      OnlyIngested(cfg, Reach(cfg, before), step, source);
      var s := StatementOf(cfg, Reach(cfg, before), step);
      if s.Some? {
        OnlySnoc(Executed(cfg, before), s.value, source);
      } else {
        assert Executed(cfg, before) + [] == Executed(cfg, before);
      }
    }
  }

  /** The feed's rows evolve as if its ingester ran alone on the database. */
  lemma FeedAsIfAlone(cfg: Config, steps: seq<Step>, owner: int -> string, h: seq<L.Attempt>, n: nat, ids: Numbering,
                      source: string)
    requires AllOwned(steps, owner) && source != SDR
    requires forall i | 0 <= i < |h| :: L.Proper(h[i], source)
    requires Ingested(steps, source) == Trace(h, n, ids)
    ensures RowsOfSource(Reach(cfg, steps).tables.db, source) == L.Run(h, n)
  {
    TablesAreExecuted(cfg, steps);
    ExecutedOwned(cfg, steps, owner);
    IngestedIsOnly(cfg, steps, source);
    IngesterRunsAsIfAlone(Executed(cfg, steps), owner, h, n, ids, source);
  }

  // ---------------------------------------------------------------- the dispatch side

  function WithoutIngest(steps: seq<Step>): seq<Step> {
    if steps == [] then []
    else
      WithoutIngest(steps[..|steps| - 1])
      + if steps[|steps| - 1].Ingest? then [] else [steps[|steps| - 1]]
  }

  /** Everything but the shared tables is the same, and the SDR rows there. */
  ghost predicate SameDispatch(w: World, v: World) {
    && Project(w.tables, SDR) == v.tables
    && w == v.(tables := w.tables)
  }

  lemma SameIdReturned(w: World, v: World, key: Key, rowId: int)
    requires SameDispatch(w, v) && key.source == SDR
    ensures ReturnedId(w.tables.rowIds, key, rowId) == ReturnedId(v.tables.rowIds, key, rowId)
  {
    assert v.tables.rowIds == Part(w.tables.rowIds, SDR);
  }

  lemma DispatchStep(cfg: Config, w: World, v: World, step: Step, owner: int -> string)
    requires SameDispatch(w, v) && !step.Ingest? && StepOwned(step, owner) && PollsOwned(w.tables.db.polls, owner)
    ensures SameDispatch(After(cfg, w, step), After(cfg, v, step))
  {
    if Commits(w, step) {
      SameIdReturned(w, v, SdrKey(w.holds[step.worker].row.id), step.rowId);
    }
    var s := StatementOf(cfg, w, step);
    assert s == StatementOf(cfg, v, step);
    if s.Some? {
      StatementSplits(w.tables, s.value, owner, SDR, v.tables);
    }
  }

  lemma IngestStep(cfg: Config, w: World, v: World, s: Statement, owner: int -> string)
    requires SameDispatch(w, v) && Owned(s, owner) && PollsOwned(w.tables.db.polls, owner)
    ensures SameDispatch(After(cfg, w, Ingest(s)), v)
  {
    if Ingests(s) {
      StatementSplits(w.tables, s, owner, SDR, v.tables);
    }
  }

  lemma WithoutIngestSnoc(steps: seq<Step>, step: Step)
    ensures WithoutIngest(steps + [step])
         == if step.Ingest? then WithoutIngest(steps) else WithoutIngest(steps) + [step]
  {
    assert (steps + [step])[..|steps|] == steps;
  }

  lemma DispatchSnoc(cfg: Config, steps: seq<Step>, step: Step, owner: int -> string)
    requires SameDispatch(Reach(cfg, steps), Reach(cfg, WithoutIngest(steps))) && StepOwned(step, owner)
    requires PollsOwned(Reach(cfg, steps).tables.db.polls, owner)
    ensures SameDispatch(Reach(cfg, steps + [step]), Reach(cfg, WithoutIngest(steps + [step])))
  {
    ReachSnoc(cfg, steps, step);
    WithoutIngestSnoc(steps, step);
    if step.Ingest? {
      IngestStep(cfg, Reach(cfg, steps), Reach(cfg, WithoutIngest(steps)), step.s, owner);
    } else {
      DispatchStep(cfg, Reach(cfg, steps), Reach(cfg, WithoutIngest(steps)), step, owner);
      ReachSnoc(cfg, WithoutIngest(steps), step);
    }
  }

  lemma PollsStayOwned(cfg: Config, steps: seq<Step>, owner: int -> string)
    requires AllOwned(steps, owner)
    ensures PollsOwned(Reach(cfg, steps).tables.db.polls, owner)
  {
    TablesAreExecuted(cfg, steps);
    ExecutedOwned(cfg, steps, owner);
    AllPollsOwned(Executed(cfg, steps), owner);
  }

  /** Transcripts, workers, uploaders and SDR incidents evolve as if there were
      no ingester. */
  lemma {:induction false} DispatchAsIfAlone(cfg: Config, steps: seq<Step>, owner: int -> string)
    requires AllOwned(steps, owner)
    ensures SameDispatch(Reach(cfg, steps), Reach(cfg, WithoutIngest(steps)))
  {
    if steps == [] {
      assert Project(Start, SDR) == Start;
    } else {
      var n := |steps| - 1;
      assert forall i | 0 <= i < n :: steps[..n][i] == steps[i];
      DispatchAsIfAlone(cfg, steps[..n], owner);
      PollsStayOwned(cfg, steps[..n], owner);
      DispatchSnoc(cfg, steps[..n], steps[n], owner);
      assert steps == steps[..n] + [steps[n]];
    }
  }
}
