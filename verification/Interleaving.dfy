/** The ingester as one of several programs on the shared tables: its calls of
    Apply become statements, and whatever the others do in between, its
    source's rows are those of Lifecycle.Run. */
module Interleaving {
  import opened Types
  import opened Deltas
  import opened Tables
  import opened Lifecycle
  import opened Clearing
  import opened SharedTables

  /** The surrogate id the database offers for the i-th incident of a poll. */
  type Numbering = (int, nat) -> int

  /** The k-th statement of an authoritative poll that meets no fault. */
  function StatementAt(a: Attempt, n: nat, k: nat, ids: Numbering): Statement
    requires 0 < k <= Finished(a.r)
  {
    var r := a.r;
    if k == 1 then StartPoll(r, a.pollId, Some(PENDING))
    else if k <= Missing(r) then UpsertOne(r.incidents[k - 2], a.pollId, r.startedAt, ids(a.pollId, k - 2))
    else if k == Sweeping(r) then MarkAbsent(r.source, r.startedAt, Ids(r.incidents))
    else if k == Recording(r) then Sweep(r.source, n)
    else if k == Succeeding(r) then RecordSwept(r.source, a.pollId)
    else EndPoll(r.source, a.pollId, true, None)
  }

  function FirstStatements(a: Attempt, n: nat, k: nat, ids: Numbering): seq<Statement>
    requires k <= Finished(a.r)
    decreases k
  {
    if k == 0 then [] else FirstStatements(a, n, k - 1, ids) + [StatementAt(a, n, k, ids)]
  }

  /** The statements one call of Apply gets through, given its source's rows. */
  ghost function Statements(db: Db, a: Attempt, n: nat, ids: Numbering): seq<Statement> {
    if !a.r.Success() then
      if a.fault.FaultAt? && a.fault.k == 0 && !a.fault.landed then []
      else [StartPoll(a.r, a.pollId, if a.r.err.Some? then NullIfEmpty(a.r.err.value) else None)]
    else
      FirstStatements(a, n, Reached(db, a, n), ids)
      + if Stops(db, a, n) && 0 < a.fault.k < Succeeding(a.r) && a.fault.marked
        then [EndPoll(a.r.source, a.pollId, false, NullIfEmpty(a.fault.message))] else []
  }

  /** The ingester's statements over a whole run. */
  ghost function Trace(h: seq<Attempt>, n: nat, ids: Numbering): seq<Statement> {
    if h == [] then []
    else
      var before := h[..|h| - 1];
      Trace(before, n, ids) + Statements(Run(before, n), h[|h| - 1], n, ids)
  }

  /** After k statements the tables are what the lifecycle says, and from the
      sweep on the ingester holds what the sweep cleared. */
  ghost predicate Standing(t: Shared, db: Db, a: Attempt, n: nat, k: nat)
    requires k <= Finished(a.r)
  {
    && t.db == After(db, a, n, k)
    && (k >= Recording(a.r) ==> Part(t.swept, a.r.source) == ClearedBy(db, a, n))
  }

  lemma SweptIsCleared(swept: map<Key, Time>, db: Db, source: string, n: nat)
    ensures Part(Others(swept, source) + Sweepable(db, source, n), source) == Sweepable(db, source, n)
  {
  }

  lemma WriteIsIssue(db: Db, swept: map<Key, Time>, a: Attempt, n: nat, k: nat, ids: Numbering)
    requires 0 < k <= Finished(a.r)
    ensures Write(db, swept, StatementAt(a, n, k, ids))
         == Issue(db, a, n, k, if k == Succeeding(a.r) then swept else map[])
  {
  }

  lemma StatementSource(a: Attempt, n: nat, k: nat, ids: Numbering)
    requires 0 < k <= Finished(a.r) && Proper(a, a.r.source)
    ensures StatementAt(a, n, k, ids).Source() == a.r.source
    ensures StatementAt(a, n, k, ids).Sweep? <==> k == Recording(a.r)
  {
    if 1 < k <= Missing(a.r) {
      assert a.r.incidents[k - 2] in a.r.incidents;
    }
  }

  lemma StandingStep(t: Shared, db: Db, a: Attempt, n: nat, k: nat, ids: Numbering, r: Shared)
    requires 0 < k <= Finished(a.r) && Standing(t, db, a, n, k - 1) && Proper(a, a.r.source)
    requires r == Exec(t, StatementAt(a, n, k, ids))
    ensures Standing(r, db, a, n, k)
  {
    StatementSource(a, n, k, ids);
    WriteIsIssue(t.db, Part(t.swept, a.r.source), a, n, k, ids);
    if k == Recording(a.r) {
      SweptIsCleared(t.swept, t.db, a.r.source, n);
    }
  }

  lemma {:induction false} FirstStatementsStand(t: Shared, a: Attempt, n: nat, k: nat, ids: Numbering, r: Shared)
    requires k <= Finished(a.r) && Proper(a, a.r.source) && r == ExecFrom(t, FirstStatements(a, n, k, ids))
    ensures Standing(r, t.db, a, n, k)
    decreases k
  {
    if k > 0 {
      var before := FirstStatements(a, n, k - 1, ids);
      FirstStatementsStand(t, a, n, k - 1, ids, ExecFrom(t, before));
      ExecFromSnoc(t, before, StatementAt(a, n, k, ids));
      StandingStep(ExecFrom(t, before), t.db, a, n, k, ids, r);
    }
  }

  /** One call of Apply does to the tables what its statements do. */
  lemma ApplyIsStatements(t: Shared, a: Attempt, n: nat, ids: Numbering)
    requires Proper(a, a.r.source)
    ensures ExecFrom(t, Statements(t.db, a, n, ids)).db == Apply(t.db, a, n)
  {
    if !a.r.Success() {
      if a.fault.FaultAt? && a.fault.k == 0 && !a.fault.landed {
      } else {
        ExecFromSnoc(t, [], StartPoll(a.r, a.pollId, if a.r.err.Some? then NullIfEmpty(a.r.err.value) else None));
      }
    } else {
      var first := FirstStatements(a, n, Reached(t.db, a, n), ids);
      FirstStatementsStand(t, a, n, Reached(t.db, a, n), ids, ExecFrom(t, first));
      if Stops(t.db, a, n) && 0 < a.fault.k < Succeeding(a.r) && a.fault.marked {
        ExecFromSnoc(t, first, EndPoll(a.r.source, a.pollId, false, NullIfEmpty(a.fault.message)));
      } else {
        assert first + [] == first;
      }
    }
  }

  lemma {:induction false} RunIsTrace(h: seq<Attempt>, n: nat, ids: Numbering, source: string)
    requires forall i | 0 <= i < |h| :: Proper(h[i], source)
    ensures ExecAll(Trace(h, n, ids)).db == Run(h, n)
  {
    if h != [] {
      var before, a := h[..|h| - 1], h[|h| - 1];
      RunIsTrace(before, n, ids, source);
      var t := ExecAll(Trace(before, n, ids));
      ApplyIsStatements(t, a, n, ids);
      FoldAppend(Exec, Start, Trace(before, n, ids), Statements(t.db, a, n, ids));
    }
  }

  /** However the statements of the worker, the janitor and other ingesters fall
      between the ingester's, the rows of its source are those of its own run. */
  lemma IngesterRunsAsIfAlone(ss: seq<Statement>, owner: int -> string, h: seq<Attempt>, n: nat, ids: Numbering,
                              source: string)
    requires forall s | s in ss :: Owned(s, owner)
    requires forall i | 0 <= i < |h| :: Proper(h[i], source)
    requires Only(ss, source) == Trace(h, n, ids)
    ensures RowsOfSource(ExecAll(ss).db, source) == Run(h, n)
  {
    SourcesDoNotInterfere(ss, owner, source);
    RunIsTrace(h, n, ids, source);
  }

  /** So the clearing rule holds on the shared tables: an active incident the
      next poll does not list is swept exactly when n succeeded polls of its
      source in a row had already missed it, whatever else ran meanwhile. */
  lemma SharedSweepIsExact(ss: seq<Statement>, owner: int -> string, h: seq<Attempt>, a: Attempt, n: nat,
                           ids: Numbering, source: string, key: Key)
    requires forall s | s in ss :: Owned(s, owner)
    requires WellFormed(h + [a], source) && Only(ss, source) == Trace(h, n, ids)
    requires key in ExecAll(ss).db.incidents && key.source == source
    ensures key in ClearedBy(RowsOfSource(ExecAll(ss).db, source), a, n) <==>
      && ExecAll(ss).db.incidents[key].clearedAt.None?
      && key.id !in Ids(a.r.incidents)
      && MissRun(h, n, key) >= n
  {
    assert forall i | 0 <= i < |h| :: h[i] == (h + [a])[i];
    assert forall i | 0 <= i < |h| :: Proper((h + [a])[i], source);
    IngesterRunsAsIfAlone(ss, owner, h, n, ids, source);
    ClearedExactly(h, a, n, source, key);
    assert RowsOfSource(ExecAll(ss).db, source).incidents[key] == ExecAll(ss).db.incidents[key];
  }
}
