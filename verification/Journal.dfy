/** The grammar and the chronology of incident_events, and how the clearing
    columns of the row agree with them, in every reachable state. */
module Journal {
  import opened Types
  import opened Deltas
  import opened Tables
  import opened Lifecycle
  import opened Clearing

  /** The last lifecycle event, updates aside, is not a clear. */
  ghost predicate IsOpen(log: seq<BagEvent>) {
    if log == [] then false
    else match log[|log| - 1].kind
      case Created => true
      case Reopened => true
      case Cleared => false
      case Updated => IsOpen(log[..|log| - 1])
  }

  /** created once and first; updated and cleared only while open. */
  ghost predicate Grammar(log: seq<BagEvent>) {
    if log == [] then true
    else
      var before := log[..|log| - 1];
      && Grammar(before)
      && match log[|log| - 1].kind
         case Created => before == []
         case Reopened => before != []
         case Updated => IsOpen(before)
         case Cleared => IsOpen(before)
  }

  /** Besides, reopened only while closed: clears and reopenings alternate. */
  ghost predicate Alternates(log: seq<BagEvent>) {
    if log == [] then true
    else
      var before := log[..|log| - 1];
      Alternates(before) && (log[|log| - 1].kind == Reopened ==> !IsOpen(before))
  }

  ghost function Reopens(log: seq<BagEvent>): nat {
    if log == [] then 0 else Reopens(log[..|log| - 1]) + if log[|log| - 1].kind == Reopened then 1 else 0
  }

  ghost predicate Chronological(log: seq<BagEvent>) {
    forall i, j | 0 <= i < j < |log| :: log[i].at <= log[j].at
  }

  ghost predicate NotAfter(log: seq<BagEvent>, row: IncidentRow) {
    forall e | e in log :: e.at <= row.lastSeenAt || (row.clearedAt.Some? && e.at <= row.clearedAt.value)
  }

  /** An incident's row and its log tell the same story. */
  ghost predicate RowLogOk(row: Option<IncidentRow>, log: seq<BagEvent>) {
    && (row.Some? <==> log != [])
    && (row.Some? ==>
          && Grammar(log) && row.value.reopenCount == Reopens(log)
          && (!IsOpen(log) ==> row.value.clearedAt.Some?)
          && Chronological(log) && NotAfter(log, row.value))
  }

  ghost predicate LogOk(db: Db, key: Key) {
    RowLogOk(if key in db.incidents then Some(db.incidents[key]) else None, db.Log(key))
  }

  ghost predicate LogsOk(db: Db) {
    forall key :: LogOk(db, key)
  }

  lemma Appended(log: seq<BagEvent>, e: BagEvent)
    ensures (log + [e])[..|log|] == log
    ensures Reopens(log + [e]) == Reopens(log) + if e.kind == Reopened then 1 else 0
    ensures Chronological(log) && (forall x | x in log :: x.at <= e.at) ==> Chronological(log + [e])
  {
    assert (log + [e])[..|log|] == log;
    if Chronological(log) && (forall x | x in log :: x.at <= e.at) {
      forall i, j | 0 <= i < j < |log + [e]| ensures (log + [e])[i].at <= (log + [e])[j].at {
        assert log[i] in log;
      }
    }
  }

  // ---------------------------------------------------------------- statements

  lemma UpsertKeepsLogs(db: Db, inc: Incident, pollId: int, t: Time)
    requires LogsOk(db)
    requires inc.key in db.incidents ==> RowOk(db.incidents[inc.key], db.polls, t)
    ensures LogsOk(Upsert(db, inc, pollId, t))
  {
    var e := Upsert(db, inc, pollId, t);
    forall key ensures LogOk(e, key) {
      assert LogOk(db, key);
      if key == inc.key {
        UpsertedLog(db, inc, pollId, t);
      } else {
        assert e.Log(key) == db.Log(key);
      }
    }
  }

  lemma NewsShape(prior: Option<Prior>, inc: Incident, pollId: int, t: Time)
    ensures var news := UpsertEvents(prior, inc, pollId, t);
      && |news| <= 1
      && (news == [] ==> prior.Some? && prior.value.clearedAt.None?)
      && (news != [] ==>
            && news[0].at == t && news[0].kind != Cleared
            && (news[0].kind == Created <==> prior.None?)
            && (news[0].kind == Reopened <==> prior.Some? && prior.value.clearedAt.Some?))
  {
  }

  lemma LogGrows(log: seq<BagEvent>, prior: IncidentRow, e: BagEvent, row: IncidentRow, t: Time)
    requires log != [] && Grammar(log) && prior.reopenCount == Reopens(log)
    requires !IsOpen(log) ==> prior.clearedAt.Some?
    requires Chronological(log) && NotAfter(log, prior)
    requires prior.lastSeenAt <= t && (prior.clearedAt.Some? ==> prior.clearedAt.value <= t)
    requires e.at == t && e.kind in {Updated, Reopened} && (e.kind == Reopened <==> prior.clearedAt.Some?)
    requires row.lastSeenAt == t && row.clearedAt.None?
    requires row.reopenCount == prior.reopenCount + if prior.clearedAt.Some? then 1 else 0
    ensures Grammar(log + [e]) && row.reopenCount == Reopens(log + [e]) && IsOpen(log + [e])
    ensures Chronological(log + [e]) && NotAfter(log + [e], row)
  {
    Appended(log, e);
  }

  lemma UpsertedLog(db: Db, inc: Incident, pollId: int, t: Time)
    requires LogOk(db, inc.key)
    requires inc.key in db.incidents ==> RowOk(db.incidents[inc.key], db.polls, t)
    ensures LogOk(Upsert(db, inc, pollId, t), inc.key)
  {
    var row := if inc.key in db.incidents then Some(db.incidents[inc.key]) else None;
    var prior := db.PriorOf(inc.key);
    var news := UpsertEvents(prior, inc, pollId, t);
    NewsShape(prior, inc, pollId, t);
    UpsertedRowLog(row, db.Log(inc.key), Snapshot(row, inc, pollId, t), news, t);
    assert Upsert(db, inc, pollId, t).Log(inc.key) == db.Log(inc.key) + news;
  }

  /** The row an upsert writes and the events it adds go together. */
  lemma UpsertedRowLog(prior: Option<IncidentRow>, log: seq<BagEvent>, row: IncidentRow, news: seq<BagEvent>, t: Time)
    requires RowLogOk(prior, log)
    requires prior.Some? ==>
      prior.value.lastSeenAt <= t && (prior.value.clearedAt.Some? ==> prior.value.clearedAt.value <= t)
    requires row.lastSeenAt == t && row.clearedAt.None?
    requires row.reopenCount
          == if prior.None? then 0 else prior.value.reopenCount + if prior.value.clearedAt.Some? then 1 else 0
    requires |news| <= 1 && (news == [] ==> prior.Some? && prior.value.clearedAt.None?)
    requires news != [] ==>
      && news[0].at == t && news[0].kind != Cleared
      && (news[0].kind == Created <==> prior.None?)
      && (news[0].kind == Reopened <==> prior.Some? && prior.value.clearedAt.Some?)
    ensures RowLogOk(Some(row), log + news)
  {
    if news == [] {
      assert log + news == log;
    } else if prior.None? {
      assert log + news == [news[0]];
      FirstEvent(row, news[0]);
    } else {
      assert log + news == log + [news[0]];
      LogGrows(log, prior.value, news[0], row, t);
    }
  }

  lemma FirstEvent(row: IncidentRow, e: BagEvent)
    requires e.kind == Created && e.at == row.lastSeenAt && row.clearedAt.None? && row.reopenCount == 0
    ensures RowLogOk(Some(row), [e])
  {
    assert [e][..0] == [];
  }

  lemma RecordedLogs(before: Db, db: Db, cleared: map<Key, Time>, pollId: int)
    requires LogsOk(before) && LogsOk(db) && before.events == db.events
    requires forall key | key in cleared :: key in before.incidents && before.incidents[key].clearedAt.None?
    requires forall key | key in cleared :: key in db.incidents && db.incidents[key].clearedAt == Some(cleared[key])
    requires forall key | key in cleared :: db.incidents[key].lastSeenAt < cleared[key]
    ensures LogsOk(RecordClearedEvents(db, cleared, pollId))
  {
    var e := RecordClearedEvents(db, cleared, pollId);
    forall key ensures LogOk(e, key) {
      assert LogOk(before, key) && LogOk(db, key);
      if key in cleared {
        assert before.Log(key) == db.Log(key);
        assert e.Log(key) == db.Log(key) + [ClearedEvent(cleared[key], pollId)];
        ClearedRowLog(before.incidents[key], db.incidents[key], db.Log(key), ClearedEvent(cleared[key], pollId));
      } else {
        assert e.Log(key) == db.Log(key);
      }
    }
  }

  lemma ClearedRowLog(before: IncidentRow, row: IncidentRow, log: seq<BagEvent>, e: BagEvent)
    requires RowLogOk(Some(before), log) && RowLogOk(Some(row), log)
    requires before.clearedAt.None? && row.clearedAt == Some(e.at) && row.lastSeenAt < e.at && e.kind == Cleared
    ensures RowLogOk(Some(row), log + [e])
  {
    Appended(log, e);
  }

  lemma SweepKeepsLogs(db: Db, source: string, n: nat, t: Time, id: int)
    requires LogsOk(db) && Inv(db, source, t, id)
    ensures LogsOk(SweepCleared(db, source, n))
  {
    var e := SweepCleared(db, source, n);
    forall key ensures LogOk(e, key) {
      assert LogOk(db, key) && e.Log(key) == db.Log(key);
      if key in db.incidents {
        assert RowOk(db.incidents[key], db.polls, t);
      }
    }
  }

  // ---------------------------------------------------------------- runs

  /** Statements that touch neither the events nor the columns they depend on. */
  ghost predicate SameForLogs(d: Db, e: Db) {
    && d.events == e.events && d.incidents.Keys == e.incidents.Keys
    && forall key | key in d.incidents ::
      && d.incidents[key].lastSeenAt == e.incidents[key].lastSeenAt
      && d.incidents[key].clearedAt == e.incidents[key].clearedAt
      && d.incidents[key].reopenCount == e.incidents[key].reopenCount
  }

  lemma SameLogs(d: Db, e: Db)
    requires SameForLogs(d, e) && LogsOk(d)
    ensures LogsOk(e)
  {
    forall key ensures LogOk(e, key) {
      assert LogOk(d, key) && d.Log(key) == e.Log(key);
    }
  }

  lemma QuietStatement(d: Db, a: Attempt, n: nat, k: nat)
    requires k == 1 || k == Sweeping(a.r) || k == Finished(a.r)
    ensures SameForLogs(d, Issue(d, a, n, k, map[]))
  {
  }

  lemma RecordingKeepsLogs(db: Db, a: Attempt, n: nat)
    requires Proper(a, a.r.source) && Inv(db, a.r.source, a.r.startedAt - 1, a.pollId - 1)
    requires LogsOk(After(db, a, n, Sweeping(a.r))) && LogsOk(After(db, a, n, Recording(a.r)))
    ensures LogsOk(After(db, a, n, Succeeding(a.r)))
  {
    var b, d := After(db, a, n, Sweeping(a.r)), After(db, a, n, Recording(a.r));
    AfterKeepsInv(db, a, n, Recording(a.r));
    assert d == SweepCleared(b, a.r.source, n);
    forall key | key in ClearedBy(db, a, n)
      ensures d.incidents[key].lastSeenAt < ClearedBy(db, a, n)[key]
    {
      assert RowOk(d.incidents[key], d.polls, a.r.startedAt);
    }
    RecordedLogs(b, d, ClearedBy(db, a, n), a.pollId);
  }

  lemma IssueKeepsLogs(d: Db, e: Db, a: Attempt, n: nat, k: nat)
    requires LogsOk(d) && Inv(d, a.r.source, a.r.startedAt, a.pollId)
    requires 0 < k <= Finished(a.r) && k != Succeeding(a.r) && e == Issue(d, a, n, k, map[])
    ensures LogsOk(e)
  {
    if 1 < k <= Missing(a.r) {
      UpsertKeepsLogs(d, a.r.incidents[k - 2], a.pollId, a.r.startedAt);
    } else if k == Recording(a.r) {
      SweepKeepsLogs(d, a.r.source, n, a.r.startedAt, a.pollId);
    } else {
      QuietStatement(d, a, n, k);
      SameLogs(d, e);
    }
  }

  lemma {:induction false} LogsUntilSweep(db: Db, a: Attempt, n: nat, k: nat, d: Db)
    requires Proper(a, a.r.source) && Inv(db, a.r.source, a.r.startedAt - 1, a.pollId - 1)
    requires LogsOk(db) && k <= Recording(a.r) && d == After(db, a, n, k)
    ensures LogsOk(d)
  {
    if k > 0 {
      var before := After(db, a, n, k - 1);
      LogsUntilSweep(db, a, n, k - 1, before);
      AfterInv(db, a, n, k - 1);
      IssueKeepsLogs(before, d, a, n, k);
    }
  }

  lemma AfterKeepsLogs(db: Db, a: Attempt, n: nat, k: nat)
    requires Proper(a, a.r.source) && Inv(db, a.r.source, a.r.startedAt - 1, a.pollId - 1)
    requires LogsOk(db) && k <= Finished(a.r)
    ensures LogsOk(After(db, a, n, k))
  {
    if k <= Recording(a.r) {
      LogsUntilSweep(db, a, n, k, After(db, a, n, k));
    } else {
      LogsUntilSweep(db, a, n, Sweeping(a.r), After(db, a, n, Sweeping(a.r)));
      LogsUntilSweep(db, a, n, Recording(a.r), After(db, a, n, Recording(a.r)));
      RecordingKeepsLogs(db, a, n);
      if k == Finished(a.r) {
        AfterInv(db, a, n, Succeeding(a.r));
        IssueKeepsLogs(After(db, a, n, Succeeding(a.r)), After(db, a, n, k), a, n, k);
      }
    }
  }

  lemma {:induction false} RunLogs(h: seq<Attempt>, n: nat, source: string)
    requires WellFormed(h, source)
    ensures LogsOk(Run(h, n))
  {
    if h != [] {
      var g, a := h[..|h| - 1], h[|h| - 1];
      assert h == g + [a];
      ReachableFacts(g, a, n, source);
      RunLogs(g, n, source);
      ApplyKeepsLogs(Run(g, n), a, n);
    }
  }

  lemma ApplyKeepsLogs(db: Db, a: Attempt, n: nat)
    requires Proper(a, a.r.source) && Inv(db, a.r.source, a.r.startedAt - 1, a.pollId - 1) && LogsOk(db)
    ensures LogsOk(Apply(db, a, n))
  {
    var e := Apply(db, a, n);
    if a.r.Success() {
      var k := Reached(db, a, n);
      AfterKeepsLogs(db, a, n, k);
      SameLogs(After(db, a, n, k), e);
    } else {
      SameLogs(db, e);
    }
  }

  // ---------------------------------------------------------------- theorems

  /** In every reachable state, even between two statements of a poll: created
      is the first event and only it, reopen_count counts the reopened events,
      and the log is in chronological order although clears are backdated. */
  lemma EventGrammar(h: seq<Attempt>, a: Attempt, n: nat, source: string, k: nat, key: Key)
    requires WellFormed(h + [a], source) && k <= Finished(a.r)
    requires key in After(Run(h, n), a, n, k).incidents
    ensures var d := After(Run(h, n), a, n, k); var log := d.Log(key);
      && log != [] && log[0].kind == Created
      && (forall i | 0 < i < |log| :: log[i].kind != Created)
      && d.incidents[key].reopenCount == Reopens(log)
      && Chronological(log)
      && (forall i, j | 0 <= i < j < |log| && log[i].kind == Cleared && log[j].kind == Cleared ::
            exists m :: i < m < j && log[m].kind == Reopened)
  {
    ReachableFacts(h, a, n, source);
    RunLogs(h, n, source);
    AfterKeepsLogs(Run(h, n), a, n, k);
    assert LogOk(After(Run(h, n), a, n, k), key);
    GrammarMeans(After(Run(h, n), a, n, k).Log(key));
  }

  /** A reading order lists every event once, by time and then by id; ids grow
      in the order of insertion. */
  ghost predicate ReadingOrder(log: seq<BagEvent>, order: seq<nat>) {
    && |order| == |log|
    && (forall x | 0 <= x < |order| :: order[x] < |log|)
    && (forall x, y | 0 <= x < y < |order| ::
          var e, f := log[order[x]], log[order[y]];
          e.at < f.at || (e.at == f.at && order[x] < order[y]))
  }

  lemma {:induction false} UpwardFrom(order: seq<nat>, x: nat)
    requires x < |order| && forall a, b | 0 <= a < b < |order| :: order[a] < order[b]
    ensures x <= order[x] && order[|order| - 1] >= order[x] + (|order| - 1 - x)
    decreases |order| - x
  {
    Upward(order, x);
    if x + 1 < |order| {
      UpwardFrom(order, x + 1);
    }
  }

  lemma {:induction false} Upward(order: seq<nat>, x: nat)
    requires x < |order| && forall a, b | 0 <= a < b < |order| :: order[a] < order[b]
    ensures x <= order[x]
  {
    if x > 0 {
      Upward(order, x - 1);
    }
  }

  /** Reading an incident's events by time and id gives the order in which they
      were written, although a clear carries the time the incident went missing. */
  lemma ReadInOrderWritten(h: seq<Attempt>, a: Attempt, n: nat, source: string, k: nat, key: Key, order: seq<nat>)
    requires WellFormed(h + [a], source) && k <= Finished(a.r)
    requires key in After(Run(h, n), a, n, k).incidents
    requires ReadingOrder(After(Run(h, n), a, n, k).Log(key), order)
    ensures forall x | 0 <= x < |order| :: order[x] == x
  {
    EventGrammar(h, a, n, source, k, key);
    InOrderWritten(After(Run(h, n), a, n, k).Log(key), order);
  }

  lemma InOrderWritten(log: seq<BagEvent>, order: seq<nat>)
    requires Chronological(log) && ReadingOrder(log, order)
    ensures forall x | 0 <= x < |order| :: order[x] == x
  {
    assert forall x, y | 0 <= x < y < |order| :: order[x] < order[y];
    forall x | 0 <= x < |order| ensures order[x] == x {
      UpwardFrom(order, x);
    }
  }

  lemma {:induction false} GrammarMeans(log: seq<BagEvent>)
    requires Grammar(log)
    ensures log != [] ==> log[0].kind == Created
    ensures forall i | 0 < i < |log| :: log[i].kind != Created
    ensures forall i, j | 0 <= i < j < |log| && log[i].kind == Cleared && log[j].kind == Cleared ::
      exists m :: i < m < j && log[m].kind == Reopened
    ensures IsOpen(log) ==> forall i | 0 <= i < |log| && log[i].kind == Cleared ::
      exists m :: i < m < |log| && log[m].kind == Reopened
  {
    if log != [] {
      var before := log[..|log| - 1];
      GrammarMeans(before);
      assert forall i | 0 <= i < |before| :: before[i] == log[i];
    }
  }

  /** The clearing columns in every reachable state. */
  lemma ClearingColumns(h: seq<Attempt>, a: Attempt, n: nat, source: string, k: nat, key: Key)
    requires WellFormed(h + [a], source) && k <= Finished(a.r)
    requires key in After(Run(h, n), a, n, k).incidents
    ensures var row := After(Run(h, n), a, n, k).incidents[key];
      && (row.clearedAt.Some? ==> row.clearedAt == row.missingSince)
      && (row.missingSince.Some? ==> row.lastSeenAt < row.missingSince.value <= a.r.startedAt)
  {
    ReachableFacts(h, a, n, source);
    AfterKeepsInv(Run(h, n), a, n, k);
    assert RowOk(After(Run(h, n), a, n, k).incidents[key], After(Run(h, n), a, n, k).polls, a.r.startedAt);
  }

  // ---------------------------------------------------------------- alternation

  /** This attempt swept the incident to cleared but wrote no cleared event. */
  ghost predicate LosesClear(db: Db, a: Attempt, n: nat, key: Key) {
    a.r.Success() && Reached(db, a, n) == Recording(a.r) && key in ClearedBy(db, a, n)
  }

  ghost predicate LostClear(h: seq<Attempt>, n: nat, key: Key) {
    h != [] && (LostClear(h[..|h| - 1], n, key) || LosesClear(Run(h[..|h| - 1], n), h[|h| - 1], n, key))
  }

  /** Clears and reopenings alternate so far, and the row agrees which is due. */
  ghost predicate Balanced(db: Db, key: Key) {
    && Alternates(db.Log(key))
    && (key in db.incidents ==> (IsOpen(db.Log(key)) <==> db.incidents[key].clearedAt.None?))
  }

  lemma {:induction false} BalancedAfter(db: Db, a: Attempt, n: nat, k: nat, key: Key)
    requires Proper(a, a.r.source) && Inv(db, a.r.source, a.r.startedAt - 1, a.pollId - 1)
    requires LogsOk(db) && k <= Finished(a.r)
    ensures Balanced(After(db, a, n, k), key) <==>
      Balanced(db, key) && !(k == Recording(a.r) && key in ClearedBy(db, a, n))
  {
    if k > 0 {
      var j := if k == Succeeding(a.r) then Sweeping(a.r) else k - 1;
      BalancedAfter(db, a, n, j, key);
      AfterKeepsLogs(db, a, n, j);
      assert LogOk(After(db, a, n, j), key);
      BalancedStep(db, a, n, k, j, key);
    }
  }

  lemma BalancedIssue(d: Db, a: Attempt, n: nat, k: nat, key: Key)
    requires 0 < k <= Finished(a.r) && k != Succeeding(a.r) && LogOk(d, key)
    ensures Balanced(Issue(d, a, n, k, map[]), key) <==>
      Balanced(d, key) && !(k == Recording(a.r) && key in Sweepable(d, a.r.source, n))
  {
    if k == Recording(a.r) {
      BalancedSweep(d, a.r.source, n, key);
    } else if 1 < k <= Missing(a.r) {
      BalancedUpsert(d, a.r.incidents[k - 2], a.pollId, a.r.startedAt, key);
    } else {
      QuietStatement(d, a, n, k);
      assert d.Log(key) == Issue(d, a, n, k, map[]).Log(key);
    }
  }

  lemma BalancedStep(db: Db, a: Attempt, n: nat, k: nat, j: nat, key: Key)
    requires 0 < k <= Finished(a.r) && j == if k == Succeeding(a.r) then Sweeping(a.r) else k - 1
    requires LogOk(After(db, a, n, j), key)
    ensures Balanced(After(db, a, n, k), key) <==>
      Balanced(After(db, a, n, j), key) && !(k == Recording(a.r) && key in ClearedBy(db, a, n))
  {
    if k == Succeeding(a.r) {
      BalancedRecording(After(db, a, n, j), a.r.source, n, a.pollId, key);
    } else {
      BalancedIssue(After(db, a, n, j), a, n, k, key);
    }
  }

  lemma BalancedSweep(b: Db, source: string, n: nat, key: Key)
    requires LogOk(b, key)
    ensures Balanced(SweepCleared(b, source, n), key) <==> Balanced(b, key) && key !in Sweepable(b, source, n)
  {
    assert SweepCleared(b, source, n).Log(key) == b.Log(key);
  }

  /** Recording the events restores the balance the sweep upset. */
  lemma BalancedRecording(b: Db, source: string, n: nat, pollId: int, key: Key)
    requires LogOk(b, key)
    ensures Balanced(RecordClearedEvents(SweepCleared(b, source, n), Sweepable(b, source, n), pollId), key)
       <==> Balanced(b, key)
  {
    var cleared := Sweepable(b, source, n);
    var d := SweepCleared(b, source, n);
    var e := RecordClearedEvents(d, cleared, pollId);
    if key in cleared {
      assert e.Log(key) == b.Log(key) + [ClearedEvent(cleared[key], pollId)];
      BalancedClear(b.incidents[key], e.incidents[key], b.Log(key), ClearedEvent(cleared[key], pollId));
    } else {
      assert e.Log(key) == b.Log(key);
    }
  }

  ghost predicate RowBalanced(row: IncidentRow, log: seq<BagEvent>) {
    Alternates(log) && (IsOpen(log) <==> row.clearedAt.None?)
  }

  lemma BalancedClear(before: IncidentRow, row: IncidentRow, log: seq<BagEvent>, e: BagEvent)
    requires RowLogOk(Some(before), log) && before.clearedAt.None? && row.clearedAt.Some? && e.kind == Cleared
    ensures RowBalanced(row, log + [e]) <==> RowBalanced(before, log)
  {
    Appended(log, e);
  }

  lemma BalancedLog(log: seq<BagEvent>, e: BagEvent, wasCleared: bool)
    requires log != [] && e.kind in {Updated, Reopened} && (e.kind == Reopened <==> wasCleared)
    requires !IsOpen(log) ==> wasCleared
    ensures Alternates(log + [e]) && IsOpen(log + [e]) <==> Alternates(log) && (IsOpen(log) <==> !wasCleared)
  {
    Appended(log, e);
  }

  lemma BalancedUpsert(db: Db, inc: Incident, pollId: int, t: Time, key: Key)
    requires LogOk(db, key)
    ensures Balanced(Upsert(db, inc, pollId, t), key) <==> Balanced(db, key)
  {
    var e := Upsert(db, inc, pollId, t);
    var log := db.Log(key);
    if key == inc.key {
      var prior := db.PriorOf(key);
      var news := UpsertEvents(prior, inc, pollId, t);
      NewsShape(prior, inc, pollId, t);
      assert e.Log(key) == log + news;
      if news == [] {
        assert log + news == log;
      } else if prior.None? {
        assert log + news == [news[0]] && Alternates([news[0]]) && IsOpen([news[0]]);
      } else {
        assert log + news == log + [news[0]];
        BalancedLog(log, news[0], prior.value.clearedAt.Some?);
      }
    } else {
      assert e.Log(key) == log;
    }
  }

  /** After any run, clears and reopenings of an incident strictly alternate and
      its row agrees, if and only if no poll died between sweeping it and
      recording the cleared event. */
  lemma {:induction false} AlternationIff(h: seq<Attempt>, n: nat, source: string, key: Key)
    requires WellFormed(h, source)
    ensures Balanced(Run(h, n), key) <==> !LostClear(h, n, key)
  {
    if h != [] {
      var g, a := h[..|h| - 1], h[|h| - 1];
      assert h == g + [a];
      ReachableFacts(g, a, n, source);
      RunLogs(g, n, source);
      AlternationIff(g, n, source, key);
      BalancedApply(Run(g, n), a, n, key);
    }
  }

  lemma BalancedApply(db: Db, a: Attempt, n: nat, key: Key)
    requires Proper(a, a.r.source) && Inv(db, a.r.source, a.r.startedAt - 1, a.pollId - 1) && LogsOk(db)
    ensures Balanced(Apply(db, a, n), key) <==> Balanced(db, key) && !LosesClear(db, a, n, key)
  {
    if a.r.Success() {
      BalancedAfter(db, a, n, Reached(db, a, n), key);
    }
  }

  lemma {:induction false} FaultFreeLosesNothing(h: seq<Attempt>, n: nat, key: Key)
    requires forall i | 0 <= i < |h| :: h[i].fault.NoFault?
    ensures !LostClear(h, n, key)
  {
    if h != [] {
      FaultFreeLosesNothing(h[..|h| - 1], n, key);
    }
  }

  // ---------------------------------------------------------------- a lost clear can happen

  function PollOf(source: string, t: int, incidents: seq<Incident>, fault: Fault): Attempt {
    Attempt(PollResult(source, t, 200, incidents, "", AuthoritativeSuccess, "", None, None), t, fault)
  }

  function Seen(inc: Incident, t: int): Attempt {
    PollOf(inc.key.source, t, [inc], NoFault)
  }

  function Missed(source: string, t: int): Attempt {
    PollOf(source, t, [], NoFault)
  }

  /** A miss whose cleared events could not be recorded. */
  function MissedUnrecorded(source: string, t: int): Attempt {
    PollOf(source, t, [], FaultAt(3, false, true, "record cleared events"))
  }

  /** An incident is seen at 0 and missed at 1, ..., m. */
  function SeenThenMissed(inc: Incident, m: nat): seq<Attempt> {
    seq(m + 1, i requires 0 <= i <= m => if i == 0 then Seen(inc, 0) else Missed(inc.key.source, i))
  }

  /** n misses later the next one sweeps the incident but dies before recording
      it, and then the incident is seen again. */
  function LosingRun(inc: Incident, n: nat): seq<Attempt> {
    SeenThenMissed(inc, n) + [MissedUnrecorded(inc.key.source, n + 1)] + [Seen(inc, n + 2)]
  }

  lemma LosingRunAt(inc: Incident, n: nat, i: nat)
    requires i < |LosingRun(inc, n)|
    ensures var a := LosingRun(inc, n)[i]; a.r.startedAt == i && a.pollId == i && Proper(a, inc.key.source)
  {
    var h := SeenThenMissed(inc, n);
    assert |h| == n + 1;
    if i <= n {
      assert LosingRun(inc, n)[i] == h[i];
      assert h[i] == if i == 0 then Seen(inc, 0) else Missed(inc.key.source, i);
    } else if i == n + 1 {
      assert LosingRun(inc, n)[i] == MissedUnrecorded(inc.key.source, n + 1);
    } else {
      assert LosingRun(inc, n)[i] == Seen(inc, n + 2);
    }
  }

  lemma LosingRunIsWellFormed(inc: Incident, n: nat)
    ensures WellFormed(LosingRun(inc, n), inc.key.source)
  {
    forall i | 0 <= i < |LosingRun(inc, n)|
      ensures LosingRun(inc, n)[i].r.startedAt == i && LosingRun(inc, n)[i].pollId == i
      ensures Proper(LosingRun(inc, n)[i], inc.key.source)
    {
      LosingRunAt(inc, n, i);
    }
  }

  /** After the upserts, an incident's log only gains its cleared event. */
  lemma {:induction false} LogAfterUpserts(db: Db, a: Attempt, n: nat, k: nat, key: Key, u: Db, d: Db)
    requires Missing(a.r) <= k <= Finished(a.r) && u == After(db, a, n, Missing(a.r)) && d == After(db, a, n, k)
    requires k >= Succeeding(a.r) ==> key !in ClearedBy(db, a, n)
    ensures d.Log(key) == u.Log(key)
  {
    if k > Missing(a.r) {
      var before := After(db, a, n, k - 1);
      LogAfterUpserts(db, a, n, k - 1, key, u, before);
      QuietIssue(before, a, n, k, if k == Succeeding(a.r) then ClearedBy(db, a, n) else map[], key, d);
    }
  }

  lemma QuietIssue(before: Db, a: Attempt, n: nat, k: nat, cleared: map<Key, Time>, key: Key, d: Db)
    requires Missing(a.r) < k <= Finished(a.r) && d == Issue(before, a, n, k, cleared) && key !in cleared
    ensures d.Log(key) == before.Log(key)
  {
  }

  /** What a poll that lists one incident leaves in its log. */
  lemma SeenLog(db: Db, inc: Incident, t: int, n: nat)
    requires Inv(db, inc.key.source, t - 1, t - 1)
    ensures Apply(db, Seen(inc, t), n).Log(inc.key)
         == db.Log(inc.key) + UpsertEvents(db.PriorOf(inc.key), inc, t, t)
  {
    var a := Seen(inc, t);
    var started, upserted := After(db, a, n, 1), After(db, a, n, 2);
    assert started == InsertPoll(db, a.r, t, false, Some(PENDING));
    assert upserted == Upsert(started, inc, t, t);
    assert started.PriorOf(inc.key) == db.PriorOf(inc.key) && started.Log(inc.key) == db.Log(inc.key);
    SeenIsNotSwept(db, inc, t, n);
    LogAfterUpserts(db, a, n, Finished(a.r), inc.key, upserted, After(db, a, n, Finished(a.r)));
  }

  lemma SeenIsNotSwept(db: Db, inc: Incident, t: int, n: nat)
    requires Inv(db, inc.key.source, t - 1, t - 1)
    ensures inc.key !in ClearedBy(db, Seen(inc, t), n)
  {
    var a := Seen(inc, t);
    var d := After(db, a, n, 2);
    assert a.r.incidents[0] in a.r.incidents && inc.key.id in Ids(a.r.incidents);
    assert d.incidents[inc.key].missingSince.None?;
    assert After(db, a, n, 3) == MarkMissing(d, a.r.source, t, Ids(a.r.incidents));
    assert After(db, a, n, 3).incidents[inc.key].missingSince.None?;
  }

  /** A poll that lists nothing and clears nothing, or stops before recording
      what it cleared, leaves the log alone. */
  lemma MissedLog(db: Db, a: Attempt, n: nat, key: Key)
    requires a.r.Success() && a.r.incidents == []
    requires a.fault.NoFault? || (a.fault.FaultAt? && a.fault.marked && !a.fault.landed && a.fault.k == Recording(a.r)
                                  && ClearedBy(db, a, n) != map[])
    requires a.fault.NoFault? ==> key !in ClearedBy(db, a, n)
    ensures Apply(db, a, n).Log(key) == db.Log(key)
  {
    var k := Reached(db, a, n);
    assert After(db, a, n, 1).Log(key) == db.Log(key);
    LogAfterUpserts(db, a, n, k, key, After(db, a, n, 1), After(db, a, n, k));
  }

  /** Up to n misses the incident stays active and its log is the created event. */
  lemma {:induction false} StillCreated(inc: Incident, n: nat, m: nat)
    requires m <= n
    ensures var db := Run(SeenThenMissed(inc, m), n);
            && inc.key in db.incidents && db.incidents[inc.key].clearedAt.None?
            && MissRun(SeenThenMissed(inc, m), n, inc.key) == m
            && |db.Log(inc.key)| == 1 && db.Log(inc.key)[0].kind == Created
  {
    PrefixIsWellFormed(inc, n, m);
    var h := SeenThenMissed(inc, m);
    if m == 0 {
      FirstSeen(inc, n);
    } else {
      var g, a := SeenThenMissed(inc, m - 1), Missed(inc.key.source, m);
      StillCreated(inc, n, m - 1);
      assert h == g + [a];
      ReachableFacts(g, a, n, inc.key.source);
      OneMoreMiss(g, a, n, inc.key.source, inc.key);
      ClearedExactly(g, a, n, inc.key.source, inc.key);
      MissedLog(Run(g, n), a, n, inc.key);
      assert h[..m] == g && h[m] == a;
    }
  }

  lemma PrefixIsWellFormed(inc: Incident, n: nat, m: nat)
    requires m <= n
    ensures WellFormed(SeenThenMissed(inc, m), inc.key.source)
  {
    LosingRunIsWellFormed(inc, n);
    assert forall i | 0 <= i < |SeenThenMissed(inc, m)| :: SeenThenMissed(inc, m)[i] == LosingRun(inc, n)[i];
  }

  lemma FirstSeen(inc: Incident, n: nat)
    ensures var h := SeenThenMissed(inc, 0);
            var db := Run(h, n);
            && inc.key in db.incidents && db.incidents[inc.key].clearedAt.None? && MissRun(h, n, inc.key) == 0
            && |db.Log(inc.key)| == 1 && db.Log(inc.key)[0].kind == Created
  {
    var h, a := SeenThenMissed(inc, 0), Seen(inc, 0);
    assert h == [a] && h[..0] == [] && [] + [a] == h;
    PrefixIsWellFormed(inc, 0, 0);
    assert a.r.incidents[0].key == inc.key;
    assert Observes(Run([], n), a, n, inc.key);
    JustObserved(h, n, inc.key.source, inc.key);
    ReachableFacts([], a, n, inc.key.source);
    SeenLog(EmptyDb, inc, 0, n);
    assert Run(h, n) == Apply(EmptyDb, a, n);
    NewsShape(None, inc, 0, 0);
  }

  /** For every threshold, the run below loses the clear: the incident was swept
      and is open again, yet its log has a reopening and no clear before it. */
  lemma LostClearHappens(inc: Incident, n: nat)
    ensures WellFormed(LosingRun(inc, n), inc.key.source)
    ensures LostClear(LosingRun(inc, n), n, inc.key)
    ensures !Balanced(Run(LosingRun(inc, n), n), inc.key)
    ensures var log := Run(LosingRun(inc, n), n).Log(inc.key);
            |log| == 2 && log[0].kind == Created && log[1].kind == Reopened
  {
    var source, key := inc.key.source, inc.key;
    var h, a, b := SeenThenMissed(inc, n), MissedUnrecorded(source, n + 1), Seen(inc, n + 2);
    var all := LosingRun(inc, n);
    LosingRunIsWellFormed(inc, n);
    AlternationIff(all, n, source, key);
    assert all == (h + [a]) + [b] && all[..|all| - 1] == h + [a] && (h + [a])[..|h|] == h;
    ReachableFacts(h + [a], b, n, source);
    StillCreated(inc, n, n);
    UnrecordedSweep(h, a, n, source, key);
    SeenLog(Run(h + [a], n), inc, n + 2, n);
    NewsShape(Run(h + [a], n).PriorOf(key), inc, n + 2, n + 2);
  }

  /** A miss that sweeps an incident and stops before recording it. */
  lemma UnrecordedSweep(h: seq<Attempt>, a: Attempt, n: nat, source: string, key: Key)
    requires WellFormed(h + [a], source) && a.r.Success() && a.r.incidents == []
    requires a.fault.FaultAt? && a.fault == FaultAt(Recording(a.r), false, true, a.fault.message)
    requires key in Run(h, n).incidents && Run(h, n).incidents[key].clearedAt.None? && MissRun(h, n, key) >= n
    ensures LosesClear(Run(h, n), a, n, key)
    ensures key in Run(h + [a], n).incidents && Run(h + [a], n).incidents[key].clearedAt.Some?
    ensures Run(h + [a], n).Log(key) == Run(h, n).Log(key)
  {
    ClearedExactly(h, a, n, source, key);
    assert key in ClearedBy(Run(h, n), a, n);
    assert Stops(Run(h, n), a, n);
    MissedLog(Run(h, n), a, n, key);
    assert (h + [a])[..|h|] == h;
    UnrecordedRow(Run(h, n), a, n, key);
  }

  lemma UnrecordedRow(db: Db, a: Attempt, n: nat, key: Key)
    requires a.r.Success() && Stops(db, a, n) && a.fault.FaultAt?
    requires a.fault == FaultAt(Recording(a.r), false, true, a.fault.message)
    requires key in ClearedBy(db, a, n)
    ensures key in Apply(db, a, n).incidents && Apply(db, a, n).incidents[key].clearedAt.Some?
  {
    var d := After(db, a, n, Sweeping(a.r));
    assert After(db, a, n, Recording(a.r)) == SweepCleared(d, a.r.source, n);
  }

  // ---------------------------------------------------------------- which poll wrote an event

  /** The event is this attempt's, which found the tables as db: it names its
      poll. A clear is dated to what its sweep returned; any other event to the
      poll, which listed the incident, and an update tells of some change. */
  ghost predicate WrittenBy(e: BagEvent, db: Db, a: Attempt, n: nat, key: Key) {
    && e.pollId == a.pollId
    && if e.kind.Cleared? then
         key in ClearedBy(db, a, n) && e.at == ClearedBy(db, a, n)[key] && e.delta == ClearedDelta(e.at)
       else
         && e.at == a.r.startedAt && (exists inc :: inc in a.r.incidents && inc.key == key)
         && (e.delta.NoDelta? || (e.delta.Diff? && !e.delta.delta.Empty()))
         && (e.kind.Updated? ==> e.delta.Diff?)
  }

  ghost predicate Adds(l: seq<BagEvent>, m: seq<BagEvent>, db: Db, a: Attempt, n: nat, key: Key) {
    |l| <= |m| && m[..|l|] == l && forall i | |l| <= i < |m| :: WrittenBy(m[i], db, a, n, key)
  }

  lemma NewsWritten(prior: Option<Prior>, inc: Incident, db: Db, a: Attempt, n: nat)
    requires inc in a.r.incidents
    ensures forall e | e in UpsertEvents(prior, inc, a.pollId, a.r.startedAt) :: WrittenBy(e, db, a, n, inc.key)
  {
  }

  lemma AppendAdds(l: seq<BagEvent>, news: seq<BagEvent>, db: Db, a: Attempt, n: nat, key: Key)
    requires forall e | e in news :: WrittenBy(e, db, a, n, key)
    ensures Adds(l, l + news, db, a, n, key)
  {
  }

  lemma UpsertLog(d: Db, inc: Incident, pollId: int, t: Time, key: Key)
    ensures Upsert(d, inc, pollId, t).Log(key)
         == d.Log(key) + if key == inc.key then UpsertEvents(d.PriorOf(key), inc, pollId, t) else []
  {
  }

  lemma UpsertAdds(d: Db, db: Db, a: Attempt, n: nat, x: nat, key: Key)
    requires x < |a.r.incidents|
    ensures Adds(d.Log(key), Upsert(d, a.r.incidents[x], a.pollId, a.r.startedAt).Log(key), db, a, n, key)
  {
    var inc := a.r.incidents[x];
    var news := if key == inc.key then UpsertEvents(d.PriorOf(key), inc, a.pollId, a.r.startedAt) else [];
    UpsertLog(d, inc, a.pollId, a.r.startedAt, key);
    NewsWritten(d.PriorOf(key), inc, db, a, n);
    AppendAdds(d.Log(key), news, db, a, n, key);
  }

  lemma RecordAdds(d: Db, db: Db, a: Attempt, n: nat, key: Key)
    ensures Adds(d.Log(key), RecordClearedEvents(d, ClearedBy(db, a, n), a.pollId).Log(key), db, a, n, key)
  {
  }

  lemma IssueAdds(d: Db, db: Db, a: Attempt, n: nat, k: nat, cleared: map<Key, Time>, key: Key)
    requires 0 < k <= Finished(a.r) && (k == Succeeding(a.r) ==> cleared == ClearedBy(db, a, n))
    ensures Adds(d.Log(key), Issue(d, a, n, k, cleared).Log(key), db, a, n, key)
  {
    if 1 < k <= Missing(a.r) {
      UpsertAdds(d, db, a, n, k - 2, key);
    } else if k == Succeeding(a.r) {
      RecordAdds(d, db, a, n, key);
    }
  }

  lemma AddsOnTop(l: seq<BagEvent>, m: seq<BagEvent>, r: seq<BagEvent>, db: Db, a: Attempt, n: nat, key: Key)
    requires Adds(l, m, db, a, n, key) && Adds(m, r, db, a, n, key)
    ensures Adds(l, r, db, a, n, key)
  {
    assert r[..|l|] == m[..|l|];
    assert forall i | |l| <= i < |m| :: r[i] == m[i];
  }

  lemma {:induction false} AfterAdds(db: Db, a: Attempt, n: nat, k: nat, key: Key)
    requires k <= Finished(a.r)
    ensures Adds(db.Log(key), After(db, a, n, k).Log(key), db, a, n, key)
  {
    if k > 0 {
      var before, cleared := After(db, a, n, k - 1), if k == Succeeding(a.r) then ClearedBy(db, a, n) else map[];
      AfterAdds(db, a, n, k - 1, key);
      IssueAdds(before, db, a, n, k, cleared, key);
      AddsOnTop(db.Log(key), before.Log(key), Issue(before, a, n, k, cleared).Log(key), db, a, n, key);
    }
  }

  lemma ApplyAdds(db: Db, a: Attempt, n: nat, key: Key)
    ensures Adds(db.Log(key), Apply(db, a, n).Log(key), db, a, n, key)
  {
    if a.r.Success() {
      AfterAdds(db, a, n, Reached(db, a, n), key);
    }
  }

  ghost predicate WrittenInRun(e: BagEvent, h: seq<Attempt>, i: nat, n: nat, key: Key)
    requires i < |h|
  {
    WrittenBy(e, Run(h[..i], n), h[i], n, key)
  }

  /** at[j] is the attempt that wrote event j. */
  ghost predicate Writers(log: seq<BagEvent>, at: seq<nat>, h: seq<Attempt>, n: nat, key: Key) {
    && |at| == |log|
    && (forall i, j | 0 <= i < j < |at| :: at[i] <= at[j])
    && (forall j | 0 <= j < |at| :: at[j] < |h| && WrittenInRun(log[j], h, at[j], n, key))
  }

  lemma WritersStay(log: seq<BagEvent>, at: seq<nat>, g: seq<Attempt>, a: Attempt, n: nat, key: Key)
    requires Writers(log, at, g, n, key)
    ensures Writers(log, at, g + [a], n, key)
  {
    forall j | 0 <= j < |at| ensures WrittenInRun(log[j], g + [a], at[j], n, key) {
      assert (g + [a])[..at[j]] == g[..at[j]];
      assert WrittenInRun(log[j], g, at[j], n, key);
    }
  }

  lemma WritersGrow(log: seq<BagEvent>, all: seq<BagEvent>, at: seq<nat>, g: seq<Attempt>, a: Attempt, n: nat, key: Key)
    requires Writers(log, at, g, n, key) && Adds(log, all, Run(g, n), a, n, key)
    ensures Writers(all, at + seq(|all| - |log|, _ => |g|), g + [a], n, key)
  {
    WritersStay(log, at, g, a, n, key);
    assert (g + [a])[..|g|] == g;
    var more := at + seq(|all| - |log|, _ => |g|);
    forall j | 0 <= j < |more| ensures more[j] < |g + [a]| && WrittenInRun(all[j], g + [a], more[j], n, key) {
      if j < |log| {
        assert all[j] == all[..|log|][j];
        assert WrittenInRun(log[j], g + [a], at[j], n, key);
      } else {
        assert WrittenBy(all[j], Run(g, n), a, n, key);
      }
    }
  }

  /** Every event on record was written by a poll of the run, and the log is in
      the order of these polls. */
  lemma {:induction false} EventsNameTheirPolls(h: seq<Attempt>, n: nat, key: Key) returns (at: seq<nat>)
    ensures Writers(Run(h, n).Log(key), at, h, n, key)
  {
    if h == [] {
      at := [];
    } else {
      var g, a := h[..|h| - 1], h[|h| - 1];
      assert h == g + [a];
      var before := EventsNameTheirPolls(g, n, key);
      var log, all := Run(g, n).Log(key), Run(h, n).Log(key);
      ApplyAdds(Run(g, n), a, n, key);
      WritersGrow(log, all, before, g, a, n, key);
      at := before + seq(|all| - |log|, _ => |g|);
    }
  }
}
