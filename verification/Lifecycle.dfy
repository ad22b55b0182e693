/** Manager.Apply as a sequence of statements that may stop anywhere, and what
    the clearing rule guarantees in every state such runs can reach. */
module Lifecycle {
  import opened Types
  import opened Deltas
  import opened Tables

  /** What goes wrong in one call of Apply. The k-th statement reports an error;
      it may have taken effect all the same (landed), and the attempt to mark
      the poll failed may be lost too. A crash before statement k is
      FaultAt(k, false, false, _). */
  datatype Fault = NoFault | FaultAt(k: nat, landed: bool, marked: bool, message: string)

  /** One call of Apply: the poll, the id the database hands out, and its luck. */
  datatype Attempt = Attempt(r: PollResult, pollId: int, fault: Fault)

  // Statement numbers: 0 insert the pending poll, 1..m upsert each incident,
  // then mark missing, sweep, record cleared events, mark the poll succeeded.

  function Missing(r: PollResult): nat { |r.incidents| + 1 }
  function Sweeping(r: PollResult): nat { |r.incidents| + 2 }
  function Recording(r: PollResult): nat { |r.incidents| + 3 }
  function Succeeding(r: PollResult): nat { |r.incidents| + 4 }
  function Finished(r: PollResult): nat { |r.incidents| + 5 }

  function Ids(incidents: seq<Incident>): set<string> {
    set inc | inc in incidents :: inc.key.id
  }

  /** Statement k of an authoritative poll; `cleared` is what its sweep cleared. */
  ghost function Issue(d: Db, a: Attempt, n: nat, k: nat, cleared: map<Key, Time>): Db
    requires 0 < k <= Finished(a.r)
  {
    var r := a.r;
    if k == 1 then InsertPoll(d, r, a.pollId, false, Some(PENDING))
    else if k <= Missing(r) then Upsert(d, r.incidents[k - 2], a.pollId, r.startedAt)
    else if k == Sweeping(r) then MarkMissing(d, r.source, r.startedAt, Ids(r.incidents))
    else if k == Recording(r) then SweepCleared(d, r.source, n)
    else if k == Succeeding(r) then RecordClearedEvents(d, cleared, a.pollId)
    else FinishPoll(d, a.pollId, true, None)
  }

  /** The tables after the first k statements of an authoritative poll. */
  ghost function After(db: Db, a: Attempt, n: nat, k: nat): Db
    requires k <= Finished(a.r)
    decreases k, 0
  {
    if k == 0 then db
    else
      Issue(After(db, a, n, k - 1), a, n, k, if k == Succeeding(a.r) then ClearedBy(db, a, n) else map[])
  }

  /** What the sweep of this poll clears, if it gets that far. */
  ghost function ClearedBy(db: Db, a: Attempt, n: nat): map<Key, Time>
    decreases Sweeping(a.r), 1
  {
    Sweepable(After(db, a, n, Sweeping(a.r)), a.r.source, n)
  }

  /** The fault takes effect only at a statement that is issued: with nothing
      cleared, no events are recorded. */
  ghost predicate Stops(db: Db, a: Attempt, n: nat) {
    && a.fault.FaultAt?
    && a.fault.k <= Succeeding(a.r)
    && !(a.fault.k == Recording(a.r) && ClearedBy(db, a, n) == map[])
  }

  /** How many statements take effect before the call returns. */
  ghost function Reached(db: Db, a: Attempt, n: nat): (k: nat)
    ensures k <= Finished(a.r)
  {
    if Stops(db, a, n) then a.fault.k + (if a.fault.landed then 1 else 0) else Finished(a.r)
  }

  ghost function Apply(db: Db, a: Attempt, n: nat): Db {
    if !a.r.Success() then
      if a.fault.FaultAt? && a.fault.k == 0 && !a.fault.landed then db
      else InsertPoll(db, a.r, a.pollId, false, if a.r.err.Some? then NullIfEmpty(a.r.err.value) else None)
    else
      var d := After(db, a, n, Reached(db, a, n));
      if Stops(db, a, n) && 0 < a.fault.k < Succeeding(a.r) && a.fault.marked
      then FinishPoll(d, a.pollId, false, NullIfEmpty(a.fault.message))
      else d
  }

  ghost function Run(h: seq<Attempt>, n: nat): Db {
    if h == [] then EmptyDb else Apply(Run(h[..|h| - 1], n), h[|h| - 1], n)
  }

  /** One ingester for one source: its clock and the poll ids only go forward. */
  ghost predicate WellFormed(h: seq<Attempt>, source: string) {
    && (forall i | 0 <= i < |h| :: Proper(h[i], source))
    && (forall i, j | 0 <= i < j < |h| :: h[i].r.startedAt < h[j].r.startedAt && h[i].pollId < h[j].pollId)
  }

  ghost predicate Proper(a: Attempt, source: string) {
    a.r.source == source && forall inc | inc in a.r.incidents :: inc.key.source == source
  }

  ghost predicate UpTo(h: seq<Attempt>, t: Time, id: int) {
    forall i | 0 <= i < |h| :: h[i].r.startedAt <= t && h[i].pollId <= id
  }

  // ---------------------------------------------------------------- the invariant

  /** What holds of one incident row against the poll log at time t. */
  ghost predicate RowOk(row: IncidentRow, polls: seq<PollRow>, t: Time) {
    && row.lastSeenAt <= t
    && (row.missingSince.Some? ==> row.lastSeenAt < row.missingSince.value <= t)
    && (row.clearedAt.Some? ==> row.clearedAt == row.missingSince)
    && (forall p | p in polls && p.success && p.startedAt > row.lastSeenAt ::
          row.missingSince.Some? && row.missingSince.value <= p.startedAt)
  }

  ghost predicate Inv(db: Db, source: string, t: Time, id: int) {
    && (forall k | k in db.incidents :: k.source == source && RowOk(db.incidents[k], db.polls, t))
    && (forall p | p in db.polls :: p.source == source && p.startedAt <= t && p.pollId <= id)
  }

  /** Inv, sharpened for the state after k statements of attempt a. */
  ghost predicate MidInv(db: Db, a: Attempt, k: nat) {
    && Inv(db, a.r.source, a.r.startedAt, a.pollId)
    && (k < Finished(a.r) ==> forall p | p in db.polls && p.success :: p.startedAt < a.r.startedAt)
    && (forall p | p in db.polls && p.pollId == a.pollId :: p.startedAt == a.r.startedAt)
    && (forall i | 0 <= i < k - 1 && i < |a.r.incidents| ::
          a.r.incidents[i].key in db.incidents && db.incidents[a.r.incidents[i].key].lastSeenAt == a.r.startedAt)
    && (forall key | key in db.incidents && db.incidents[key].lastSeenAt == a.r.startedAt ::
          exists i :: 0 <= i < k - 1 && i < |a.r.incidents| && a.r.incidents[i].key == key)
    && (k > Missing(a.r) ==> forall key | key in db.incidents ::
          db.incidents[key].lastSeenAt == a.r.startedAt || db.incidents[key].missingSince.Some?)
  }

  lemma IssueKeepsInv(d: Db, e: Db, a: Attempt, n: nat, k: nat, cleared: map<Key, Time>)
    requires Proper(a, a.r.source) && 0 < k <= Finished(a.r) && MidInv(d, a, k - 1)
    requires e == Issue(d, a, n, k, cleared)
    ensures MidInv(e, a, k)
  {
    if 1 < k <= Missing(a.r) {
      UpsertKeepsInv(d, a, k);
    } else if k == Sweeping(a.r) {
      MarkMissingKeepsInv(d, a);
    } else if k == Recording(a.r) {
      SweepKeepsInv(d, a, n);
    } else if k == Finished(a.r) {
      SucceedKeepsInv(d, a);
    }
  }

  lemma {:induction false} AfterKeepsInv(db: Db, a: Attempt, n: nat, k: nat)
    requires Proper(a, a.r.source) && Inv(db, a.r.source, a.r.startedAt - 1, a.pollId - 1)
    requires k <= Finished(a.r)
    ensures MidInv(After(db, a, n, k), a, k)
  {
    if k > 0 {
      AfterKeepsInv(db, a, n, k - 1);
      var cleared := if k == Succeeding(a.r) then ClearedBy(db, a, n) else map[];
      IssueKeepsInv(After(db, a, n, k - 1), After(db, a, n, k), a, n, k, cleared);
    } else {
      BeforeInv(db, a);
    }
  }

  lemma BeforeInv(db: Db, a: Attempt)
    requires Inv(db, a.r.source, a.r.startedAt - 1, a.pollId - 1)
    ensures MidInv(db, a, 0)
  {
  }

  lemma AfterInv(db: Db, a: Attempt, n: nat, k: nat)
    requires Proper(a, a.r.source) && Inv(db, a.r.source, a.r.startedAt - 1, a.pollId - 1)
    requires k <= Finished(a.r)
    ensures Inv(After(db, a, n, k), a.r.source, a.r.startedAt, a.pollId)
  {
    AfterKeepsInv(db, a, n, k);
  }

  lemma UpsertKeepsInv(d: Db, a: Attempt, k: nat)
    requires Proper(a, a.r.source) && 1 < k <= Missing(a.r) && MidInv(d, a, k - 1)
    ensures MidInv(Upsert(d, a.r.incidents[k - 2], a.pollId, a.r.startedAt), a, k)
  {
    var inc := a.r.incidents[k - 2];
    var e := Upsert(d, inc, a.pollId, a.r.startedAt);
    OneRowKeepsInv(d, a, k, e, e.incidents[inc.key]);
  }

  /** Writing the row of the incident just observed. */
  lemma OneRowKeepsInv(d: Db, a: Attempt, k: nat, e: Db, row: IncidentRow)
    requires Proper(a, a.r.source) && 1 < k <= Missing(a.r) && MidInv(d, a, k - 1)
    requires e.incidents == d.incidents[a.r.incidents[k - 2].key := row] && e.polls == d.polls
    requires row.lastSeenAt == a.r.startedAt && row.missingSince.None? && row.clearedAt.None?
    ensures MidInv(e, a, k)
  {
    var inc := a.r.incidents[k - 2];
    assert inc in a.r.incidents;
    forall key | key in e.incidents && e.incidents[key].lastSeenAt == a.r.startedAt
      ensures exists i :: 0 <= i < k - 1 && i < |a.r.incidents| && a.r.incidents[i].key == key
    {
      if key == inc.key { assert a.r.incidents[k - 2].key == key; }
    }
  }

  lemma MarkMissingKeepsInv(d: Db, a: Attempt)
    requires Proper(a, a.r.source) && MidInv(d, a, Missing(a.r))
    ensures MidInv(MarkMissing(d, a.r.source, a.r.startedAt, Ids(a.r.incidents)), a, Sweeping(a.r))
  {
    var e := MarkMissing(d, a.r.source, a.r.startedAt, Ids(a.r.incidents));
    forall key | key in d.incidents
      ensures RowOk(e.incidents[key], d.polls, a.r.startedAt)
      ensures e.incidents[key].lastSeenAt == a.r.startedAt || e.incidents[key].missingSince.Some?
    {
      SeenIffListed(d, a, key);
    }
  }

  lemma SeenIffListed(d: Db, a: Attempt, key: Key)
    requires Proper(a, a.r.source) && MidInv(d, a, Missing(a.r)) && key in d.incidents
    ensures d.incidents[key].lastSeenAt == a.r.startedAt <==> key.id in Ids(a.r.incidents)
  {
    if key.id in Ids(a.r.incidents) {
      var inc :| inc in a.r.incidents && inc.key.id == key.id;
      assert inc.key == key;
    }
  }

  lemma SweepKeepsInv(d: Db, a: Attempt, n: nat)
    requires MidInv(d, a, Sweeping(a.r))
    ensures MidInv(SweepCleared(d, a.r.source, n), a, Recording(a.r))
  {
  }

  lemma SucceedKeepsInv(d: Db, a: Attempt)
    requires MidInv(d, a, Succeeding(a.r))
    ensures MidInv(FinishPoll(d, a.pollId, true, None), a, Finished(a.r))
  {
    FinishedRows(d, a.pollId, true, None);
  }

  lemma FinishedRows(d: Db, pollId: int, success: bool, error: Option<string>)
    ensures forall p | p in FinishPoll(d, pollId, success, error).polls ::
      exists q :: q in d.polls && p == SetOutcome(q, pollId, success, error)
  {
    var e := FinishPoll(d, pollId, success, error);
    forall p | p in e.polls ensures exists q :: q in d.polls && p == SetOutcome(q, pollId, success, error) {
      var i :| 0 <= i < |e.polls| && e.polls[i] == p;
      assert d.polls[i] in d.polls;
    }
  }

  /** Every reachable state, complete or partly applied, satisfies the invariant. */
  lemma ApplyKeepsInv(db: Db, a: Attempt, n: nat)
    requires Proper(a, a.r.source) && Inv(db, a.r.source, a.r.startedAt - 1, a.pollId - 1)
    ensures Inv(Apply(db, a, n), a.r.source, a.r.startedAt, a.pollId)
  {
    if a.r.Success() {
      var k := Reached(db, a, n);
      AfterKeepsInv(db, a, n, k);
      if a.fault.FaultAt? {
        FinishedRows(After(db, a, n, k), a.pollId, false, NullIfEmpty(a.fault.message));
      }
    }
  }

  lemma {:induction false} RunInv(h: seq<Attempt>, n: nat, source: string, t: Time, id: int)
    requires WellFormed(h, source) && UpTo(h, t, id)
    ensures Inv(Run(h, n), source, t, id)
  {
    if h != [] {
      var a := h[|h| - 1];
      RunInv(h[..|h| - 1], n, source, a.r.startedAt - 1, a.pollId - 1);
      ApplyKeepsInv(Run(h[..|h| - 1], n), a, n);
    }
  }
}
