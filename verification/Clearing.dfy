/** The clearing rule: counting successes in the poll log is counting the polls
    in a row that missed the incident, whatever faults happened on the way. */
module Clearing {
  import opened Types
  import opened Tables
  import opened Lifecycle

  /** Apply got far enough to upsert the incident. */
  ghost predicate Observes(db: Db, a: Attempt, n: nat, key: Key) {
    && a.r.Success()
    && exists i :: 0 <= i < Reached(db, a, n) - 1 && i < |a.r.incidents| && a.r.incidents[i].key == key
  }

  /** Apply ran to the end and the poll row says so. */
  ghost predicate Succeeds(db: Db, a: Attempt, n: nat) {
    a.r.Success() && Reached(db, a, n) == Finished(a.r)
  }

  /** How many polls in a row succeeded without the incident since it was last
      observed; polls that did not succeed neither count nor reset. */
  ghost function MissRun(h: seq<Attempt>, n: nat, key: Key): nat {
    if h == [] then 0
    else
      var before, a := h[..|h| - 1], h[|h| - 1];
      if Observes(Run(before, n), a, n, key) then 0
      else MissRun(before, n, key) + if Succeeds(Run(before, n), a, n) then 1 else 0
  }

  // ---------------------------------------------------------------- counting

  lemma {:induction false} SameSuccesses(polls: seq<PollRow>, source: string, a: Time, b: Time)
    requires forall p | p in polls && p.source == source && p.success :: p.startedAt >= a <==> p.startedAt >= b
    ensures SuccessesSince(polls, source, a) == SuccessesSince(polls, source, b)
  {
    if polls != [] {
      SameSuccesses(polls[..|polls| - 1], source, a, b);
    }
  }

  lemma {:induction false} NoSuccesses(polls: seq<PollRow>, source: string, a: Time)
    requires forall p | p in polls && p.success :: p.startedAt < a
    ensures SuccessesSince(polls, source, a) == 0
  {
    if polls != [] {
      NoSuccesses(polls[..|polls| - 1], source, a);
    }
  }

  lemma SuccessesOfOneMore(polls: seq<PollRow>, p: PollRow, source: string, a: Time)
    ensures SuccessesSince(polls + [p], source, a)
         == SuccessesSince(polls, source, a) + if p.source == source && p.success && p.startedAt >= a then 1 else 0
  {
    assert (polls + [p])[..|polls|] == polls;
  }

  // ---------------------------------------------------------------- one attempt

  /** Until the poll is finished the log is the old one plus the pending row. */
  lemma {:induction false} PollsOf(db: Db, a: Attempt, n: nat, k: nat)
    requires 1 <= k <= Finished(a.r)
    requires forall p | p in db.polls :: p.pollId != a.pollId
    ensures After(db, a, n, k).polls == db.polls + [NewPoll(a.r, a.pollId, k == Finished(a.r),
                                                            if k == Finished(a.r) then None else Some(PENDING))]
  {
    if k > 1 {
      PollsOf(db, a, n, k - 1);
      if k == Finished(a.r) {
        var d := After(db, a, n, k - 1);
        var e := FinishPoll(d, a.pollId, true, None);
        assert forall i | 0 <= i < |db.polls| :: db.polls[i] in db.polls;
        assert forall i | 0 <= i < |db.polls| :: e.polls[i] == db.polls[i];
      }
    }
  }

  /** Rows of incidents that were not upserted yet are as they were. */
  lemma {:induction false} UnseenRow(db: Db, a: Attempt, n: nat, k: nat, key: Key)
    requires k <= Missing(a.r) && !SeenBy(a, k, key)
    ensures SameRow(db, After(db, a, n, k), key)
  {
    if k > 0 {
      SeenStep(a, k, key);
      UnseenRow(db, a, n, k - 1, key);
      UnseenStep(db, After(db, a, n, k - 1), After(db, a, n, k), a, n, k, key);
    }
  }

  ghost predicate SameRow(db: Db, d: Db, key: Key) {
    (key in d.incidents <==> key in db.incidents) && (key in db.incidents ==> d.incidents[key] == db.incidents[key])
  }

  lemma UnseenStep(db: Db, d: Db, e: Db, a: Attempt, n: nat, k: nat, key: Key)
    requires 0 < k <= Missing(a.r) && SameRow(db, d, key) && e == Issue(d, a, n, k, map[])
    requires k > 1 ==> a.r.incidents[k - 2].key != key
    ensures SameRow(db, e, key)
  {
  }

  ghost predicate SeenBy(a: Attempt, k: nat, key: Key) {
    exists i :: 0 <= i < k - 1 && i < |a.r.incidents| && a.r.incidents[i].key == key
  }

  /** The incident was seen at t on the way from d to e, or its last_seen_at is
      as it was. */
  ghost predicate SeenOrKept(d: Db, e: Db, seen: bool, t: Time, key: Key) {
    if seen then key in e.incidents && e.incidents[key].lastSeenAt == t
    else
      && (key in e.incidents <==> key in d.incidents)
      && (key in d.incidents ==> e.incidents[key].lastSeenAt == d.incidents[key].lastSeenAt)
  }

  lemma SeenOnTheWay(d: Db, e: Db, f: Db, first: bool, second: bool, t: Time, key: Key)
    requires SeenOrKept(d, e, first, t, key) && SeenOrKept(e, f, second, t, key)
    ensures SeenOrKept(d, f, first || second, t, key)
  {
  }

  /** One statement writes last_seen_at only in the row it upserts. */
  lemma LastSeenStep(d: Db, a: Attempt, n: nat, k: nat, cleared: map<Key, Time>, key: Key)
    requires 0 < k <= Finished(a.r)
    ensures SeenOrKept(d, Issue(d, a, n, k, cleared), 1 < k <= Missing(a.r) && a.r.incidents[k - 2].key == key,
                       a.r.startedAt, key)
  {
  }

  lemma SeenStep(a: Attempt, k: nat, key: Key)
    requires 0 < k <= Finished(a.r)
    ensures SeenBy(a, k, key) <==> SeenBy(a, k - 1, key) || (1 < k <= Missing(a.r) && a.r.incidents[k - 2].key == key)
  {
  }

  /** The last_seen_at column of every row after k statements. */
  lemma {:induction false} LastSeen(db: Db, a: Attempt, n: nat, k: nat, key: Key)
    requires k <= Finished(a.r)
    ensures SeenOrKept(db, After(db, a, n, k), SeenBy(a, k, key), a.r.startedAt, key)
  {
    if k > 0 {
      LastSeen(db, a, n, k - 1, key);
      SeenStep(a, k, key);
      var d, cleared := After(db, a, n, k - 1), if k == Succeeding(a.r) then ClearedBy(db, a, n) else map[];
      LastSeenStep(d, a, n, k, cleared, key);
      SeenOnTheWay(db, d, Issue(d, a, n, k, cleared), SeenBy(a, k - 1, key),
                   1 < k <= Missing(a.r) && a.r.incidents[k - 2].key == key, a.r.startedAt, key);
    }
  }

  // ---------------------------------------------------------------- whole runs

  lemma ReachableFacts(h: seq<Attempt>, a: Attempt, n: nat, source: string)
    requires WellFormed(h + [a], source)
    ensures WellFormed(h, source) && Proper(a, source)
    ensures Inv(Run(h, n), source, a.r.startedAt - 1, a.pollId - 1)
  {
    var g := h + [a];
    assert g[|h|] == a && forall i | 0 <= i < |h| :: g[i] == h[i];
    RunInv(h, n, source, a.r.startedAt - 1, a.pollId - 1);
  }

  lemma Split(h: seq<Attempt>)
    requires h != []
    ensures h == h[..|h| - 1] + [h[|h| - 1]]
  {
  }

  lemma Snoc(g: seq<Attempt>, a: Attempt, n: nat, key: Key)
    ensures Run(g + [a], n) == Apply(Run(g, n), a, n)
    ensures MissRun(g + [a], n, key) ==
      if Observes(Run(g, n), a, n, key) then 0
      else MissRun(g, n, key) + if Succeeds(Run(g, n), a, n) then 1 else 0
  {
    assert (g + [a])[..|g + [a]| - 1] == g;
  }

  lemma ListedIfObserved(db: Db, a: Attempt, n: nat, key: Key)
    ensures Observes(db, a, n, key) ==> key.id in Ids(a.r.incidents)
  {
    if Observes(db, a, n, key) {
      var i :| 0 <= i < |a.r.incidents| && a.r.incidents[i].key == key;
      assert a.r.incidents[i] in a.r.incidents;
    }
  }

  ghost predicate Counted(db: Db, source: string, key: Key, misses: nat) {
    key in db.incidents ==> SuccessesSince(db.polls, source, db.incidents[key].lastSeenAt + 1) == misses
  }

  /** The successes logged after an incident was last seen are its run of misses. */
  lemma {:induction false} MissRunCounts(h: seq<Attempt>, n: nat, source: string, key: Key)
    requires WellFormed(h, source)
    ensures Counted(Run(h, n), source, key, MissRun(h, n, key))
  {
    if h == [] {
    } else {
      var g, a := h[..|h| - 1], h[|h| - 1];
      assert h == g + [a];
      MissRunCounts(g, n, source, key) by { ReachableFacts(g, a, n, source); }
      MissRunCountsOneMore(g, a, n, source, key);
    }
  }

  lemma MissRunCountsOneMore(g: seq<Attempt>, a: Attempt, n: nat, source: string, key: Key)
    requires WellFormed(g + [a], source) && Counted(Run(g, n), source, key, MissRun(g, n, key))
    ensures Counted(Run(g + [a], n), source, key, MissRun(g + [a], n, key))
  {
    ReachableFacts(g, a, n, source);
    Snoc(g, a, n, key);
    MissRunStep(Run(g, n), a, n, Run(g + [a], n), source, key, MissRun(g, n, key));
  }

  lemma MissRunStep(db: Db, a: Attempt, n: nat, e: Db, source: string, key: Key, misses: nat)
    requires Proper(a, source) && Inv(db, source, a.r.startedAt - 1, a.pollId - 1)
    requires Counted(db, source, key, misses) && e == Apply(db, a, n)
    ensures Counted(e, source, key,
      if Observes(db, a, n, key) then 0 else misses + if Succeeds(db, a, n) then 1 else 0)
  {
    var polls, last := ApplyPolls(db, a, n);
    ApplyLastSeen(db, a, n, key);
    if key in e.incidents {
      var since := e.incidents[key].lastSeenAt + 1;
      SuccessesOfOneMore(db.polls, last, source, since);
      if Observes(db, a, n, key) {
        NoSuccesses(db.polls, source, since);
      }
    }
  }

  lemma ApplyLastSeen(db: Db, a: Attempt, n: nat, key: Key)
    ensures Observes(db, a, n, key) ==>
      key in Apply(db, a, n).incidents && Apply(db, a, n).incidents[key].lastSeenAt == a.r.startedAt
    ensures !Observes(db, a, n, key) ==>
      && (key in Apply(db, a, n).incidents <==> key in db.incidents)
      && (key in db.incidents ==> Apply(db, a, n).incidents[key].lastSeenAt == db.incidents[key].lastSeenAt)
  {
    if a.r.Success() {
      LastSeen(db, a, n, Reached(db, a, n), key);
      assert Observes(db, a, n, key) <==> SeenBy(a, Reached(db, a, n), key);
    }
  }

  /** One attempt adds at most one poll row, marked successful exactly when the
      attempt ran to the end. */
  lemma ApplyPolls(db: Db, a: Attempt, n: nat) returns (polls: seq<PollRow>, last: PollRow)
    requires forall p | p in db.polls :: p.pollId != a.pollId
    ensures polls == Apply(db, a, n).polls
    ensures polls == db.polls || polls == db.polls + [last]
    ensures last.source == a.r.source && last.startedAt == a.r.startedAt && last.pollId == a.pollId
    ensures last.success <==> Succeeds(db, a, n)
    ensures last.classification == a.r.classification
    ensures Succeeds(db, a, n) ==> polls == db.polls + [last]
  {
    polls := Apply(db, a, n).polls;
    if !a.r.Success() {
      last := NewPoll(a.r, a.pollId, false, if a.r.err.Some? then NullIfEmpty(a.r.err.value) else None);
    } else {
      var k := Reached(db, a, n);
      if k > 0 {
        PollsOf(db, a, n, k);
      }
      var d := After(db, a, n, k);
      if Stops(db, a, n) && 0 < a.fault.k < Succeeding(a.r) && a.fault.marked {
        var e := FinishPoll(d, a.pollId, false, NullIfEmpty(a.fault.message));
        last := e.polls[|db.polls|];
        assert forall i | 0 <= i < |db.polls| :: db.polls[i] in db.polls;
        assert forall i | 0 <= i < |db.polls| :: e.polls[i] == db.polls[i];
        assert e.polls == db.polls + [last];
      } else if k > 0 {
        last := d.polls[|db.polls|];
      } else {
        last := NewPoll(a.r, a.pollId, false, None);
      }
    }
  }

  /** A row that is missing counts successes since it went missing or since it
      was last seen: the same. */
  lemma MissingSinceLastSeen(row: IncidentRow, polls: seq<PollRow>, source: string, t: Time)
    requires RowOk(row, polls, t) && row.missingSince.Some?
    ensures SuccessesSince(polls, source, row.missingSince.value) == SuccessesSince(polls, source, row.lastSeenAt + 1)
  {
    SameSuccesses(polls, source, row.missingSince.value, row.lastSeenAt + 1);
  }

  /** A row that is missing while a poll is applied was not upserted by it. */
  lemma MissingRowMidway(db: Db, a: Attempt, n: nat, k: nat, key: Key)
    requires Proper(a, a.r.source) && Inv(db, a.r.source, a.r.startedAt - 1, a.pollId - 1) && k <= Finished(a.r)
    requires var d := After(db, a, n, k); key in d.incidents && d.incidents[key].missingSince.Some?
    ensures RowOk(After(db, a, n, k).incidents[key], After(db, a, n, k).polls, a.r.startedAt)
    ensures key in db.incidents
    ensures After(db, a, n, k).incidents[key].lastSeenAt == db.incidents[key].lastSeenAt
  {
    AfterKeepsInv(db, a, n, k);
    LastSeen(db, a, n, k, key);
  }

  /** Until the poll is marked succeeded, it does not count. */
  lemma SameCountMidway(db: Db, a: Attempt, n: nat, k: nat, source: string, t: Time)
    requires k < Finished(a.r) && forall p | p in db.polls :: p.pollId != a.pollId
    ensures SuccessesSince(After(db, a, n, k).polls, source, t) == SuccessesSince(db.polls, source, t)
  {
    if k > 0 {
      PollsOf(db, a, n, k);
      SuccessesOfOneMore(db.polls, NewPoll(a.r, a.pollId, false, Some(PENDING)), source, t);
    }
  }

  lemma CountOfRow(d: Db, db: Db, source: string, t: Time, key: Key, misses: nat)
    requires key in d.incidents && key in db.incidents && d.incidents[key].missingSince.Some?
    requires RowOk(d.incidents[key], d.polls, t) && Counted(db, source, key, misses)
    requires d.incidents[key].lastSeenAt == db.incidents[key].lastSeenAt
    requires SuccessesSince(d.polls, source, db.incidents[key].lastSeenAt + 1)
          == SuccessesSince(db.polls, source, db.incidents[key].lastSeenAt + 1)
    ensures SuccessesSince(d.polls, source, d.incidents[key].missingSince.value) == misses
  {
    MissingSinceLastSeen(d.incidents[key], d.polls, source, t);
  }

  lemma SweepCount(db: Db, a: Attempt, n: nat, k: nat, key: Key, misses: nat)
    requires Proper(a, a.r.source) && Inv(db, a.r.source, a.r.startedAt - 1, a.pollId - 1) && k < Finished(a.r)
    requires Counted(db, a.r.source, key, misses)
    requires var d := After(db, a, n, k); key in d.incidents && d.incidents[key].missingSince.Some?
    ensures var d := After(db, a, n, k);
      SuccessesSince(d.polls, a.r.source, d.incidents[key].missingSince.value) == misses
  {
    MissingRowMidway(db, a, n, k, key);
    SameCountMidway(db, a, n, k, a.r.source, db.incidents[key].lastSeenAt + 1);
    CountOfRow(After(db, a, n, k), db, a.r.source, a.r.startedAt, key, misses);
  }

  /** The sweep's count, in every state reached while a poll is being applied,
      equals the number of succeeded polls in a row that missed the incident. */
  lemma SweepCountIsMissRun(h: seq<Attempt>, a: Attempt, n: nat, source: string, k: nat, key: Key)
    requires WellFormed(h + [a], source) && k < Finished(a.r)
    requires var d := After(Run(h, n), a, n, k); key in d.incidents && d.incidents[key].missingSince.Some?
    ensures var d := After(Run(h, n), a, n, k);
      SuccessesSince(d.polls, source, d.incidents[key].missingSince.value) == MissRun(h, n, key)
  {
    ReachableFacts(h, a, n, source);
    MissRunCounts(h, n, source, key);
    SweepCount(Run(h, n), a, n, k, key, MissRun(h, n, key));
  }

  /** The same between polls, when no attempt is under way. */
  lemma LogCountIsMissRun(h: seq<Attempt>, n: nat, source: string, key: Key)
    requires WellFormed(h, source)
    requires key in Run(h, n).incidents && Run(h, n).incidents[key].missingSince.Some?
    ensures SuccessesSince(Run(h, n).polls, source, Run(h, n).incidents[key].missingSince.value) == MissRun(h, n, key)
  {
    MissRunCounts(h, n, source, key);
    var t := if h == [] then 0 else h[|h| - 1].r.startedAt;
    RunInv(h, n, source, t, if h == [] then 0 else h[|h| - 1].pollId);
    MissingSinceLastSeen(Run(h, n).incidents[key], Run(h, n).polls, source, t);
  }

  /** The sweep of a poll clears exactly the active incidents the poll does not
      list and that at least n succeeded polls in a row had already missed; the
      poll under way is not counted, since it is not marked yet. */
  lemma ClearedExactly(h: seq<Attempt>, a: Attempt, n: nat, source: string, key: Key)
    requires WellFormed(h + [a], source)
    ensures key in ClearedBy(Run(h, n), a, n) <==>
      && key in Run(h, n).incidents
      && Run(h, n).incidents[key].clearedAt.None?
      && key.id !in Ids(a.r.incidents)
      && MissRun(h, n, key) >= n
    ensures key in ClearedBy(Run(h, n), a, n) ==>
      ClearedBy(Run(h, n), a, n)[key] == match Run(h, n).incidents[key].missingSince
                                         case Some(t) => t
                                         case None => a.r.startedAt
  {
    var db := Run(h, n);
    ReachableFacts(h, a, n, source);
    var d := After(db, a, n, Missing(a.r));
    var e := After(db, a, n, Sweeping(a.r));
    AfterKeepsInv(db, a, n, Missing(a.r));
    AfterKeepsInv(db, a, n, Sweeping(a.r));
    LastSeen(db, a, n, Missing(a.r), key);
    if key in d.incidents {
      SeenIffListed(d, a, key);
      if key.id in Ids(a.r.incidents) {
        assert RowOk(e.incidents[key], e.polls, a.r.startedAt);
        assert e.incidents[key].missingSince.None?;
      } else {
        UnseenRow(db, a, n, Missing(a.r), key);
        if db.incidents[key].clearedAt.None? {
          SweepCountIsMissRun(h, a, n, source, Sweeping(a.r), key);
        }
      }
    }
  }

  // ---------------------------------------------------------------- consequences

  /** The clearing columns of an incident across one attempt. */
  lemma ClearedColumn(h: seq<Attempt>, a: Attempt, n: nat, source: string, key: Key)
    requires WellFormed(h + [a], source) && key in Apply(Run(h, n), a, n).incidents
    ensures !Observes(Run(h, n), a, n, key) ==> key in Run(h, n).incidents
    ensures var db := Run(h, n); var row := Apply(db, a, n).incidents[key];
      row.clearedAt ==
        if Observes(db, a, n, key) then None
        else if a.r.Success() && Reached(db, a, n) >= Recording(a.r) && key in ClearedBy(db, a, n)
        then Some(ClearedBy(db, a, n)[key])
        else db.incidents[key].clearedAt
  {
    var db := Run(h, n);
    if a.r.Success() {
      ClearedColumnAt(db, a, n, Reached(db, a, n), key);
      if key in ClearedBy(db, a, n) {
        ClearedExactly(h, a, n, source, key);
        ListedIfObserved(db, a, n, key);
      }
    }
  }

  /** One statement writes cleared_at only in the row it upserts and in those it sweeps. */
  lemma ClearedColumnStep(d: Db, a: Attempt, n: nat, k: nat, cleared: map<Key, Time>, key: Key)
    requires 0 < k <= Finished(a.r) && key in Issue(d, a, n, k, cleared).incidents
    ensures var column := Issue(d, a, n, k, cleared).incidents[key].clearedAt;
            if 1 < k <= Missing(a.r) && a.r.incidents[k - 2].key == key then column == None
            else
              && key in d.incidents
              && column == if k == Recording(a.r) && key in Sweepable(d, a.r.source, n)
                           then Some(Sweepable(d, a.r.source, n)[key]) else d.incidents[key].clearedAt
  {
  }

  lemma {:induction false} ClearedColumnBefore(db: Db, a: Attempt, n: nat, k: nat, key: Key, d: Db)
    requires k <= Sweeping(a.r) && d == After(db, a, n, k) && key in d.incidents
    ensures !SeenBy(a, k, key) ==> key in db.incidents
    ensures d.incidents[key].clearedAt == if SeenBy(a, k, key) then None else db.incidents[key].clearedAt
  {
    if k > 0 {
      var before := After(db, a, n, k - 1);
      SeenStep(a, k, key);
      ClearedColumnStep(before, a, n, k, map[], key);
      if !(1 < k <= Missing(a.r) && a.r.incidents[k - 2].key == key) {
        ClearedColumnBefore(db, a, n, k - 1, key, before);
      }
    }
  }

  lemma {:induction false} ClearedColumnAt(db: Db, a: Attempt, n: nat, k: nat, key: Key)
    requires k <= Finished(a.r) && key in After(db, a, n, k).incidents
    ensures !SeenBy(a, k, key) ==> key in db.incidents
    ensures After(db, a, n, k).incidents[key].clearedAt ==
      if k >= Recording(a.r) && key in ClearedBy(db, a, n) then Some(ClearedBy(db, a, n)[key])
      else if SeenBy(a, k, key) then None
      else db.incidents[key].clearedAt
  {
    if k <= Sweeping(a.r) {
      ClearedColumnBefore(db, a, n, k, key, After(db, a, n, k));
    } else {
      SeenStep(a, k, key);
      var cleared := if k == Succeeding(a.r) then ClearedBy(db, a, n) else map[];
      ClearedColumnStep(After(db, a, n, k - 1), a, n, k, cleared, key);
      ClearedColumnAt(db, a, n, k - 1, key);
    }
  }

  /** Nothing is cleared, under any faults, before n succeeded polls in a row
      missed it. */
  lemma {:induction false} NeverClearedEarly(h: seq<Attempt>, n: nat, source: string, key: Key)
    requires WellFormed(h, source)
    requires key in Run(h, n).incidents && Run(h, n).incidents[key].clearedAt.Some?
    ensures MissRun(h, n, key) >= n
  {
    if h != [] {
      Split(h);
      var g, a := h[..|h| - 1], h[|h| - 1];
      ReachableFacts(g, a, n, source);
      ClearedColumn(g, a, n, source, key);
      if key in ClearedBy(Run(g, n), a, n) {
        ClearedExactly(g, a, n, source, key);
      } else {
        NeverClearedEarly(g, n, source, key);
      }
    }
  }

  /** How many of these polls are authoritative. */
  ghost function Authoritative(h: seq<Attempt>): nat {
    if h == [] then 0
    else Authoritative(h[..|h| - 1]) + if h[|h| - 1].r.Success() then 1 else 0
  }

  ghost predicate FaultFreeWithout(h: seq<Attempt>, key: Key) {
    forall i | 0 <= i < |h| :: h[i].fault.NoFault? && key.id !in Ids(h[i].r.incidents)
  }

  /** In a fault-free run an incident is cleared by its (n+1)-th authoritative
      miss, not the n-th, and dated to the first. */
  lemma {:induction false} ClearedOnMissNPlusOne(h: seq<Attempt>, misses: seq<Attempt>, n: nat, source: string,
                                                 key: Key)
    requires WellFormed(h + misses, source) && h != []
    requires Observes(Run(h[..|h| - 1], n), h[|h| - 1], n, key)
    requires FaultFreeWithout(misses, key)
    ensures key in Run(h + misses, n).incidents
    ensures MissRun(h + misses, n, key) == Authoritative(misses)
    ensures Run(h + misses, n).incidents[key].clearedAt.Some? <==> Authoritative(misses) >= n + 1
  {
    if misses == [] {
      assert h + misses == h;
      JustObserved(h, n, source, key);
    } else {
      var m, a := misses[..|misses| - 1], misses[|misses| - 1];
      assert h + misses == (h + m) + [a];
      ReachableFacts(h + m, a, n, source);
      ClearedOnMissNPlusOne(h, m, n, source, key);
      OneMoreMiss(h + m, a, n, source, key);
    }
  }

  lemma JustObserved(h: seq<Attempt>, n: nat, source: string, key: Key)
    requires WellFormed(h, source) && h != []
    requires Observes(Run(h[..|h| - 1], n), h[|h| - 1], n, key)
    ensures key in Run(h, n).incidents && Run(h, n).incidents[key].clearedAt.None?
    ensures MissRun(h, n, key) == 0
  {
    var g, a := h[..|h| - 1], h[|h| - 1];
    Split(h);
    Snoc(g, a, n, key);
    ReachableFacts(g, a, n, source);
    LastSeen(Run(g, n), a, n, Reached(Run(g, n), a, n), key);
    assert SeenBy(a, Reached(Run(g, n), a, n), key);
    ClearedColumn(g, a, n, source, key);
  }

  lemma OneMoreMiss(g: seq<Attempt>, a: Attempt, n: nat, source: string, key: Key)
    requires WellFormed(g + [a], source) && a.fault.NoFault? && key.id !in Ids(a.r.incidents)
    requires key in Run(g, n).incidents
    requires Run(g, n).incidents[key].clearedAt.Some? <==> MissRun(g, n, key) >= n + 1
    ensures key in Run(g + [a], n).incidents
    ensures MissRun(g + [a], n, key) == MissRun(g, n, key) + if a.r.Success() then 1 else 0
    ensures Run(g + [a], n).incidents[key].clearedAt.Some? <==> MissRun(g + [a], n, key) >= n + 1
  {
    var db := Run(g, n);
    Snoc(g, a, n, key);
    ListedIfObserved(db, a, n, key);
    if a.r.Success() {
      LastSeen(db, a, n, Finished(a.r), key);
      assert SeenBy(a, Finished(a.r), key) ==> Observes(db, a, n, key);
      ClearedExactly(g, a, n, source, key);
    }
    ClearedColumn(g, a, n, source, key);
  }
}
