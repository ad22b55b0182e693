/** The incident_units rows of one unit are the run-length encoding of what was
    observed of it, and exactly when they are. */
module RunLength {
  import opened Types
  import opened Deltas
  import opened Tables

  /** One upsert of an incident, as its unit history and its event log see it. */
  datatype Obs = Obs(units: seq<Unit>, fields: Fields, at: Time, pollId: int)

  /** The statuses a snapshot lists for a unit name, in order. */
  ghost function Listed(units: seq<Unit>, u: string): seq<string> {
    if units == [] || u == "" then []
    else Listed(units[..|units| - 1], u)
         + if units[|units| - 1].name == u then [units[|units| - 1].status] else []
  }

  /** What the sync loop does to a unit's rows, one listed status after another. */
  ghost function Feed(h: seq<Interval>, was: bool, listed: seq<string>, pollId: int, at: Time): seq<Interval> {
    if listed == [] then h
    else SyncUnit(Feed(h, was, listed[..|listed| - 1], pollId, at), was, listed[|listed| - 1], pollId, at)
  }

  /** A unit's rows after a sequence of observations of its incident. */
  ghost function Rows(obs: seq<Obs>, u: string): seq<Interval> {
    if obs == [] then []
    else
      var before, o := obs[..|obs| - 1], obs[|obs| - 1];
      Feed(Rows(before, u), PrevStatus(before, u).Some?, Listed(o.units, u), o.pollId, o.at)
  }

  /** The status of the unit in the snapshot before the next observation. */
  ghost function PrevStatus(before: seq<Obs>, u: string): Option<string> {
    if before == [] then None else StatusAt(before[|before| - 1], u)
  }

  ghost predicate Present(o: Obs, u: string) {
    u in ByName(o.units)
  }

  /** The status the snapshot gives a unit, if it lists it. */
  ghost function StatusAt(o: Obs, u: string): Option<string> {
    if Present(o, u) then Some(ByName(o.units)[u].status) else None
  }

  // ---------------------------------------------------------------- the reference

  datatype Span = Span(lo: nat, hi: nat)

  /** A maximal stretch of consecutive observations of the unit in one status. */
  ghost predicate MaximalRun(obs: seq<Obs>, u: string, s: Span) {
    && s.lo <= s.hi < |obs|
    && StatusAt(obs[s.lo], u).Some?
    && (forall k | s.lo <= k <= s.hi :: StatusAt(obs[k], u) == StatusAt(obs[s.lo], u))
    && (s.lo > 0 ==> StatusAt(obs[s.lo - 1], u) != StatusAt(obs[s.lo], u))
    && (s.hi + 1 < |obs| ==> StatusAt(obs[s.hi + 1], u) != StatusAt(obs[s.lo], u))
  }

  ghost function IntervalOf(obs: seq<Obs>, u: string, s: Span): Interval
    requires MaximalRun(obs, u, s)
  {
    Interval(StatusAt(obs[s.lo], u).value, obs[s.lo].at, obs[s.hi].at, obs[s.lo].pollId, obs[s.hi].pollId)
  }

  /** The rows are the maximal runs, in order, with none left out. */
  ghost predicate EncodesRuns(rows: seq<Interval>, spans: seq<Span>, obs: seq<Obs>, u: string) {
    && AreRuns(rows, spans, obs, u)
    && InOrder(spans)
    && AllCovered(spans, obs, u)
  }

  ghost predicate InOrder(spans: seq<Span>) {
    forall i, j | 0 <= i < j < |spans| :: spans[i].hi < spans[j].lo
  }

  ghost predicate AllCovered(spans: seq<Span>, obs: seq<Obs>, u: string) {
    forall k | 0 <= k < |obs| && Present(obs[k], u) :: Covers(spans, k)
  }

  ghost predicate AreRuns(rows: seq<Interval>, spans: seq<Span>, obs: seq<Obs>, u: string) {
    && |rows| == |spans|
    && (forall i | 0 <= i < |spans| :: IsRun(rows[i], obs, u, spans[i]))
  }

  ghost predicate IsRun(row: Interval, obs: seq<Obs>, u: string, s: Span) {
    MaximalRun(obs, u, s) && row == IntervalOf(obs, u, s)
  }

  ghost predicate Covers(spans: seq<Span>, k: nat) {
    exists i :: 0 <= i < |spans| && spans[i].lo <= k <= spans[i].hi
  }

  /** The run-length encoding, built by looking at statuses only. */
  ghost function Encoding(obs: seq<Obs>, u: string): seq<Interval> {
    if obs == [] then []
    else
      var before, o := obs[..|obs| - 1], obs[|obs| - 1];
      Encode1(Encoding(before, u), PrevStatus(before, u), StatusAt(o, u), o)
  }

  ghost function Encode1(rows: seq<Interval>, prev: Option<string>, now: Option<string>, o: Obs): seq<Interval> {
    if now.None? then rows
    else if prev == now && rows != [] then Extend(rows, o.pollId, o.at)
    else rows + [NewInterval(now.value, o.pollId, o.at)]
  }

  ghost function Extend(rows: seq<Interval>, pollId: int, at: Time): seq<Interval>
    requires rows != []
  {
    rows[|rows| - 1 := rows[|rows| - 1].(lastAt := at, lastPoll := pollId)]
  }

  /** Encoding really lists the maximal runs; the spans say which. */
  lemma {:induction false} EncodingIsMaximalRuns(obs: seq<Obs>, u: string) returns (spans: seq<Span>)
    ensures EncodesRuns(Encoding(obs, u), spans, obs, u)
  {
    if obs == [] {
      spans := [];
    } else {
      var before, o := obs[..|obs| - 1], obs[|obs| - 1];
      var earlier := EncodingIsMaximalRuns(before, u);
      assert obs == before + [o];
      spans := OneMoreObservation(before, o, u, Encoding(before, u), earlier);
    }
  }

  /** Runs that do not reach the last observation are not touched by the next. */
  lemma StillMaximal(before: seq<Obs>, o: Obs, u: string, s: Span)
    requires MaximalRun(before, u, s)
    requires s.hi < |before| - 1 || StatusAt(before[s.hi], u) != StatusAt(o, u)
    ensures MaximalRun(before + [o], u, s)
    ensures IntervalOf(before + [o], u, s) == IntervalOf(before, u, s)
  {
    var obs := before + [o];
    assert forall k | 0 <= k < |before| :: obs[k] == before[k];
  }

  lemma GrownRun(before: seq<Obs>, o: Obs, u: string, s: Span)
    requires MaximalRun(before, u, s) && s.hi == |before| - 1 && StatusAt(before[s.hi], u) == StatusAt(o, u)
    ensures MaximalRun(before + [o], u, Span(s.lo, |before|))
    ensures IntervalOf(before + [o], u, Span(s.lo, |before|))
         == IntervalOf(before, u, s).(lastAt := o.at, lastPoll := o.pollId)
  {
    var obs := before + [o];
    assert forall k | 0 <= k < |before| :: obs[k] == before[k];
  }

  lemma NewRun(before: seq<Obs>, o: Obs, u: string)
    requires StatusAt(o, u).Some? && PrevStatus(before, u) != StatusAt(o, u)
    ensures MaximalRun(before + [o], u, Span(|before|, |before|))
    ensures IntervalOf(before + [o], u, Span(|before|, |before|)) == NewInterval(StatusAt(o, u).value, o.pollId, o.at)
  {
  }

  lemma OneMoreObservation(before: seq<Obs>, o: Obs, u: string, rows: seq<Interval>, earlier: seq<Span>)
    returns (spans: seq<Span>)
    requires EncodesRuns(rows, earlier, before, u)
    ensures EncodesRuns(Encode1(rows, PrevStatus(before, u), StatusAt(o, u), o), spans, before + [o], u)
  {
    if StatusAt(o, u).None? {
      spans := earlier;
      AbsentObservation(before, o, u, rows, earlier);
    } else if PrevStatus(before, u) == StatusAt(o, u) {
      spans := SameStatus(before, o, u, rows, earlier);
    } else {
      spans := earlier + [Span(|before|, |before|)];
      OtherStatus(before, o, u, rows, earlier);
    }
  }

  lemma AbsentObservation(before: seq<Obs>, o: Obs, u: string, rows: seq<Interval>, spans: seq<Span>)
    requires EncodesRuns(rows, spans, before, u) && StatusAt(o, u).None?
    ensures EncodesRuns(rows, spans, before + [o], u)
  {
    forall i | 0 <= i < |spans| ensures IsRun(rows[i], before + [o], u, spans[i]) {
      assert IsRun(rows[i], before, u, spans[i]);
      StillMaximal(before, o, u, spans[i]);
    }
  }

  lemma SameStatus(before: seq<Obs>, o: Obs, u: string, rows: seq<Interval>, earlier: seq<Span>)
    returns (spans: seq<Span>)
    requires EncodesRuns(rows, earlier, before, u)
    requires StatusAt(o, u).Some? && PrevStatus(before, u) == StatusAt(o, u)
    ensures rows != [] && EncodesRuns(Extend(rows, o.pollId, o.at), spans, before + [o], u)
  {
    LastRunReaches(before, u, rows, earlier);
    spans := LastStretched(earlier, |before|);
    SameStatusRuns(before, o, u, rows, earlier);
    StretchedCovers(before, o, u, earlier);
  }

  lemma StretchedCovers(before: seq<Obs>, o: Obs, u: string, earlier: seq<Span>)
    requires AllCovered(earlier, before, u) && InOrder(earlier) && earlier != []
    requires earlier[|earlier| - 1].lo < |before| && earlier[|earlier| - 1].hi == |before| - 1
    ensures AllCovered(LastStretched(earlier, |before|), before + [o], u)
  {
    CoveredOneMore(before, o, u, earlier, LastStretched(earlier, |before|));
  }

  ghost function LastStretched(spans: seq<Span>, n: nat): (r: seq<Span>)
    requires spans != [] && InOrder(spans) && spans[|spans| - 1].hi < n
    ensures InOrder(r) && |r| == |spans| && r[|r| - 1] == Span(spans[|spans| - 1].lo, n)
    ensures forall i | 0 <= i < |spans| - 1 :: r[i] == spans[i]
  {
    spans[|spans| - 1 := Span(spans[|spans| - 1].lo, n)]
  }

  /** A unit present in the last snapshot has its last run end there. */
  lemma LastRunReaches(before: seq<Obs>, u: string, rows: seq<Interval>, spans: seq<Span>)
    requires EncodesRuns(rows, spans, before, u) && PrevStatus(before, u).Some?
    ensures spans != [] && spans[|spans| - 1].hi == |before| - 1 && spans[|spans| - 1].lo < |before|
  {
    assert Present(before[|before| - 1], u) && Covers(spans, |before| - 1);
    var i :| 0 <= i < |spans| && spans[i].lo <= |before| - 1 <= spans[i].hi;
    assert IsRun(rows[i], before, u, spans[i]);
    assert IsRun(rows[|spans| - 1], before, u, spans[|spans| - 1]);
  }

  lemma SameStatusRuns(before: seq<Obs>, o: Obs, u: string, rows: seq<Interval>, earlier: seq<Span>)
    requires AreRuns(rows, earlier, before, u) && earlier != [] && earlier[|earlier| - 1].hi == |before| - 1
    requires InOrder(earlier)
    requires StatusAt(o, u).Some? && PrevStatus(before, u) == StatusAt(o, u)
    ensures AreRuns(Extend(rows, o.pollId, o.at), LastStretched(earlier, |before|), before + [o], u)
  {
    var last := |earlier| - 1;
    var spans := LastStretched(earlier, |before|);
    var extended := Extend(rows, o.pollId, o.at);
    forall i | 0 <= i < |spans| ensures IsRun(extended[i], before + [o], u, spans[i]) {
      assert IsRun(rows[i], before, u, earlier[i]);
      if i == last {
        GrownRun(before, o, u, earlier[last]);
      } else {
        assert IsRun(rows[last], before, u, earlier[last]);
        StillMaximal(before, o, u, earlier[i]);
      }
    }
  }

  /** Spans that only grew, and reach the new observation, cover one more. */
  lemma CoveredOneMore(before: seq<Obs>, o: Obs, u: string, earlier: seq<Span>, spans: seq<Span>)
    requires AllCovered(earlier, before, u)
    requires |spans| >= |earlier| && spans != []
    requires forall i | 0 <= i < |earlier| :: spans[i].lo <= earlier[i].lo && earlier[i].hi <= spans[i].hi
    requires spans[|spans| - 1].lo <= |before| <= spans[|spans| - 1].hi
    ensures AllCovered(spans, before + [o], u)
  {
    forall k | 0 <= k < |before + [o]| && Present((before + [o])[k], u) ensures Covers(spans, k) {
      if k < |before| {
        assert Present(before[k], u);
        var i :| 0 <= i < |earlier| && earlier[i].lo <= k <= earlier[i].hi;
        assert spans[i].lo <= k <= spans[i].hi;
      }
    }
  }

  lemma OtherStatus(before: seq<Obs>, o: Obs, u: string, rows: seq<Interval>, earlier: seq<Span>)
    requires EncodesRuns(rows, earlier, before, u)
    requires StatusAt(o, u).Some? && PrevStatus(before, u) != StatusAt(o, u)
    ensures EncodesRuns(rows + [NewInterval(StatusAt(o, u).value, o.pollId, o.at)],
                        earlier + [Span(|before|, |before|)], before + [o], u)
  {
    var n := |before|;
    var spans := earlier + [Span(n, n)];
    OtherStatusRuns(before, o, u, rows, earlier);
    forall i | 0 <= i < |earlier| ensures earlier[i].hi < n {
      assert IsRun(rows[i], before, u, earlier[i]);
    }
    assert spans[|earlier|] == Span(n, n);
    forall i | 0 <= i < |earlier| ensures spans[i] == earlier[i] {}
    CoveredOneMore(before, o, u, earlier, spans);
  }

  lemma OtherStatusRuns(before: seq<Obs>, o: Obs, u: string, rows: seq<Interval>, earlier: seq<Span>)
    requires AreRuns(rows, earlier, before, u)
    requires StatusAt(o, u).Some? && PrevStatus(before, u) != StatusAt(o, u)
    ensures AreRuns(rows + [NewInterval(StatusAt(o, u).value, o.pollId, o.at)],
                    earlier + [Span(|before|, |before|)], before + [o], u)
  {
    var spans := earlier + [Span(|before|, |before|)];
    var grown := rows + [NewInterval(StatusAt(o, u).value, o.pollId, o.at)];
    NewRun(before, o, u);
    forall i | 0 <= i < |spans| ensures IsRun(grown[i], before + [o], u, spans[i]) {
      if i < |earlier| {
        assert IsRun(rows[i], before, u, earlier[i]);
        StillMaximal(before, o, u, earlier[i]);
      }
    }
  }

  // ---------------------------------------------------------------- when they agree

  /** The snapshot gives the unit one status only, and lists a unit that was not
      in the previous snapshot only once. */
  ghost predicate CleanAt(obs: seq<Obs>, k: nat, u: string)
    requires k < |obs|
  {
    Clean(PrevStatus(obs[..k], u).Some?, Listed(obs[k].units, u))
  }

  ghost predicate Clean(was: bool, listed: seq<string>) {
    && (forall i, j | 0 <= i < |listed| && 0 <= j < |listed| :: listed[i] == listed[j])
    && (was || |listed| <= 1)
  }

  /** The snapshot is clean for the unit, or it comes from the same poll and
      instant as the one before it and first repeats that one's status, if
      anything, and then gives one status only. */
  ghost predicate FitsAt(obs: seq<Obs>, k: nat, u: string)
    requires k < |obs|
  {
    Fits(PrevStatus(obs[..k], u), SameMoment(obs[..k], obs[k]), Listed(obs[k].units, u))
  }

  ghost predicate Fits(prev: Option<string>, same: bool, listed: seq<string>) {
    Clean(prev.Some?, listed) || (prev.Some? && same && exists c :: ChangesOnce(prev.value, listed, c))
  }

  ghost predicate SameMoment(before: seq<Obs>, o: Obs) {
    before != [] && before[|before| - 1].at == o.at && before[|before| - 1].pollId == o.pollId
  }

  ghost predicate ChangesOnce(first: string, listed: seq<string>, c: nat) {
    && c <= |listed|
    && (forall i | 0 <= i < c :: listed[i] == first)
    && (forall i | c <= i < |listed| :: listed[i] == listed[|listed| - 1])
  }

  ghost predicate Clocked(obs: seq<Obs>) {
    forall i, j | 0 <= i < j < |obs| :: obs[i].at <= obs[j].at
  }

  lemma {:induction false} ListedIsByName(units: seq<Unit>, u: string)
    ensures u in ByName(units) <==> Listed(units, u) != []
    ensures u in ByName(units) ==> ByName(units)[u].status == Listed(units, u)[|Listed(units, u)| - 1]
  {
    if units != [] {
      ListedIsByName(units[..|units| - 1], u);
    }
  }

  ghost predicate Sorted(h: seq<Interval>, at: Time) {
    && (forall i, j | 0 <= i < j < |h| :: h[i].lastAt <= h[j].lastAt)
    && (h != [] ==> h[|h| - 1].lastAt <= at)
  }

  lemma SyncSorted(h: seq<Interval>, was: bool, status: string, pollId: int, at: Time)
    requires Sorted(h, at)
    ensures Sorted(SyncUnit(h, was, status, pollId, at), at)
    ensures SyncUnit(h, was, status, pollId, at) ==
      if h != [] && was && h[|h| - 1].status == status then Extend(h, pollId, at)
      else h + [NewInterval(status, pollId, at)]
  {
  }

  /** What a batch of listed statuses can do to a unit's rows. */
  ghost predicate Fed(h: seq<Interval>, r: seq<Interval>, was: bool, listed: seq<string>, pollId: int, at: Time) {
    && Sorted(r, at) && |r| >= |h|
    && (h != [] ==> r[..|h| - 1] == h[..|h| - 1])
    && (h != [] ==> r[|h| - 1] == h[|h| - 1] || r[|h| - 1] == Extend(h, pollId, at)[|h| - 1])
    && (listed != [] ==>
          && r != [] && r[|r| - 1].status == listed[|listed| - 1]
          && r[|r| - 1].lastAt == at && r[|r| - 1].lastPoll == pollId)
    && (!was ==> |r| == |h| + |listed|)
  }

  lemma FedOneMore(h: seq<Interval>, r: seq<Interval>, was: bool, before: seq<string>, status: string, pollId: int,
                   at: Time)
    requires Fed(h, r, was, before, pollId, at)
    ensures Fed(h, SyncUnit(r, was, status, pollId, at), was, before + [status], pollId, at)
  {
    SyncSorted(r, was, status, pollId, at);
  }

  lemma {:induction false} FeedShape(h: seq<Interval>, was: bool, listed: seq<string>, pollId: int, at: Time)
    requires Sorted(h, at)
    ensures Fed(h, Feed(h, was, listed, pollId, at), was, listed, pollId, at)
  {
    if listed != [] {
      var n := |listed| - 1;
      FeedShape(h, was, listed[..n], pollId, at);
      FedOneMore(h, Feed(h, was, listed[..n], pollId, at), was, listed[..n], listed[n], pollId, at);
      assert listed == listed[..n] + [listed[n]];
    }
  }

  /** Listing the status again changes nothing more. */
  lemma SyncAgain(h: seq<Interval>, status: string, pollId: int, at: Time)
    requires Sorted(h, at) && h != []
    requires h[|h| - 1].status == status && h[|h| - 1].lastAt == at && h[|h| - 1].lastPoll == pollId
    ensures SyncUnit(h, true, status, pollId, at) == h
  {
    SyncSorted(h, true, status, pollId, at);
  }

  lemma {:induction false} FeedClean(h: seq<Interval>, was: bool, listed: seq<string>, pollId: int, at: Time)
    requires Sorted(h, at) && Clean(was, listed) && listed != []
    ensures Feed(h, was, listed, pollId, at) ==
      if h != [] && was && h[|h| - 1].status == listed[0] then Extend(h, pollId, at)
      else h + [NewInterval(listed[0], pollId, at)]
  {
    var rest, last := listed[..|listed| - 1], listed[|listed| - 1];
    assert last == listed[0];
    if rest == [] {
      assert Feed(h, was, rest, pollId, at) == h;
      SyncSorted(h, was, last, pollId, at);
    } else {
      FeedClean(h, was, rest, pollId, at);
      FeedShape(h, was, rest, pollId, at);
      SyncAgain(Feed(h, was, rest, pollId, at), last, pollId, at);
    }
  }

  /** A batch that opens no row was all in the latest row's status. */
  lemma {:induction false} FeedNoGrowth(h: seq<Interval>, listed: seq<string>, pollId: int, at: Time)
    requires Sorted(h, at) && h != []
    requires |Feed(h, true, listed, pollId, at)| == |h|
    ensures forall i | 0 <= i < |listed| :: listed[i] == h[|h| - 1].status
  {
    if listed != [] {
      var rest, last := listed[..|listed| - 1], listed[|listed| - 1];
      FeedShape(h, true, rest, pollId, at);
      SyncSorted(Feed(h, true, rest, pollId, at), true, last, pollId, at);
      FeedNoGrowth(h, rest, pollId, at);
      assert listed == rest + [last];
    }
  }

  /** The latest row was extended by this very poll. */
  ghost predicate JustExtended(h: seq<Interval>, pollId: int, at: Time) {
    h != [] && h[|h| - 1].lastAt == at && h[|h| - 1].lastPoll == pollId
  }

  lemma FitsLonger(first: string, just: bool, rest: seq<string>, last: string)
    requires Fits(Some(first), just, rest) && rest != [] && last == rest[|rest| - 1]
    ensures Fits(Some(first), just, rest + [last])
  {
    var listed := rest + [last];
    assert forall i | 0 <= i < |rest| :: listed[i] == rest[i];
    if !Clean(true, rest) {
      var c :| ChangesOnce(first, rest, c);
      assert ChangesOnce(first, listed, c);
    }
  }

  lemma FitsAfterRepeats(first: string, just: bool, rest: seq<string>, last: string)
    requires (forall i | 0 <= i < |rest| :: rest[i] == first) && (rest == [] || just)
    ensures Fits(Some(first), just, rest + [last])
  {
    assert ChangesOnce(first, rest + [last], |rest|);
  }

  /** A batch that opens one row and leaves the row before it alone was all in
      one status, but for repeats of the status of a row just extended. */
  lemma {:induction false} FeedOneGrowth(h: seq<Interval>, listed: seq<string>, pollId: int, at: Time)
    requires Sorted(h, at) && h != []
    requires |Feed(h, true, listed, pollId, at)| == |h| + 1
    requires Feed(h, true, listed, pollId, at)[|h| - 1] == h[|h| - 1]
    ensures Fits(Some(h[|h| - 1].status), JustExtended(h, pollId, at), listed)
  {
    var rest, last := listed[..|listed| - 1], listed[|listed| - 1];
    var mid := Feed(h, true, rest, pollId, at);
    FeedShape(h, true, rest, pollId, at);
    SyncSorted(mid, true, last, pollId, at);
    assert listed == rest + [last];
    if |mid| == |h| + 1 {
      FeedOneGrowth(h, rest, pollId, at);
      FitsLonger(h[|h| - 1].status, JustExtended(h, pollId, at), rest, last);
    } else {
      FeedNoGrowth(h, rest, pollId, at);
      FitsAfterRepeats(h[|h| - 1].status, JustExtended(h, pollId, at), rest, last);
    }
  }

  /** Repeating the status of a row just extended, and then changing it once,
      opens one row or none and leaves the others alone. */
  lemma {:induction false} FeedOneChange(h: seq<Interval>, listed: seq<string>, c: nat, pollId: int, at: Time)
    requires Sorted(h, at) && JustExtended(h, pollId, at) && ChangesOnce(h[|h| - 1].status, listed, c)
    ensures Feed(h, true, listed, pollId, at) ==
      if listed == [] || listed[|listed| - 1] == h[|h| - 1].status then h
      else h + [NewInterval(listed[|listed| - 1], pollId, at)]
  {
    if listed != [] {
      var rest, last := listed[..|listed| - 1], listed[|listed| - 1];
      FeedOneChange(h, rest, if c == |listed| then |rest| else c, pollId, at);
      var mid := Feed(h, true, rest, pollId, at);
      if mid == h && last != h[|h| - 1].status {
        SyncSorted(h, true, last, pollId, at);
      } else {
        FeedShape(h, true, rest, pollId, at);
        SyncAgain(mid, last, pollId, at);
      }
    }
  }

  /** How far the code's rows can drift from the encoding. */
  ghost predicate Drift(rows: seq<Interval>, enc: seq<Interval>, at: Time) {
    && Sorted(rows, at) && Sorted(enc, at) && |rows| >= |enc|
    && (rows == [] <==> enc == [])
    && (rows != [] ==>
          var r, e := rows[|rows| - 1], enc[|enc| - 1];
          r.status == e.status && r.lastAt == e.lastAt && r.lastPoll == e.lastPoll)
  }

  /** The encoding's last row is in the status last observed. */
  ghost predicate Tracks(enc: seq<Interval>, prev: Option<string>) {
    prev.Some? ==> enc != [] && enc[|enc| - 1].status == prev.value
  }

  ghost function NowStatus(listed: seq<string>): Option<string> {
    if listed == [] then None else Some(listed[|listed| - 1])
  }

  lemma StepKeepsDrift(rows: seq<Interval>, enc: seq<Interval>, prev: Option<string>, listed: seq<string>, o: Obs)
    requires Drift(rows, enc, o.at) && Tracks(enc, prev)
    ensures Drift(Feed(rows, prev.Some?, listed, o.pollId, o.at), Encode1(enc, prev, NowStatus(listed), o), o.at)
    ensures Tracks(Encode1(enc, prev, NowStatus(listed), o), NowStatus(listed))
  {
    var r := Feed(rows, prev.Some?, listed, o.pollId, o.at);
    FeedShape(rows, prev.Some?, listed, o.pollId, o.at);
    if listed != [] && prev.Some? && |r| == |rows| {
      FeedNoGrowth(rows, listed, o.pollId, o.at);
    }
  }

  lemma StepAgrees(rows: seq<Interval>, prev: Option<string>, listed: seq<string>, o: Obs)
    requires Sorted(rows, o.at) && Tracks(rows, prev) && Fits(prev, JustExtended(rows, o.pollId, o.at), listed)
    ensures Feed(rows, prev.Some?, listed, o.pollId, o.at) == Encode1(rows, prev, NowStatus(listed), o)
  {
    if listed == [] {
    } else if Clean(prev.Some?, listed) {
      FeedClean(rows, prev.Some?, listed, o.pollId, o.at);
      assert listed[0] == listed[|listed| - 1];
    } else {
      var c :| ChangesOnce(prev.value, listed, c);
      FeedOneChange(rows, listed, c, o.pollId, o.at);
      assert Extend(rows, o.pollId, o.at) == rows;
    }
  }

  lemma StepDisagrees(rows: seq<Interval>, enc: seq<Interval>, prev: Option<string>, listed: seq<string>, o: Obs)
    requires Drift(rows, enc, o.at) && Tracks(enc, prev)
    requires Feed(rows, prev.Some?, listed, o.pollId, o.at) == Encode1(enc, prev, NowStatus(listed), o)
    ensures rows == enc && Fits(prev, JustExtended(rows, o.pollId, o.at), listed)
  {
    FeedShape(rows, prev.Some?, listed, o.pollId, o.at);
    if listed == [] {
    } else if prev.None? {
      DisagreesAbsent(rows, enc, listed, o);
    } else if prev == NowStatus(listed) {
      DisagreesSame(rows, enc, listed, o);
    } else {
      DisagreesOther(rows, enc, listed, o);
    }
  }

  lemma Rebuilt<T>(xs: seq<T>, ys: seq<T>)
    requires |xs| == |ys| && (xs != [] ==> xs[..|xs| - 1] == ys[..|xs| - 1] && xs[|xs| - 1] == ys[|xs| - 1])
    ensures xs == ys
  {
    if xs != [] {
      assert xs == xs[..|xs| - 1] + [xs[|xs| - 1]] && ys == ys[..|ys| - 1] + [ys[|ys| - 1]];
    }
  }

  lemma DisagreesAbsent(rows: seq<Interval>, enc: seq<Interval>, listed: seq<string>, o: Obs)
    requires Drift(rows, enc, o.at) && listed != []
    requires Feed(rows, false, listed, o.pollId, o.at) == enc + [NewInterval(listed[|listed| - 1], o.pollId, o.at)]
    ensures rows == enc && |listed| == 1
  {
    var r := Feed(rows, false, listed, o.pollId, o.at);
    FeedShape(rows, false, listed, o.pollId, o.at);
    assert |rows| == |enc| && |listed| == 1;
    if rows != [] {
      assert r[|rows| - 1] == enc[|rows| - 1];
      assert rows[..|rows| - 1] == r[..|rows| - 1] == enc[..|rows| - 1];
    }
    Rebuilt(rows, enc);
  }

  lemma DisagreesSame(rows: seq<Interval>, enc: seq<Interval>, listed: seq<string>, o: Obs)
    requires Drift(rows, enc, o.at) && listed != [] && enc != []
    requires enc[|enc| - 1].status == listed[|listed| - 1]
    requires Feed(rows, true, listed, o.pollId, o.at) == Extend(enc, o.pollId, o.at)
    ensures rows == enc && forall i, j | 0 <= i < |listed| && 0 <= j < |listed| :: listed[i] == listed[j]
  {
    var r := Feed(rows, true, listed, o.pollId, o.at);
    FeedShape(rows, true, listed, o.pollId, o.at);
    FeedNoGrowth(rows, listed, o.pollId, o.at);
    assert rows[..|rows| - 1] == r[..|rows| - 1] == enc[..|enc| - 1];
    assert r[|rows| - 1].firstAt == rows[|rows| - 1].firstAt == enc[|enc| - 1].firstAt;
    assert r[|rows| - 1].firstPoll == rows[|rows| - 1].firstPoll == enc[|enc| - 1].firstPoll;
    Rebuilt(rows, enc);
  }

  lemma DisagreesOther(rows: seq<Interval>, enc: seq<Interval>, listed: seq<string>, o: Obs)
    requires Drift(rows, enc, o.at) && listed != [] && enc != []
    requires enc[|enc| - 1].status != listed[|listed| - 1]
    requires Feed(rows, true, listed, o.pollId, o.at) == enc + [NewInterval(listed[|listed| - 1], o.pollId, o.at)]
    ensures rows == enc && Fits(Some(enc[|enc| - 1].status), JustExtended(rows, o.pollId, o.at), listed)
  {
    var r := Feed(rows, true, listed, o.pollId, o.at);
    FeedShape(rows, true, listed, o.pollId, o.at);
    if |r| == |rows| {
      FeedNoGrowth(rows, listed, o.pollId, o.at);
    }
    assert |rows| == |enc|;
    assert r[|rows| - 1] == enc[|enc| - 1];
    FeedOneGrowth(rows, listed, o.pollId, o.at);
    assert rows[..|rows| - 1] == r[..|rows| - 1] == enc[..|enc| - 1];
    Rebuilt(rows, enc);
  }

  /** Everything about the prefix that the next observation depends on. */
  ghost predicate Synced(before: seq<Obs>, u: string, at: Time) {
    && Drift(Rows(before, u), Encoding(before, u), at)
    && Tracks(Encoding(before, u), PrevStatus(before, u))
  }

  lemma SnocRows(before: seq<Obs>, o: Obs, u: string)
    ensures Rows(before + [o], u)
         == Feed(Rows(before, u), PrevStatus(before, u).Some?, Listed(o.units, u), o.pollId, o.at)
    ensures Encoding(before + [o], u)
         == Encode1(Encoding(before, u), PrevStatus(before, u), NowStatus(Listed(o.units, u)), o)
    ensures PrevStatus(before + [o], u) == NowStatus(Listed(o.units, u))
    ensures FitsAt(before + [o], |before|, u) <==>
      Fits(PrevStatus(before, u), SameMoment(before, o), Listed(o.units, u))
    ensures forall k | 0 <= k < |before| :: FitsAt(before + [o], k, u) <==> FitsAt(before, k, u)
  {
    var obs := before + [o];
    ListedIsByName(o.units, u);
    assert obs[..|before|] == before;
    assert forall k | 0 <= k < |before| :: obs[..k] == before[..k];
  }

  lemma SyncedOneMore(before: seq<Obs>, o: Obs, u: string, at: Time)
    requires Synced(before, u, o.at) && o.at <= at
    ensures Synced(before + [o], u, at)
  {
    SnocRows(before, o, u);
    StepKeepsDrift(Rows(before, u), Encoding(before, u), PrevStatus(before, u), Listed(o.units, u), o);
    DriftLater(Rows(before + [o], u), Encoding(before + [o], u), o.at, at);
  }

  lemma DriftLater(rows: seq<Interval>, enc: seq<Interval>, t: Time, at: Time)
    requires Drift(rows, enc, t) && t <= at
    ensures Drift(rows, enc, at)
  {
  }

  lemma {:induction false} RowsStaySynced(obs: seq<Obs>, u: string, at: Time)
    requires Clocked(obs) && (obs != [] ==> obs[|obs| - 1].at <= at)
    ensures Synced(obs, u, at)
  {
    if obs != [] {
      var before, o := obs[..|obs| - 1], obs[|obs| - 1];
      RowsStaySynced(before, u, o.at);
      SyncedOneMore(before, o, u, at);
      assert obs == before + [o];
    }
  }

  ghost predicate AllFit(obs: seq<Obs>, u: string) {
    forall k | 0 <= k < |obs| :: FitsAt(obs, k, u)
  }

  lemma StepAgreesIff(rows: seq<Interval>, enc: seq<Interval>, prev: Option<string>, listed: seq<string>, o: Obs)
    requires Drift(rows, enc, o.at) && Tracks(enc, prev)
    ensures Feed(rows, prev.Some?, listed, o.pollId, o.at) == Encode1(enc, prev, NowStatus(listed), o)
       <==> rows == enc && Fits(prev, JustExtended(rows, o.pollId, o.at), listed)
  {
    if rows == enc && Fits(prev, JustExtended(rows, o.pollId, o.at), listed) {
      StepAgrees(rows, prev, listed, o);
    } else if Feed(rows, prev.Some?, listed, o.pollId, o.at) == Encode1(enc, prev, NowStatus(listed), o) {
      StepDisagrees(rows, enc, prev, listed, o);
    }
  }

  lemma FeedEnds(h: seq<Interval>, was: bool, listed: seq<string>, pollId: int, at: Time)
    requires Sorted(h, at) && listed != []
    ensures JustExtended(Feed(h, was, listed, pollId, at), pollId, at)
  {
    FeedShape(h, was, listed, pollId, at);
  }

  lemma RowsAreSorted(obs: seq<Obs>, u: string, at: Time)
    requires Clocked(obs) && (obs != [] ==> obs[|obs| - 1].at <= at)
    ensures Sorted(Rows(obs, u), at)
  {
    RowsStaySynced(obs, u, at);
  }

  /** A unit's latest row ends at the last observation that lists it. */
  lemma LastRowIsNow(before: seq<Obs>, u: string)
    requires Clocked(before) && PrevStatus(before, u).Some?
    ensures var o := before[|before| - 1]; JustExtended(Rows(before, u), o.pollId, o.at)
  {
    var earlier, o := before[..|before| - 1], before[|before| - 1];
    RowsAreSorted(earlier, u, o.at);
    ListedIsByName(o.units, u);
    FeedEnds(Rows(earlier, u), PrevStatus(earlier, u).Some?, Listed(o.units, u), o.pollId, o.at);
  }

  lemma FitOneMore(before: seq<Obs>, o: Obs, u: string)
    ensures AllFit(before + [o], u) <==>
      AllFit(before, u) && Fits(PrevStatus(before, u), SameMoment(before, o), Listed(o.units, u))
  {
    SnocRows(before, o, u);
    var obs := before + [o];
    if AllFit(obs, u) {
      assert FitsAt(obs, |before|, u);
      forall k | 0 <= k < |before| ensures FitsAt(before, k, u) {
        assert FitsAt(obs, k, u);
      }
    }
  }

  lemma EncodeIffOneMore(before: seq<Obs>, o: Obs, u: string)
    requires Clocked(before + [o]) && Synced(before, u, o.at)
    ensures Rows(before + [o], u) == Encoding(before + [o], u) <==>
      Rows(before, u) == Encoding(before, u)
      && Fits(PrevStatus(before, u), SameMoment(before, o), Listed(o.units, u))
  {
    SnocRows(before, o, u);
    StepAgreesIff(Rows(before, u), Encoding(before, u), PrevStatus(before, u), Listed(o.units, u), o);
    if PrevStatus(before, u).Some? {
      assert forall i | 0 <= i < |before| :: (before + [o])[i] == before[i];
      LastRowIsNow(before, u);
    }
  }

  lemma OneMoreIff(before: seq<Obs>, o: Obs, obs: seq<Obs>, u: string)
    requires obs == before + [o] && Clocked(obs) && Synced(before, u, o.at)
    requires Rows(before, u) == Encoding(before, u) <==> AllFit(before, u)
    ensures Rows(obs, u) == Encoding(obs, u) <==> AllFit(obs, u)
  {
    EncodeIffOneMore(before, o, u);
    FitOneMore(before, o, u);
  }

  /** The rows are the run-length encoding exactly when every snapshot fits. */
  lemma {:induction false} RowsEncodeIff(obs: seq<Obs>, u: string)
    requires Clocked(obs)
    ensures Rows(obs, u) == Encoding(obs, u) <==> AllFit(obs, u)
  {
    if obs != [] {
      var before, o := obs[..|obs| - 1], obs[|obs| - 1];
      RowsEncodeIff(before, u);
      RowsStaySynced(before, u, o.at);
      OneMoreIff(before, o, obs, u);
    }
  }

  /** Distinct unit names make every snapshot clean. */
  lemma {:induction false} DistinctListedOnce(units: seq<Unit>, u: string)
    requires forall i, j | 0 <= i < j < |units| :: units[i].name != units[j].name
    ensures |Listed(units, u)| <= 1
    ensures Listed(units, u) != [] ==> exists i :: 0 <= i < |units| && units[i].name == u
  {
    if units != [] {
      DistinctListedOnce(units[..|units| - 1], u);
    }
  }

  lemma DistinctFits(obs: seq<Obs>, k: nat, u: string)
    requires k < |obs| && forall i, j | 0 <= i < j < |obs[k].units| :: obs[k].units[i].name != obs[k].units[j].name
    ensures FitsAt(obs, k, u)
  {
    DistinctListedOnce(obs[k].units, u);
  }

  lemma DistinctNamesEncode(obs: seq<Obs>, u: string) returns (spans: seq<Span>)
    requires Clocked(obs)
    requires forall k, i, j | 0 <= k < |obs| && 0 <= i < j < |obs[k].units| ::
      obs[k].units[i].name != obs[k].units[j].name
    ensures EncodesRuns(Rows(obs, u), spans, obs, u)
  {
    forall k | 0 <= k < |obs| ensures FitsAt(obs, k, u) {
      DistinctFits(obs, k, u);
    }
    RowsEncodeIff(obs, u);
    spans := EncodingIsMaximalRuns(obs, u);
  }

  lemma ListedTwice(a: Unit)
    requires a.name != ""
    ensures Listed([a, a], a.name) == [a.status, a.status]
  {
    assert [a, a][..1] == [a] && [a][..0] == [];
    assert Listed([a], a.name) == [a.status];
  }

  /** A snapshot that lists a new unit twice opens two rows for one run. */
  lemma DuplicateSplitsRun(a: Unit, f: Fields, at: Time, pollId: int)
    requires a.name != ""
    ensures |Rows([Obs([a, a], f, at, pollId)], a.name)| == 2
    ensures |Encoding([Obs([a, a], f, at, pollId)], a.name)| == 1
  {
    var o := Obs([a, a], f, at, pollId);
    ListedTwice(a);
    assert [] + [o] == [o];
    SnocRows([], o, a.name);
    FeedShape([], false, Listed(o.units, a.name), pollId, at);
  }

  lemma ListedTwo(a: Unit, b: Unit)
    requires a.name == b.name != ""
    ensures Listed([a], a.name) == [a.status] && Listed([a, b], a.name) == [a.status, b.status]
  {
    assert [a, b][..1] == [a] && [a][..0] == [];
  }

  /** Two upserts by one poll can hide a mixed listing: the second snapshot gives
      the unit its old status and then a new one, and the rows are still the
      encoding, because extending a row to the same instant changes nothing. */
  lemma SameInstantHidesMixing(a: Unit, b: Unit, f: Fields, at: Time, pollId: int)
    requires a.name == b.name != "" && a.status != b.status
    ensures var obs := [Obs([a], f, at, pollId), Obs([a, b], f, at, pollId)];
            Rows(obs, a.name) == Encoding(obs, a.name) && !CleanAt(obs, 1, a.name)
  {
    var first, second := Obs([a], f, at, pollId), Obs([a, b], f, at, pollId);
    var obs := [first, second];
    ListedTwo(a, b);
    ListedIsByName([a], a.name);
    assert obs[..0] == [] && obs[..1] == [first];
    assert ChangesOnce(a.status, [a.status, b.status], 1);
    assert [a.status, b.status][0] != [a.status, b.status][1];
    assert FitsAt(obs, 0, a.name) && FitsAt(obs, 1, a.name);
    RowsEncodeIff(obs, a.name);
  }
}
