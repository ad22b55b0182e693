/** Pass after pass over one recordings directory, each attempt ending in a
    verdict: which files are sent again for ever, and which are never reached. */
module Passes {
  import opened Types
  import opened Dispatch
  import opened Uploaders

  // ---------------------------------------------------------------- passes

  /** A reply after which the uploader writes something down. */
  predicate IsVerdict(reply: Option<nat>) {
    reply.Some? && (reply.value == 200 || (400 <= reply.value < 500 && reply.value != 401 && reply.value != 429))
  }

  type Replies = nat -> Option<nat>

  ghost predicate Verdicts(replies: Replies) {
    forall k: nat :: IsVerdict(replies(k))
  }

  /** The records after the first p passes; pass x meets the replies all(x). */
  function AfterPasses(records: map<string, Record>, files: seq<File>, batch: nat, all: nat -> Replies, p: nat)
    : map<string, Record>
  {
    if p == 0 then records
    else PassOver(AfterPasses(records, files, batch, all, p - 1), files, batch, all(p - 1)).records
  }

  /** A pass attempts the i-th file. */
  predicate Attempts(records: map<string, Record>, files: seq<File>, batch: nat, replies: Replies, i: nat)
    requires i < |files|
  {
    var before := PassOver(records, files[..i], batch, replies);
    before.attempted < batch && files[i].fallback !in before.records
  }

  predicate AttemptedIn(records: map<string, Record>, files: seq<File>, batch: nat, all: nat -> Replies, p: nat, i: nat)
    requires i < |files|
  {
    Attempts(AfterPasses(records, files, batch, all, p), files, batch, all(p), i)
  }

  lemma PassStep(records: map<string, Record>, files: seq<File>, batch: nat, replies: Replies, s: nat)
    requires s < |files|
    ensures var before := PassOver(records, files[..s], batch, replies);
            PassOver(records, files[..s + 1], batch, replies) ==
              if Attempts(records, files, batch, replies, s) then
                Pass(Tried(before.records, files[s], replies(before.attempted)), before.attempted + 1,
                     before.uploaded + if Accepted(files[s], replies(before.attempted)) then 1 else 0)
              else before
  {
    assert files[..s + 1][..s] == files[..s];
  }

  // ---------------------------------------------------------------- read off the files

  /** The names a verdict on the file puts on record. */
  function Filing(file: File): set<string> {
    if file.body.None? then {file.fallback}
    else if !file.sendable then {}
    else {NameOf(file)}
  }

  /** The names on record once each of the first m files has had its turn: a file
      whose own name is there by then is passed over. */
  function Known(start: set<string>, files: seq<File>, m: nat): set<string>
    requires m <= |files|
  {
    if m == 0 then start
    else
      var before := Known(start, files, m - 1);
      if files[m - 1].fallback in before then before else before + Filing(files[m - 1])
  }

  /** How many of the first j files are still missing once m have had their turn. */
  function Missing(start: set<string>, files: seq<File>, m: nat, j: nat): (n: nat)
    requires m <= |files| && j <= |files|
    ensures n <= j
  {
    if j == 0 then 0
    else Missing(start, files, m, j - 1) + if files[j - 1].fallback in Known(start, files, m) then 0 else 1
  }

  /** The first position before which `batch` files stay missing, or the end. */
  function Reached(start: set<string>, files: seq<File>, batch: nat): (r: nat)
    ensures r <= |files|
    ensures forall m | 0 <= m < r :: Missing(start, files, m, m) < batch
    ensures r < |files| ==> Missing(start, files, r, r) >= batch
  {
    ReachedFrom(start, files, batch, 0)
  }

  function ReachedFrom(start: set<string>, files: seq<File>, batch: nat, m: nat): (r: nat)
    requires m <= |files|
    ensures m <= r <= |files|
    ensures forall x | m <= x < r :: Missing(start, files, x, x) < batch
    ensures r < |files| ==> Missing(start, files, r, r) >= batch
    decreases |files| - m
  {
    if m == |files| || Missing(start, files, m, m) >= batch then m
    else ReachedFrom(start, files, batch, m + 1)
  }

  lemma {:induction false} KnownGrows(start: set<string>, files: seq<File>, m: nat, n: nat)
    requires m <= n <= |files|
    ensures Known(start, files, m) <= Known(start, files, n)
    decreases n
  {
    if m < n {
      KnownGrows(start, files, m, n - 1);
    }
  }

  /** A name is known exactly if it was on record at the start or a file that is
      not passed over is filed under it. */
  lemma {:induction false} KnownIff(start: set<string>, files: seq<File>, m: nat, name: string)
    requires m <= |files|
    ensures name in Known(start, files, m) <==>
      name in start
      || exists j :: 0 <= j < m && files[j].fallback !in Known(start, files, j) && name in Filing(files[j])
  {
    if m > 0 {
      KnownIff(start, files, m - 1, name);
    }
  }

  lemma {:induction false} MissingShrinks(start: set<string>, files: seq<File>, m: nat, n: nat, j: nat)
    requires m <= n <= |files| && j <= |files|
    ensures Missing(start, files, n, j) <= Missing(start, files, m, j)
  {
    if j > 0 {
      KnownGrows(start, files, m, n);
      MissingShrinks(start, files, m, n, j - 1);
    }
  }

  lemma {:induction false} MissingGrows(start: set<string>, files: seq<File>, m: nat, i: nat, j: nat)
    requires m <= |files| && i <= j <= |files|
    ensures Missing(start, files, m, i) <= Missing(start, files, m, j)
    decreases j
  {
    if i < j {
      MissingGrows(start, files, m, i, j - 1);
    }
  }

  // ---------------------------------------------------------------- one pass

  lemma TriedFiles(records: map<string, Record>, file: File, reply: Option<nat>)
    requires IsVerdict(reply)
    ensures Tried(records, file, reply).Keys == records.Keys + Filing(file)
  {
  }

  function Max(a: nat, b: nat): nat {
    if a <= b then b else a
  }

  /** How many of the first s files get a turn. */
  function Turns(records: map<string, Record>, files: seq<File>, batch: nat, replies: Replies, s: nat): (u: nat)
    requires s <= |files|
    ensures u <= s
  {
    if s == 0 then 0
    else if PassOver(records, files[..s - 1], batch, replies).attempted < batch then s
    else Turns(records, files, batch, replies, s - 1)
  }

  /** Where a pass stands after the first s files when the first r had been
      through before: u had a turn, the names of max(r, u) are known, and every
      missing file among them was attempted. */
  ghost predicate Stands(start: set<string>, files: seq<File>, r: nat, u: nat, p: Pass)
    requires r <= |files| && u <= |files|
  {
    && p.records.Keys == Known(start, files, Max(r, u))
    && p.attempted >= Missing(start, files, Max(r, u), u)
    && (u <= r ==> p.attempted == Missing(start, files, r, u))
  }

  lemma TurnStands(start: set<string>, files: seq<File>, r: nat, s: nat, before: Pass, after: Pass, reply: Option<nat>)
    requires r <= |files| && s < |files| && Stands(start, files, r, s, before) && IsVerdict(reply)
    requires if files[s].fallback in before.records then after == before
             else after.records == Tried(before.records, files[s], reply) && after.attempted == before.attempted + 1
    ensures Stands(start, files, r, s + 1, after)
  {
    TriedFiles(before.records, files[s], reply);
    MissingShrinks(start, files, Max(r, s), Max(r, s + 1), s);
    KnownGrows(start, files, Max(r, s), Max(r, s + 1));
    if s < r {
      KnownGrows(start, files, s, r);
      KnownGrows(start, files, s + 1, r);
    }
  }

  lemma TurnOrFull(start: set<string>, files: seq<File>, batch: nat, r: nat, s: nat, u: nat, before: Pass, after: Pass,
                   reply: Option<nat>)
    requires r <= |files| && u <= s < |files| && Stands(start, files, r, u, before) && IsVerdict(reply)
    requires u < s ==> before.attempted >= batch
    requires if before.attempted >= batch || files[s].fallback in before.records then after == before
             else after.records == Tried(before.records, files[s], reply) && after.attempted == before.attempted + 1
    ensures if before.attempted < batch then Stands(start, files, r, s + 1, after)
            else after == before
  {
    if before.attempted < batch {
      TurnStands(start, files, r, s, before, after, reply);
    }
  }

  lemma TurnsStep(records: map<string, Record>, files: seq<File>, batch: nat, replies: Replies, s: nat, before: Pass)
    requires s < |files| && before == PassOver(records, files[..s], batch, replies)
    ensures Turns(records, files, batch, replies, s + 1) ==
      if before.attempted < batch then s + 1 else Turns(records, files, batch, replies, s)
  {
  }

  lemma {:induction false} PassStands(start: set<string>, records: map<string, Record>, files: seq<File>, batch: nat,
                                      replies: Replies, r: nat, s: nat, u: nat, p: Pass)
    requires Verdicts(replies) && r <= |files| && s <= |files| && records.Keys == Known(start, files, r)
    requires u == Turns(records, files, batch, replies, s) && p == PassOver(records, files[..s], batch, replies)
    ensures Stands(start, files, r, u, p)
    ensures u < s ==> p.attempted >= batch
  {
    if s == 0 {
      assert files[..0] == [];
    } else {
      var before := PassOver(records, files[..s - 1], batch, replies);
      var had := Turns(records, files, batch, replies, s - 1);
      PassStands(start, records, files, batch, replies, r, s - 1, had, before);
      PassStep(records, files, batch, replies, s - 1);
      TurnsStep(records, files, batch, replies, s - 1, before);
      TurnOrFull(start, files, batch, r, s - 1, had, before, p, replies(before.attempted));
    }
  }

  lemma {:induction false} TurnsGrow(records: map<string, Record>, files: seq<File>, batch: nat, replies: Replies,
                                     s: nat, t: nat)
    requires s <= t <= |files|
    ensures Turns(records, files, batch, replies, s) <= Turns(records, files, batch, replies, t)
    decreases t
  {
    if s < t {
      TurnsGrow(records, files, batch, replies, s, t - 1);
    }
  }

  lemma FullInReach(start: set<string>, files: seq<File>, batch: nat, r: nat, s: nat, u: nat, before: Pass)
    requires r <= Reached(start, files, batch) && u <= s < |files| && Stands(start, files, r, u, before)
    requires u < s ==> before.attempted >= batch
    requires before.attempted < batch && u <= Reached(start, files, batch)
    ensures s < Reached(start, files, batch)
  {
  }

  /** No pass gets past `batch` files that stay missing. */
  lemma {:induction false} NotBeyond(start: set<string>, records: map<string, Record>, files: seq<File>, batch: nat,
                                     replies: Replies, r: nat, s: nat)
    requires Verdicts(replies) && r <= Reached(start, files, batch) && records.Keys == Known(start, files, r)
    requires s <= |files|
    ensures Turns(records, files, batch, replies, s) <= Reached(start, files, batch)
  {
    if s > 0 {
      NotBeyond(start, records, files, batch, replies, r, s - 1);
      var before := PassOver(records, files[..s - 1], batch, replies);
      var had := Turns(records, files, batch, replies, s - 1);
      PassStands(start, records, files, batch, replies, r, s - 1, had, before);
      TurnsStep(records, files, batch, replies, s - 1, before);
      if before.attempted < batch {
        FullInReach(start, files, batch, r, s - 1, had, before);
      }
    }
  }

  /** A pass gets at least one file further, until it gets as far as it can. */
  lemma OneFurther(start: set<string>, records: map<string, Record>, files: seq<File>, batch: nat, replies: Replies,
                   r: nat)
    requires Verdicts(replies) && r < Reached(start, files, batch) && records.Keys == Known(start, files, r)
    ensures Turns(records, files, batch, replies, |files|) > r
  {
    var u := Turns(records, files, batch, replies, r);
    PassStands(start, records, files, batch, replies, r, r, u, PassOver(records, files[..r], batch, replies));
    MissingGrows(start, files, r, u, r);
    TurnsGrow(records, files, batch, replies, r + 1, |files|);
  }

  // ---------------------------------------------------------------- all passes

  ghost predicate AllVerdicts(all: nat -> Replies) {
    forall p: nat :: Verdicts(all(p))
  }

  /** How many files have had a turn in the first p passes. */
  function Far(records: map<string, Record>, files: seq<File>, batch: nat, all: nat -> Replies, p: nat): nat {
    if p == 0 then 0
    else
      Max(Far(records, files, batch, all, p - 1),
          Turns(AfterPasses(records, files, batch, all, p - 1), files, batch, all(p - 1), |files|))
  }

  lemma {:induction false} PassesStand(records: map<string, Record>, files: seq<File>, batch: nat, all: nat -> Replies,
                                       p: nat)
    requires AllVerdicts(all)
    ensures var r := Far(records, files, batch, all, p);
            && r <= Reached(records.Keys, files, batch)
            && (r < Reached(records.Keys, files, batch) ==> r >= p)
            && AfterPasses(records, files, batch, all, p).Keys == Known(records.Keys, files, r)
  {
    if p > 0 {
      PassesStand(records, files, batch, all, p - 1);
      var start, now := records.Keys, AfterPasses(records, files, batch, all, p - 1);
      var r := Far(records, files, batch, all, p - 1);
      assert Verdicts(all(p - 1));
      NotBeyond(start, now, files, batch, all(p - 1), r, |files|);
      if r < Reached(start, files, batch) {
        OneFurther(start, now, files, batch, all(p - 1), r);
      }
      assert files[..|files|] == files;
      var turns := Turns(now, files, batch, all(p - 1), |files|);
      PassStands(start, now, files, batch, all(p - 1), r, |files|, turns, PassOver(now, files, batch, all(p - 1)));
    }
  }

  /** The files from Reached on are not attempted in any pass. */
  lemma NeverReached(records: map<string, Record>, files: seq<File>, batch: nat, all: nat -> Replies, p: nat, i: nat)
    requires AllVerdicts(all) && Reached(records.Keys, files, batch) <= i < |files|
    ensures !AttemptedIn(records, files, batch, all, p, i)
  {
    PassesStand(records, files, batch, all, p);
    var now := AfterPasses(records, files, batch, all, p);
    assert Verdicts(all(p));
    NotBeyond(records.Keys, now, files, batch, all(p), Far(records, files, batch, all, p), i + 1);
  }

  lemma StillMissing(start: set<string>, files: seq<File>, batch: nat, i: nat)
    requires i < Reached(start, files, batch)
    ensures Missing(start, files, Reached(start, files, batch), i) < batch
  {
    var r := Reached(start, files, batch);
    MissingShrinks(start, files, i, r, i);
  }

  /** Whatever verdicts the attempts meet, from the |files|-th pass on each pass
      attempts exactly the files that are within reach and whose own name no
      file puts on record: those are sent again for ever, and only those. */
  lemma SentForeverIff(records: map<string, Record>, files: seq<File>, batch: nat, all: nat -> Replies, p: nat, i: nat)
    requires AllVerdicts(all) && |files| <= p && i < |files|
    ensures var reached := Reached(records.Keys, files, batch);
            AttemptedIn(records, files, batch, all, p, i) <==>
              i < reached && files[i].fallback !in Known(records.Keys, files, reached)
  {
    var start, reached := records.Keys, Reached(records.Keys, files, batch);
    PassesStand(records, files, batch, all, p);
    var now := AfterPasses(records, files, batch, all, p);
    assert Verdicts(all(p));
    if i < reached {
      var turns := Turns(now, files, batch, all(p), i);
      PassStands(start, now, files, batch, all(p), reached, i, turns, PassOver(now, files[..i], batch, all(p)));
      StillMissing(start, files, batch, i);
      MissingGrows(start, files, reached, turns, i);
    } else {
      NeverReached(records, files, batch, all, p, i);
    }
  }

  // ---------------------------------------------------------------- consequences

  lemma {:induction false} AllMissing(start: set<string>, files: seq<File>, m: nat, j: nat)
    requires m <= |files| && j <= |files|
    requires forall x | 0 <= x < j :: files[x].fallback !in Known(start, files, m)
    ensures Missing(start, files, m, j) == j
  {
    if j > 0 {
      AllMissing(start, files, m, j - 1);
    }
  }

  lemma {:induction false} AttemptsAreTurns(records: map<string, Record>, files: seq<File>, batch: nat,
                                            replies: Replies)
    ensures PassOver(records, files, batch, replies).attempted <= |files|
  {
    if files != [] {
      AttemptsAreTurns(records, files[..|files| - 1], batch, replies);
    }
  }

  /** A file within reach that stays missing is attempted in every pass that has
      room left for it, and there is room for the first `batch` files. */
  lemma MissingIsAttempted(records: map<string, Record>, files: seq<File>, batch: nat, all: nat -> Replies, p: nat,
                           i: nat)
    requires AllVerdicts(all) && i < |files| && i < batch
    requires i < Reached(records.Keys, files, batch)
    requires files[i].fallback !in Known(records.Keys, files, Reached(records.Keys, files, batch))
    ensures AttemptedIn(records, files, batch, all, p, i)
  {
    PassesStand(records, files, batch, all, p);
    var start, reached := records.Keys, Reached(records.Keys, files, batch);
    var now, r := AfterPasses(records, files, batch, all, p), Far(records, files, batch, all, p);
    assert Verdicts(all(p));
    var turns := Turns(now, files, batch, all(p), i);
    PassStands(start, now, files, batch, all(p), r, i, turns, PassOver(now, files[..i], batch, all(p)));
    KnownGrows(start, files, Max(r, turns), reached);
    AttemptsAreTurns(now, files[..i], batch, all(p));
  }

  /** If `batch` files come first and none of them is filed under the name of
      another's path or its own, every pass attempts them and no later file,
      although every reply is 200. */
  lemma RenamedFilesStarve(records: map<string, Record>, files: seq<File>, batch: nat, all: nat -> Replies, p: nat,
                           i: nat)
    requires forall q: nat, k: nat :: all(q)(k) == Some(200)
    requires batch <= |files| && i < |files|
    requires forall x | 0 <= x < batch :: files[x].fallback !in Known(records.Keys, files, batch)
    ensures AttemptedIn(records, files, batch, all, p, i) <==> i < batch
  {
    var start := records.Keys;
    assert AllVerdicts(all);
    AllMissing(start, files, batch, batch);
    FullIsReached(start, files, batch);
    if i < batch {
      MissingIsAttempted(records, files, batch, all, p, i);
    } else {
      NeverReached(records, files, batch, all, p, i);
    }
  }

  lemma FullIsReached(start: set<string>, files: seq<File>, batch: nat)
    requires batch <= |files| && Missing(start, files, batch, batch) == batch
    ensures Reached(start, files, batch) == batch
  {
  }

  /** A renamed file alone is sent in every pass, and with room for one attempt
      it shuts out every other file of the directory. */
  lemma OneRenamedFileStarves(file: File, rest: seq<File>, all: nat -> Replies, p: nat, i: nat)
    requires file.body.Some? && file.sendable
    requires file.body.value.wav.Some? && file.body.value.wav.value != file.fallback
    requires forall q: nat, k: nat :: all(q)(k) == Some(200)
    requires i <= |rest|
    ensures AttemptedIn(map[], [file] + rest, 1, all, p, i) <==> i == 0
  {
    var none: map<string, Record> := map[];
    var files := [file] + rest;
    assert Known(none.Keys, files, 0) == {};
    assert Known(none.Keys, files, 1) == {NameOf(file)};
    RenamedFilesStarve(none, files, 1, all, p, i);
  }

  lemma {:induction false} RecordsStay(records: map<string, Record>, files: seq<File>, batch: nat, all: nat -> Replies,
                                       p: nat, q: nat)
    requires p <= q
    ensures AfterPasses(records, files, batch, all, p).Keys <= AfterPasses(records, files, batch, all, q).Keys
    decreases q
  {
    if p < q {
      RecordsStay(records, files, batch, all, p, q - 1);
      PassIsBounded(AfterPasses(records, files, batch, all, q - 1), files, batch, all(q - 1));
    }
  }

  /** But two names that differ are not enough: a renamed file is left alone from
      the second pass on if another file is filed under the name of its path. */
  lemma RenamedYetSettled(a: File, c: File, all: nat -> Replies, p: nat)
    requires a.body.Some? && a.sendable && c.body.Some? && c.sendable
    requires a.body.value.wav.Some? && a.body.value.wav.value !in {a.fallback, c.fallback}
    requires c.body.value.wav == Some(a.fallback)
    requires forall q: nat, k: nat :: all(q)(k) == Some(200)
    ensures AttemptedIn(map[], [a, c], 2, all, p, 0) <==> p == 0
  {
    var none: map<string, Record> := map[];
    var files := [a, c];
    assert files[..0] == [] && files[..1] == [a] && files[..2] == files;
    PassStep(none, files, 2, all(0), 0);
    PassStep(none, files, 2, all(0), 1);
    assert PassOver(none, files[..1], 2, all(0)).records == map[NameOf(a) := Uploaded];
    assert a.fallback in PassOver(none, files, 2, all(0)).records;
    if p > 0 {
      RecordsStay(none, files, 2, all, 1, p);
      assert a.fallback in AfterPasses(none, files, 2, all, 1);
      var now := AfterPasses(none, files, 2, all, p);
      assert PassOver(now, [], 2, all(p)).records == now;
    }
  }
}
