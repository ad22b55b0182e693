/** The caching geocoder in front of a provider whose permanent answers are
    fixed but whose calls may fail for a while, called by several workers. */
module GeocodeCache {
  import opened Types

  datatype Place = Place(lon: real, lat: real)

  /** What the provider would say about an address once it can be reached:
      a place, or a permanent no. */
  datatype Answer = Found(place: Place) | NoResult

  datatype Outcome = Success(place: Place) | PermanentFailure | TransientFailure | CacheError

  datatype Entry = Entry(place: Place, success: bool, geocodedAt: Time)

  const FAILED_TTL: Time := 24 * 60 * 60

  const NOWHERE := Place(0.0, 0.0)

  /** One Geocode call and its surroundings. */
  datatype Call = Call(address: string, now: Time, lookupFails: bool, reachable: bool, storeFails: bool)

  /** An entry that answers a lookup without the provider. */
  predicate Fresh(cache: map<string, Entry>, address: string, now: Time) {
    address in cache && (cache[address].success || now - cache[address].geocodedAt < FAILED_TTL)
  }

  /** Whether this call reaches the provider at all. */
  predicate Asks(cache: map<string, Entry>, c: Call) {
    !c.lookupFails && !Fresh(cache, c.address, c.now)
  }

  function Step(cache: map<string, Entry>, answer: string -> Answer, c: Call): (map<string, Entry>, Outcome) {
    if c.lookupFails then (cache, CacheError)
    else if !Asks(cache, c) then
      (cache, if cache[c.address].success then Success(cache[c.address].place) else PermanentFailure)
    else if !c.reachable then (cache, TransientFailure)
    else match answer(c.address)
      case NoResult =>
        (if c.storeFails then cache else cache[c.address := Entry(NOWHERE, false, c.now)], PermanentFailure)
      case Found(place) =>
        if c.storeFails then (cache, CacheError)
        else (cache[c.address := Entry(place, true, c.now)], Success(place))
  }

  class CachedGeocoder {
    var cache: map<string, Entry>
    const answer: string -> Answer

    constructor (answer: string -> Answer)
      ensures cache == map[] && this.answer == answer
    {
      cache := map[];
      this.answer := answer;
    }

    method Lookup(address: string) returns (entry: Option<Entry>)
      ensures entry == if address in cache then Some(cache[address]) else None
    {
      entry := if address in cache then Some(cache[address]) else None;
    }

    method Store(address: string, place: Place, success: bool, now: Time, fails: bool) returns (ok: bool)
      modifies this`cache
      ensures ok <==> !fails
      ensures cache == if fails then old(cache)
                       else old(cache)[address := Entry(if success then place else NOWHERE, success, now)]
    {
      if !fails {
        cache := cache[address := Entry(if success then place else NOWHERE, success, now)];
      }
      ok := !fails;
    }

    method Geocode(c: Call) returns (o: Outcome)
      modifies this`cache
      ensures (cache, o) == Step(old(cache), answer, c)
      ensures o.TransientFailure? <==> Asks(old(cache), c) && !c.reachable
      ensures o.CacheError? <==>
        c.lookupFails || (Asks(old(cache), c) && c.reachable && answer(c.address).Found? && c.storeFails)
      ensures Asks(old(cache), c) && !o.TransientFailure? && !o.CacheError? ==>
        o == match answer(c.address) case Found(place) => Success(place) case NoResult => PermanentFailure
    {
      if c.lookupFails {
        return CacheError;
      }
      var entry := Lookup(c.address);
      if entry.Some? {
        if entry.value.success {
          return Success(entry.value.place);
        }
        if c.now - entry.value.geocodedAt < FAILED_TTL {
          return PermanentFailure;
        }
      }
      if !c.reachable {
        return TransientFailure;
      }
      match answer(c.address)
      case NoResult =>
        var _ := Store(c.address, NOWHERE, false, c.now, c.storeFails);
        return PermanentFailure;
      case Found(place) =>
        var ok := Store(c.address, place, true, c.now, c.storeFails);
        if !ok {
          return CacheError;
        }
        return Success(place);
    }
  }

  // ---------------------------------------------------------------- calls that overlap

  // Nothing is locked between a call's lookup and its store, so calls of several
  // workers are taken apart into their three steps.

  /** A call under way: its lookup missed, or the provider has answered it. The
      clock is read once, at the lookup. */
  datatype Flight = Asking(address: string, now: Time) | Answered(address: string, now: Time, answer: Answer)

  datatype State = State(cache: map<string, Entry>, flights: map<nat, Flight>)

  datatype Move =
    | Lookup(worker: nat, address: string, now: Time, fails: bool)
    | Ask(worker: nat, reachable: bool)
    | Store(worker: nat, fails: bool)
    | Quit(worker: nat)

  const Idle := State(map[], map[])

  /** The lookup misses, and the call goes on to the provider. */
  predicate Misses(s: State, m: Move) {
    m.Lookup? && m.worker !in s.flights && !m.fails && !Fresh(s.cache, m.address, m.now)
  }

  predicate Reaches(s: State, m: Move) {
    m.Ask? && m.worker in s.flights && s.flights[m.worker].Asking? && m.reachable
  }

  predicate Stores(s: State, m: Move) {
    m.Store? && m.worker in s.flights && s.flights[m.worker].Answered? && !m.fails
  }

  function EntryOf(f: Flight): Entry
    requires f.Answered?
  {
    match f.answer
    case Found(place) => Entry(place, true, f.now)
    case NoResult => Entry(NOWHERE, false, f.now)
  }

  function Next(s: State, answer: string -> Answer, m: Move): State {
    match m
    case Lookup(w, address, now, fails) =>
      if Misses(s, m) then s.(flights := s.flights[w := Asking(address, now)]) else s
    case Ask(w, _) =>
      if Reaches(s, m) then
        var f := s.flights[w];
        s.(flights := s.flights[w := Answered(f.address, f.now, answer(f.address))])
      else if w in s.flights && s.flights[w].Asking? then s.(flights := s.flights - {w})
      else s
    case Store(w, _) =>
      if Stores(s, m) then
        State(s.cache[s.flights[w].address := EntryOf(s.flights[w])], s.flights - {w})
      else if w in s.flights && s.flights[w].Answered? then s.(flights := s.flights - {w})
      else s
    case Quit(w) => s.(flights := s.flights - {w})
  }

  /** What a call returns at this step, if it returns here, and for which address. */
  function Returns(s: State, m: Move): Option<(string, Outcome)> {
    match m
    case Lookup(w, address, now, fails) =>
      if w in s.flights || Misses(s, m) then None
      else if fails then Some((address, CacheError))
      else Some((address, if s.cache[address].success then Success(s.cache[address].place) else PermanentFailure))
    case Ask(w, reachable) =>
      if w in s.flights && s.flights[w].Asking? && !reachable then Some((s.flights[w].address, TransientFailure))
      else None
    case Store(w, fails) =>
      if w in s.flights && s.flights[w].Answered? then
        var f := s.flights[w];
        Some((f.address, if f.answer.NoResult? then PermanentFailure
                         else if fails then CacheError else Success(f.answer.place)))
      else None
    case Quit(_) => None
  }

  function Run(answer: string -> Answer, moves: seq<Move>): State {
    if moves == [] then Idle else Next(Run(answer, moves[..|moves| - 1]), answer, moves[|moves| - 1])
  }

  /** One worker's call with nobody in between does what Geocode does and
      returns what it returns. */
  lemma CallIsThreeMoves(s: State, answer: string -> Answer, w: nat, c: Call)
    requires w !in s.flights
    ensures var looked := Next(s, answer, Lookup(w, c.address, c.now, c.lookupFails));
            var asked := Next(looked, answer, Ask(w, c.reachable));
            var done := Next(asked, answer, Store(w, c.storeFails));
            && done == State(Step(s.cache, answer, c).0, s.flights)
            && Some((c.address, Step(s.cache, answer, c).1))
               == (if Returns(s, Lookup(w, c.address, c.now, c.lookupFails)).Some?
                   then Returns(s, Lookup(w, c.address, c.now, c.lookupFails))
                   else if Returns(looked, Ask(w, c.reachable)).Some? then Returns(looked, Ask(w, c.reachable))
                   else Returns(asked, Store(w, c.storeFails)))
  {
    var looked := Next(s, answer, Lookup(w, c.address, c.now, c.lookupFails));
    assert looked.flights - {w} == s.flights;
    var asked := Next(looked, answer, Ask(w, c.reachable));
    assert asked.flights - {w} == s.flights;
  }

  // ---------------------------------------------------------------- every interleaving

  /** Entries and answers under way repeat the provider, and nothing else. */
  ghost predicate Honest(s: State, answer: string -> Answer) {
    && (forall a | a in s.cache ::
          if s.cache[a].success then answer(a) == Found(s.cache[a].place) else answer(a) == NoResult)
    && (forall w | w in s.flights && s.flights[w].Answered? :: s.flights[w].answer == answer(s.flights[w].address))
  }

  lemma {:induction false} CacheIsHonest(answer: string -> Answer, moves: seq<Move>)
    ensures Honest(Run(answer, moves), answer)
  {
    if moves != [] {
      CacheIsHonest(answer, moves[..|moves| - 1]);
    }
  }

  /** However calls overlap, a success is the provider's place and a permanent
      failure the provider's no, and only a store of such an answer ever changes
      the cache, by that one entry. */
  lemma AgreesWithProvider(answer: string -> Answer, moves: seq<Move>, m: Move)
    ensures var r := Returns(Run(answer, moves), m);
            && (r.Some? && r.value.1.Success? ==> answer(r.value.0) == Found(r.value.1.place))
            && (r.Some? && r.value.1.PermanentFailure? ==> answer(r.value.0) == NoResult)
    ensures var s := Run(answer, moves);
            if Stores(s, m) then
              var a := s.flights[m.worker].address;
              Next(s, answer, m).cache == s.cache[a := EntryOf(s.flights[m.worker])]
              && EntryOf(s.flights[m.worker]).success == answer(a).Found?
            else Next(s, answer, m).cache == s.cache
  {
    CacheIsHonest(answer, moves);
  }

  /** A stored success stays a success with the same place; only its time can
      move, when an overlapping call stores the same answer again. */
  lemma {:induction false} SuccessIsForever(answer: string -> Answer, moves: seq<Move>, n: nat, a: string)
    requires n <= |moves| && a in Run(answer, moves[..n]).cache && Run(answer, moves[..n]).cache[a].success
    ensures var before, after := Run(answer, moves[..n]).cache, Run(answer, moves).cache;
            a in after && after[a] == before[a].(geocodedAt := after[a].geocodedAt)
  {
    if n == |moves| {
      assert moves[..n] == moves;
    } else {
      var rest := moves[..|moves| - 1];
      assert rest[..n] == moves[..n];
      SuccessIsForever(answer, rest, n, a);
      CacheIsHonest(answer, rest);
      CacheIsHonest(answer, moves);
    }
  }

  /** The clock reading of the last answer stored for an address. */
  function LastStored(answer: string -> Answer, moves: seq<Move>, a: string): Option<Time> {
    if moves == [] then None
    else
      var rest, m := moves[..|moves| - 1], moves[|moves| - 1];
      var s := Run(answer, rest);
      if Stores(s, m) && s.flights[m.worker].address == a then Some(s.flights[m.worker].now)
      else LastStored(answer, rest, a)
  }

  lemma {:induction false} EntryIsLastStored(answer: string -> Answer, moves: seq<Move>, a: string)
    ensures var cache := Run(answer, moves).cache;
            && (a in cache <==> LastStored(answer, moves, a).Some?)
            && (a in cache ==> cache[a].geocodedAt == LastStored(answer, moves, a).value)
  {
    if moves != [] {
      EntryIsLastStored(answer, moves[..|moves| - 1], a);
    }
  }

  /** A call goes on to the provider if and only if no answer for its address was
      stored before its lookup, or the answer is a no and the last one stored
      is a day old. What other calls have asked but not yet stored does not help. */
  lemma AsksProviderIff(answer: string -> Answer, moves: seq<Move>, w: nat, a: string, now: Time)
    requires w !in Run(answer, moves).flights
    ensures var last := LastStored(answer, moves, a);
            Misses(Run(answer, moves), Lookup(w, a, now, false)) <==>
              last.None? || (answer(a).NoResult? && now - last.value >= 86_400)
  {
    EntryIsLastStored(answer, moves, a);
    CacheIsHonest(answer, moves);
  }

  lemma {:induction false} StoredStays(answer: string -> Answer, moves: seq<Move>, n: nat, a: string)
    requires n <= |moves| && LastStored(answer, moves[..n], a).Some?
    ensures LastStored(answer, moves, a).Some?
  {
    if n == |moves| {
      assert moves[..n] == moves;
    } else {
      var rest := moves[..|moves| - 1];
      assert rest[..n] == moves[..n];
      StoredStays(answer, rest, n, a);
    }
  }

  /** Once an answer was stored, no later lookup leads to the provider for a
      place it found, nor within a day of the last no stored. */
  lemma ProviderSpared(answer: string -> Answer, moves: seq<Move>, n: nat, m: Move)
    requires n <= |moves| && m.Lookup? && LastStored(answer, moves[..n], m.address).Some?
    requires Misses(Run(answer, moves), m)
    ensures answer(m.address) == NoResult
    ensures LastStored(answer, moves, m.address).Some?
    ensures m.now - LastStored(answer, moves, m.address).value >= FAILED_TTL
  {
    StoredStays(answer, moves, n, m.address);
    AsksProviderIff(answer, moves, m.worker, m.address, m.now);
  }

  /** Two workers that both look up before either stores both ask, and the second
      store replaces the time of the first. */
  lemma OverlappingCallsBothAsk(answer: string -> Answer, a: string, place: Place, t: Time, u: Time)
    requires answer(a) == Found(place)
    ensures var looks := [Lookup(0, a, t, false), Lookup(1, a, u, false)];
            var asks := looks + [Ask(0, true)];
            var stored := asks + [Store(0, false)];
            && Reaches(Run(answer, looks), Ask(0, true)) && Reaches(Run(answer, stored), Ask(1, true))
            && Run(answer, stored).cache == map[a := Entry(place, true, t)]
            && Run(answer, stored + [Ask(1, true), Store(1, false)]).cache == map[a := Entry(place, true, u)]
  {
    var looks := [Lookup(0, a, t, false), Lookup(1, a, u, false)];
    var asks := looks + [Ask(0, true)];
    var stored := asks + [Store(0, false)];
    var again := stored + [Ask(1, true)];
    RunSnoc(answer, [], Lookup(0, a, t, false));
    RunSnoc(answer, [Lookup(0, a, t, false)], Lookup(1, a, u, false));
    assert [] + [Lookup(0, a, t, false)] == [Lookup(0, a, t, false)];
    assert [Lookup(0, a, t, false)] + [Lookup(1, a, u, false)] == looks;
    RunSnoc(answer, looks, Ask(0, true));
    RunSnoc(answer, asks, Store(0, false));
    RunSnoc(answer, stored, Ask(1, true));
    RunSnoc(answer, again, Store(1, false));
    assert stored + [Ask(1, true), Store(1, false)] == again + [Store(1, false)];
  }

  lemma RunSnoc(answer: string -> Answer, moves: seq<Move>, m: Move)
    ensures Run(answer, moves + [m]) == Next(Run(answer, moves), answer, m)
  {
    assert (moves + [m])[..|moves|] == moves;
  }

  // ---------------------------------------------------------------- what a call returns

  /** Every call under way looked its address up and missed; its clock reading is
      that of the lookup. */
  ghost predicate LookedUp(moves: seq<Move>, w: nat, f: Flight) {
    exists i :: 0 <= i < |moves| && moves[i] == Lookup(w, f.address, f.now, false)
  }

  lemma {:induction false} FlightsLookedUp(answer: string -> Answer, moves: seq<Move>)
    ensures forall w | w in Run(answer, moves).flights :: LookedUp(moves, w, Run(answer, moves).flights[w])
  {
    if moves != [] {
      var rest, m := moves[..|moves| - 1], moves[|moves| - 1];
      FlightsLookedUp(answer, rest);
      forall w | w in Run(answer, moves).flights ensures LookedUp(moves, w, Run(answer, moves).flights[w]) {
        var f := Run(answer, moves).flights[w];
        if w in Run(answer, rest).flights {
          var g := Run(answer, rest).flights[w];
          assert LookedUp(rest, w, g) && g.address == f.address && g.now == f.now;
          var i :| 0 <= i < |rest| && rest[i] == Lookup(w, g.address, g.now, false);
          assert moves[i] == rest[i];
        } else {
          assert m == Lookup(w, f.address, f.now, false);
        }
      }
    }
  }

  /** The answer the cache holds for the address is still good: a place, or a no
      less than a day old. */
  ghost predicate Settled(answer: string -> Answer, moves: seq<Move>, a: string, now: Time) {
    var last := LastStored(answer, moves, a);
    last.Some? && (answer(a).Found? || now < last.value + 86_400)
  }

  /** The call of this worker ends with this move: its lookup fails or is answered
      by the cache, or its question does not get through, or it has its answer
      and stores it. */
  ghost predicate Ends(answer: string -> Answer, moves: seq<Move>, m: Move) {
    var flights := Run(answer, moves).flights;
    match m
    case Lookup(w, a, now, fails) => w !in flights && (fails || Settled(answer, moves, a, now))
    case Ask(w, reachable) => w in flights && flights[w].Asking? && !reachable
    case Store(w, _) => w in flights && flights[w].Answered?
    case Quit(_) => false
  }

  function AddressOf(answer: string -> Answer, moves: seq<Move>, m: Move): string
    requires m.Lookup? || m.worker in Run(answer, moves).flights
  {
    if m.Lookup? then m.address else Run(answer, moves).flights[m.worker].address
  }

  /** Whatever overlaps: a call returns exactly at such a move, for its own
      address. It returns a transient failure exactly if its question did not
      get through, a cache error exactly if its lookup failed or a place it was
      given could not be stored, and otherwise the provider's own answer. */
  lemma ReturnsIff(answer: string -> Answer, moves: seq<Move>, m: Move)
    ensures var r := Returns(Run(answer, moves), m);
            && (r.Some? <==> Ends(answer, moves, m))
            && (r.Some? ==>
                  var a := AddressOf(answer, moves, m);
                  && r.value.0 == a
                  && (r.value.1.TransientFailure? <==> m.Ask?)
                  && (r.value.1.CacheError? <==>
                        (m.Lookup? && m.fails) || (m.Store? && m.fails && answer(a).Found?))
                  && (!r.value.1.TransientFailure? && !r.value.1.CacheError? ==>
                        r.value.1
                        == match answer(a) case Found(place) => Success(place) case NoResult => PermanentFailure))
  {
    CacheIsHonest(answer, moves);
    EntryIsLastStored(answer, moves, if m.Lookup? then m.address else "");
  }

  /** A worker is done with its call exactly when it has returned or given up. */
  lemma CallEnds(answer: string -> Answer, moves: seq<Move>, m: Move)
    ensures var s, t := Run(answer, moves), Next(Run(answer, moves), answer, m);
            && (forall w | w != m.worker :: (w in t.flights <==> w in s.flights)
                                         && (w in s.flights ==> t.flights[w] == s.flights[w]))
            && (m.worker in s.flights ==> (m.worker !in t.flights <==> m.Quit? || Ends(answer, moves, m)))
            && (m.worker !in s.flights ==> (m.worker in t.flights <==> m.Lookup? && !Ends(answer, moves, m)))
  {
    CacheIsHonest(answer, moves);
    EntryIsLastStored(answer, moves, if m.Lookup? then m.address else "");
  }
}
