/** Structured differences between two snapshots of one incident, and the proof
    that replaying them rebuilds the newer snapshot whatever order the diff's
    map iterations took. */
module Deltas {
  import opened Types

  datatype StatusChange = StatusChange(unit: string, fromStatus: string, toStatus: string)

  /** A changed column; a coordinate is given by its value to six decimals. */
  datatype FieldChange = TextChange(field: string, from: string, to: string)
                       | NumberChange(field: string, fromValue: real, toValue: real)

  datatype IncidentDelta = IncidentDelta(added: seq<Unit>, removed: seq<Unit>,
                                         changed: seq<StatusChange>, fields: seq<FieldChange>)
  {
    predicate Empty() {
      |added| == 0 && |removed| == 0 && |changed| == 0 && |fields| == 0
    }

    /** The delta up to the order in which unit changes were emitted. */
    ghost function Bag(): DeltaBag {
      DeltaBag(multiset(added), multiset(removed), multiset(changed), fields)
    }
  }

  datatype DeltaBag = DeltaBag(added: multiset<Unit>, removed: multiset<Unit>,
                               changed: multiset<StatusChange>, fields: seq<FieldChange>)
  {
    ghost predicate Empty() {
      |added| == 0 && |removed| == 0 && |changed| == 0 && |fields| == 0
    }
  }

  // ---------------------------------------------------------------- indexing

  /** Units by name; blank names are dropped and the last entry for a name wins. */
  ghost function ByName(units: seq<Unit>): (m: map<string, Unit>)
    ensures forall n | n in m :: m[n].name == n && n != "" && m[n] in units
  {
    if units == [] then map[]
    else
      var u := units[|units| - 1];
      var rest := ByName(units[..|units| - 1]);
      if u.name == "" then rest else rest[u.name := u]
  }

  /** The name-to-status view of a snapshot. */
  ghost function StatusMap(units: seq<Unit>): map<string, string> {
    var m := ByName(units);
    map n | n in m :: m[n].status
  }

  method UnitsByName(units: seq<Unit>) returns (out: map<string, Unit>)
    ensures out == ByName(units)
  {
    out := map[];
    for i := 0 to |units|
      invariant out == ByName(units[..i])
    {
      assert units[..i + 1][..i] == units[..i];
      if units[i].name != "" {
        out := out[units[i].name := units[i]];
      }
    }
    assert units[..|units|] == units;
  }

  // ---------------------------------------------------------------- diffing

  ghost function AddedUnits(p: map<string, Unit>, n: map<string, Unit>, seen: set<string>): set<Unit> {
    set name | name in seen && name in n && name !in p :: n[name]
  }

  ghost function RemovedUnits(p: map<string, Unit>, n: map<string, Unit>, seen: set<string>): set<Unit> {
    set name | name in seen && name in p && name !in n :: p[name]
  }

  ghost function ChangedUnits(p: map<string, Unit>, n: map<string, Unit>, seen: set<string>): set<StatusChange> {
    set name | name in seen && name in p && name in n && p[name].status != n[name].status
      :: StatusChange(name, p[name].status, n[name].status)
  }

  /** The unit changes between two snapshots, each exactly once. */
  ghost function UnitBag(prior: seq<Unit>, next: seq<Unit>): DeltaBag {
    var p, n := ByName(prior), ByName(next);
    DeltaBag(multiset(AddedUnits(p, n, n.Keys)), multiset(RemovedUnits(p, n, p.Keys)),
             multiset(ChangedUnits(p, n, n.Keys)), [])
  }

  lemma BagGrows<T>(s: set<T>, x: T)
    requires x !in s
    ensures multiset(s + {x}) == multiset(s) + multiset{x}
  {
  }

  ghost predicate Indexed(m: map<string, Unit>) {
    forall n | n in m :: m[n].name == n
  }

  lemma AddedGrows(p: map<string, Unit>, n: map<string, Unit>, seen: set<string>, name: string)
    requires Indexed(n) && name in n && name !in seen
    ensures multiset(AddedUnits(p, n, seen + {name}))
         == multiset(AddedUnits(p, n, seen)) + (if name in p then multiset{} else multiset{n[name]})
  {
    if name in p {
      assert AddedUnits(p, n, seen + {name}) == AddedUnits(p, n, seen);
    } else {
      assert AddedUnits(p, n, seen + {name}) == AddedUnits(p, n, seen) + {n[name]};
      BagGrows(AddedUnits(p, n, seen), n[name]);
    }
  }

  lemma RemovedGrows(p: map<string, Unit>, n: map<string, Unit>, seen: set<string>, name: string)
    requires Indexed(p) && name in p && name !in seen
    ensures multiset(RemovedUnits(p, n, seen + {name}))
         == multiset(RemovedUnits(p, n, seen)) + (if name in n then multiset{} else multiset{p[name]})
  {
    if name in n {
      assert RemovedUnits(p, n, seen + {name}) == RemovedUnits(p, n, seen);
    } else {
      assert RemovedUnits(p, n, seen + {name}) == RemovedUnits(p, n, seen) + {p[name]};
      BagGrows(RemovedUnits(p, n, seen), p[name]);
    }
  }

  lemma ChangedGrows(p: map<string, Unit>, n: map<string, Unit>, seen: set<string>, name: string)
    requires name in n && name !in seen
    ensures multiset(ChangedUnits(p, n, seen + {name}))
         == multiset(ChangedUnits(p, n, seen))
            + (if name in p && p[name].status != n[name].status
               then multiset{StatusChange(name, p[name].status, n[name].status)} else multiset{})
  {
    if name in p && p[name].status != n[name].status {
      var change := StatusChange(name, p[name].status, n[name].status);
      assert ChangedUnits(p, n, seen + {name}) == ChangedUnits(p, n, seen) + {change};
      BagGrows(ChangedUnits(p, n, seen), change);
    } else {
      assert ChangedUnits(p, n, seen + {name}) == ChangedUnits(p, n, seen);
    }
  }

  /** The delta holds the changes of the names seen so far. */
  ghost predicate DiffedUpTo(d: IncidentDelta, p: map<string, Unit>, n: map<string, Unit>,
                             seenNext: set<string>, seenPrior: set<string>)
  {
    d.Bag() == DeltaBag(multiset(AddedUnits(p, n, seenNext)), multiset(RemovedUnits(p, n, seenPrior)),
                        multiset(ChangedUnits(p, n, seenNext)), [])
  }

  method DiffUnits(prior: seq<Unit>, next: seq<Unit>) returns (delta: IncidentDelta)
    ensures delta.Bag() == UnitBag(prior, next)
  {
    var p := UnitsByName(prior);
    var n := UnitsByName(next);
    delta := IncidentDelta([], [], [], []);

    // Go's map iteration order is unspecified: any key may come next.
    var todo := n.Keys;
    while todo != {}
      invariant todo <= n.Keys
      invariant DiffedUpTo(delta, p, n, n.Keys - todo, {})
      decreases todo
    {
      var name :| name in todo;
      delta := NoteNext(delta, p, n, n.Keys - todo, name);
      assert n.Keys - (todo - {name}) == (n.Keys - todo) + {name};
      todo := todo - {name};
    }
    assert n.Keys - todo == n.Keys;

    todo := p.Keys;
    while todo != {}
      invariant todo <= p.Keys
      invariant DiffedUpTo(delta, p, n, n.Keys, p.Keys - todo)
      decreases todo
    {
      var name :| name in todo;
      delta := NotePrior(delta, p, n, p.Keys - todo, name);
      assert p.Keys - (todo - {name}) == (p.Keys - todo) + {name};
      todo := todo - {name};
    }
    assert p.Keys - todo == p.Keys;
  }

  /** One turn of the loop over the newer snapshot. */
  method NoteNext(delta: IncidentDelta, p: map<string, Unit>, n: map<string, Unit>,
                  ghost seen: set<string>, name: string) returns (d: IncidentDelta)
    requires Indexed(n) && name in n && name !in seen && DiffedUpTo(delta, p, n, seen, {})
    ensures DiffedUpTo(d, p, n, seen + {name}, {})
  {
    d := delta;
    AddedGrows(p, n, seen, name);
    ChangedGrows(p, n, seen, name);
    if name !in p {
      d := d.(added := d.added + [n[name]]);
    } else if p[name].status != n[name].status {
      d := d.(changed := d.changed + [StatusChange(name, p[name].status, n[name].status)]);
    }
  }

  /** One turn of the loop over the older snapshot. */
  method NotePrior(delta: IncidentDelta, p: map<string, Unit>, n: map<string, Unit>,
                   ghost seen: set<string>, name: string) returns (d: IncidentDelta)
    requires Indexed(p) && name in p && name !in seen && DiffedUpTo(delta, p, n, n.Keys, seen)
    ensures DiffedUpTo(d, p, n, n.Keys, seen + {name})
  {
    d := delta;
    RemovedGrows(p, n, seen, name);
    if name !in n {
      d := d.(removed := d.removed + [p[name]]);
    }
  }

  // ---------------------------------------------------------------- fields

  const NATURE_CODE := "nature_code"
  const NATURE_DESC := "nature_desc"
  const CHANNEL := "channel"
  const SYMBOL_CODE := "symbol_code"
  const LOCATION_TEXT := "location_text"

  const LON := "lon"
  const LAT := "lat"

  /** What a coordinate must move by for the delta to say so. */
  const TOLERANCE: real := 0.000001

  function FieldDiff(field: string, prior: string, next: string): seq<FieldChange> {
    if prior != next then [TextChange(field, prior, next)] else []
  }

  predicate Moved(prior: real, next: real) {
    prior - next > TOLERANCE || next - prior > TOLERANCE
  }

  /** The nearest number with six decimals. */
  function SixDecimals(x: real): (r: real)
    ensures -0.0000005 <= r - x <= 0.0000005
  {
    (x * 1000000.0 + 0.5).Floor as real / 1000000.0
  }

  /** Coordinates that differ by more than the tolerance print differently. */
  lemma MovedShows(prior: real, next: real)
    requires Moved(prior, next)
    ensures SixDecimals(prior) != SixDecimals(next)
  {
  }

  function NumberDiff(field: string, prior: real, next: real): seq<FieldChange> {
    if Moved(prior, next) then [NumberChange(field, SixDecimals(prior), SixDecimals(next))] else []
  }

  function TextDiffs(p: Fields, n: Fields): seq<FieldChange> {
    FieldDiff(NATURE_CODE, p.natureCode, n.natureCode)
    + FieldDiff(NATURE_DESC, p.natureDesc, n.natureDesc)
    + FieldDiff(CHANNEL, p.channel, n.channel)
    + FieldDiff(SYMBOL_CODE, p.symbolCode, n.symbolCode)
    + FieldDiff(LOCATION_TEXT, p.locationText, n.locationText)
  }

  function FieldDiffs(p: Fields, n: Fields): seq<FieldChange> {
    TextDiffs(p, n) + NumberDiff(LON, p.lon, n.lon) + NumberDiff(LAT, p.lat, n.lat)
  }

  method AppendFieldChange(delta: IncidentDelta, field: string, prior: string, next: string)
    returns (d: IncidentDelta)
    ensures d.Bag() == delta.Bag().(fields := delta.fields + FieldDiff(field, prior, next))
  {
    d := delta;
    if prior != next {
      d := d.(fields := d.fields + [TextChange(field, prior, next)]);
    }
  }

  method AppendFloatFieldChange(delta: IncidentDelta, field: string, prior: real, next: real)
    returns (d: IncidentDelta)
    ensures d.Bag() == delta.Bag().(fields := delta.fields + NumberDiff(field, prior, next))
  {
    d := delta;
    if prior - next > TOLERANCE || next - prior > TOLERANCE {
      MovedShows(prior, next);
      if SixDecimals(prior) != SixDecimals(next) {
        d := d.(fields := d.fields + [NumberChange(field, SixDecimals(prior), SixDecimals(next))]);
      }
    }
  }

  /** The part of a stored incident that the diff looks at. */
  datatype Prior = Prior(fields: Fields, units: seq<Unit>, clearedAt: Option<Time>)

  ghost function IncidentBag(prior: Option<Prior>, inc: Incident): DeltaBag {
    match prior
    case None => UnitBag([], inc.units)
    case Some(p) => UnitBag(p.units, inc.units).(fields := FieldDiffs(p.fields, inc.fields))
  }

  method BuildIncidentDelta(prior: Option<Prior>, inc: Incident) returns (delta: IncidentDelta)
    ensures delta.Bag() == IncidentBag(prior, inc)
  {
    match prior
    case None =>
      delta := DiffUnits([], inc.units);
    case Some(p) =>
      delta := DiffUnits(p.units, inc.units);
      delta := AppendFieldChanges(delta, p.fields, inc.fields);
  }

  method AppendFieldChanges(delta: IncidentDelta, p: Fields, n: Fields) returns (d: IncidentDelta)
    ensures d.Bag() == delta.Bag().(fields := delta.fields + FieldDiffs(p, n))
  {
    var f := delta.fields;
    d := AppendTextChanges(delta, p, n);
    d := AppendFloatFieldChange(d, LON, p.lon, n.lon);
    d := AppendFloatFieldChange(d, LAT, p.lat, n.lat);
    assert d.Bag().fields == d.fields == f + FieldDiffs(p, n);
  }

  method AppendTextChanges(delta: IncidentDelta, p: Fields, n: Fields) returns (d: IncidentDelta)
    ensures d.Bag() == delta.Bag().(fields := delta.fields + TextDiffs(p, n))
  {
    var f := delta.fields;
    d := AppendFieldChange(delta, NATURE_CODE, p.natureCode, n.natureCode);
    d := AppendFieldChange(d, NATURE_DESC, p.natureDesc, n.natureDesc);
    d := AppendFieldChange(d, CHANNEL, p.channel, n.channel);
    d := AppendFieldChange(d, SYMBOL_CODE, p.symbolCode, n.symbolCode);
    d := AppendFieldChange(d, LOCATION_TEXT, p.locationText, n.locationText);
    assert d.Bag().fields == d.fields == f + TextDiffs(p, n);
  }

  // ---------------------------------------------------------------- replaying

  ghost function RemoveAll(m: map<string, string>, units: seq<Unit>): map<string, string> {
    if units == [] then m
    else RemoveAll(m, units[..|units| - 1]) - {units[|units| - 1].name}
  }

  ghost function AddAll(m: map<string, string>, units: seq<Unit>): map<string, string> {
    if units == [] then m
    else AddAll(m, units[..|units| - 1])[units[|units| - 1].name := units[|units| - 1].status]
  }

  ghost function ChangeAll(m: map<string, string>, changes: seq<StatusChange>): map<string, string> {
    if changes == [] then m
    else ChangeAll(m, changes[..|changes| - 1])[changes[|changes| - 1].unit := changes[|changes| - 1].toStatus]
  }

  /** What a reader of the event log does with one delta. */
  ghost function ReplayUnits(m: map<string, string>, d: IncidentDelta): map<string, string> {
    AddAll(ChangeAll(RemoveAll(m, d.removed), d.changed), d.added)
  }

  function SetField(f: Fields, c: FieldChange): Fields {
    match c
    case TextChange(field, _, to) => SetText(f, field, to)
    case NumberChange(field, _, to) =>
      if field == LON then f.(lon := to) else if field == LAT then f.(lat := to) else f
  }

  function SetText(f: Fields, field: string, to: string): Fields {
    if field == NATURE_CODE then f.(natureCode := to)
    else if field == NATURE_DESC then f.(natureDesc := to)
    else if field == CHANNEL then f.(channel := to)
    else if field == SYMBOL_CODE then f.(symbolCode := to)
    else if field == LOCATION_TEXT then f.(locationText := to)
    else f
  }

  function ReplayFields(f: Fields, changes: seq<FieldChange>): Fields {
    if changes == [] then f
    else SetField(ReplayFields(f, changes[..|changes| - 1]), changes[|changes| - 1])
  }

  lemma {:induction false} RemoveAllIs(m: map<string, string>, units: seq<Unit>)
    ensures RemoveAll(m, units) == m - Names(units)
  {
    if units != [] {
      var rest, u := units[..|units| - 1], units[|units| - 1];
      RemoveAllIs(m, rest);
      assert units == rest + [u];
      assert Names(units) == Names(rest) + {u.name};
    }
  }

  lemma {:induction false} AddAllIs(m: map<string, string>, units: seq<Unit>, target: map<string, string>)
    requires forall u | u in units :: u.name in target && target[u.name] == u.status
    ensures AddAll(m, units).Keys == m.Keys + Names(units)
    ensures forall k | k in AddAll(m, units) ::
      AddAll(m, units)[k] == if k in Names(units) then target[k] else m[k]
  {
    if units != [] {
      var rest, u := units[..|units| - 1], units[|units| - 1];
      AddAllIs(m, rest, target);
      assert units == rest + [u];
      assert Names(units) == Names(rest) + {u.name};
      assert AddAll(m, units) == AddAll(m, rest)[u.name := u.status];
    }
  }

  lemma {:induction false} ChangeAllIs(m: map<string, string>, changes: seq<StatusChange>, target: map<string, string>)
    requires forall c | c in changes :: c.unit in target && target[c.unit] == c.toStatus
    ensures ChangeAll(m, changes).Keys == m.Keys + ChangedNames(changes)
    ensures forall k | k in ChangeAll(m, changes) ::
      ChangeAll(m, changes)[k] == if k in ChangedNames(changes) then target[k] else m[k]
  {
    if changes != [] {
      var rest, c := changes[..|changes| - 1], changes[|changes| - 1];
      ChangeAllIs(m, rest, target);
      assert changes == rest + [c];
      assert ChangedNames(changes) == ChangedNames(rest) + {c.unit};
    }
  }

  lemma BagMembers<T>(s: seq<T>, t: set<T>)
    requires multiset(s) == multiset(t)
    ensures forall x :: x in s <==> x in t
  {
    forall x ensures x in s <==> x in t {
      assert x in s <==> x in multiset(s);
      assert x in t <==> x in multiset(t);
    }
  }

  ghost function Names(units: seq<Unit>): set<string> {
    set u | u in units :: u.name
  }

  ghost function ChangedNames(changes: seq<StatusChange>): set<string> {
    set c | c in changes :: c.unit
  }

  lemma RemovedNames(p: map<string, Unit>, n: map<string, Unit>, removed: seq<Unit>)
    requires multiset(removed) == multiset(RemovedUnits(p, n, p.Keys)) && forall k | k in p :: p[k].name == k
    ensures Names(removed) == p.Keys - n.Keys
  {
    BagMembers(removed, RemovedUnits(p, n, p.Keys));
    forall k | k in p.Keys - n.Keys ensures k in Names(removed) { assert p[k] in removed; }
  }

  lemma AddedNames(p: map<string, Unit>, n: map<string, Unit>, added: seq<Unit>)
    requires multiset(added) == multiset(AddedUnits(p, n, n.Keys)) && forall k | k in n :: n[k].name == k
    ensures Names(added) == n.Keys - p.Keys
  {
    BagMembers(added, AddedUnits(p, n, n.Keys));
    forall k | k in n.Keys - p.Keys ensures k in Names(added) { assert n[k] in added; }
  }

  lemma ChangedNamesAre(p: map<string, Unit>, n: map<string, Unit>, changed: seq<StatusChange>)
    requires multiset(changed) == multiset(ChangedUnits(p, n, n.Keys))
    ensures ChangedNames(changed) == (set k | k in p.Keys * n.Keys && p[k].status != n[k].status)
  {
    BagMembers(changed, ChangedUnits(p, n, n.Keys));
    forall k | k in p.Keys * n.Keys && p[k].status != n[k].status ensures k in ChangedNames(changed) {
      assert StatusChange(k, p[k].status, n[k].status) in changed;
    }
  }

  /** Which names a delta touches, whatever its order. */
  lemma TouchedNames(prior: seq<Unit>, next: seq<Unit>, d: IncidentDelta)
    requires d.Bag().(fields := []) == UnitBag(prior, next)
    ensures var p, n := ByName(prior), ByName(next);
      && Names(d.removed) == p.Keys - n.Keys
      && Names(d.added) == n.Keys - p.Keys
      && ChangedNames(d.changed) == (set k | k in p.Keys * n.Keys && p[k].status != n[k].status)
  {
    var p, n := ByName(prior), ByName(next);
    RemovedNames(p, n, d.removed);
    AddedNames(p, n, d.added);
    ChangedNamesAre(p, n, d.changed);
  }

  lemma TouchedStatuses(prior: seq<Unit>, next: seq<Unit>, d: IncidentDelta)
    requires d.Bag().(fields := []) == UnitBag(prior, next)
    ensures var to := StatusMap(next);
      && (forall u | u in d.added :: u.name in to && to[u.name] == u.status)
      && (forall c | c in d.changed :: c.unit in to && to[c.unit] == c.toStatus)
  {
    var p, n := ByName(prior), ByName(next);
    BagMembers(d.added, AddedUnits(p, n, n.Keys));
    BagMembers(d.changed, ChangedUnits(p, n, n.Keys));
  }

  lemma MapsAgree(m: map<string, string>, m': map<string, string>)
    requires m.Keys == m'.Keys && forall k | k in m :: m[k] == m'[k]
    ensures m == m'
  {
  }

  /** The three phases of a replay, seen as plain maps. */
  lemma ReplayPhases(from: map<string, string>, to: map<string, string>, d: IncidentDelta)
    requires Names(d.removed) == from.Keys - to.Keys && Names(d.added) == to.Keys - from.Keys
    requires ChangedNames(d.changed) == set k | k in from.Keys * to.Keys && from[k] != to[k]
    requires forall u | u in d.added :: u.name in to && to[u.name] == u.status
    requires forall c | c in d.changed :: c.unit in to && to[c.unit] == c.toStatus
    ensures ReplayUnits(from, d) == to
  {
    RemoveAllIs(from, d.removed);
    var kept := RemoveAll(from, d.removed);
    ChangeAllIs(kept, d.changed, to);
    var changed := ChangeAll(kept, d.changed);
    assert changed.Keys == from.Keys * to.Keys && forall k | k in changed :: changed[k] == to[k];
    AddAllIs(changed, d.added, to);
    MapsAgree(AddAll(changed, d.added), to);
  }

  /** Replaying a delta on the older snapshot's statuses gives the newer ones,
      for every emission order of the delta. */
  lemma DeltaReplaysUnits(prior: seq<Unit>, next: seq<Unit>, d: IncidentDelta)
    requires d.Bag().(fields := []) == UnitBag(prior, next)
    ensures ReplayUnits(StatusMap(prior), d) == StatusMap(next)
  {
    TouchedNames(prior, next, d);
    TouchedStatuses(prior, next, d);
    assert StatusMap(prior).Keys == ByName(prior).Keys && StatusMap(next).Keys == ByName(next).Keys;
    ReplayPhases(StatusMap(prior), StatusMap(next), d);
  }

  lemma {:induction false} ReplayFieldsConcat(f: Fields, xs: seq<FieldChange>, ys: seq<FieldChange>)
    ensures ReplayFields(f, xs + ys) == ReplayFields(ReplayFields(f, xs), ys)
  {
    if ys == [] {
      assert xs + ys == xs;
    } else {
      ReplayFieldsConcat(f, xs, ys[..|ys| - 1]);
      assert (xs + ys)[..|xs + ys| - 1] == xs + ys[..|ys| - 1];
    }
  }

  lemma ReplayFive(f: Fields, a: seq<FieldChange>, b: seq<FieldChange>, c: seq<FieldChange>, d: seq<FieldChange>,
                   e: seq<FieldChange>)
    ensures ReplayFields(f, a + b + c + d + e)
         == ReplayFields(ReplayFields(ReplayFields(ReplayFields(ReplayFields(f, a), b), c), d), e)
  {
    ReplayFieldsConcat(f, a + b + c + d, e);
    ReplayFieldsConcat(f, a + b + c, d);
    ReplayFieldsConcat(f, a + b, c);
    ReplayFieldsConcat(f, a, b);
  }

  lemma ReplayOne(f: Fields, field: string, prior: string, next: string)
    ensures ReplayFields(f, FieldDiff(field, prior, next)) == if prior != next then SetText(f, field, next) else f
  {
    if prior != next {
      ReplayChange(f, TextChange(field, prior, next));
    }
  }

  lemma ReplayChange(f: Fields, change: FieldChange)
    ensures ReplayFields(f, [change]) == SetField(f, change)
  {
    assert [change][..0] == [];
    assert ReplayFields(f, []) == f;
  }

  /** All columns agree but for the position. */
  predicate SameTexts(f: Fields, g: Fields) {
    && f.natureCode == g.natureCode && f.natureDesc == g.natureDesc && f.channel == g.channel
    && f.symbolCode == g.symbolCode && f.locationText == g.locationText
  }

  lemma TextDiffsReplay(f: Fields, p: Fields, n: Fields)
    requires SameTexts(f, p)
    ensures ReplayFields(f, TextDiffs(p, n)) == n.(lon := f.lon, lat := f.lat)
    ensures TextDiffs(p, n) == [] <==> SameTexts(p, n)
  {
    var a := FieldDiff(NATURE_CODE, p.natureCode, n.natureCode);
    var b := FieldDiff(NATURE_DESC, p.natureDesc, n.natureDesc);
    var c := FieldDiff(CHANNEL, p.channel, n.channel);
    var d := FieldDiff(SYMBOL_CODE, p.symbolCode, n.symbolCode);
    var e := FieldDiff(LOCATION_TEXT, p.locationText, n.locationText);
    ReplayFive(f, a, b, c, d, e);
    var f2 := f.(natureCode := n.natureCode);
    var f3 := f2.(natureDesc := n.natureDesc);
    var f4 := f3.(channel := n.channel);
    var f5 := f4.(symbolCode := n.symbolCode);
    ReplayOne(f, NATURE_CODE, p.natureCode, n.natureCode);
    ReplayOne(f2, NATURE_DESC, p.natureDesc, n.natureDesc);
    ReplayOne(f3, CHANNEL, p.channel, n.channel);
    ReplayOne(f4, SYMBOL_CODE, p.symbolCode, n.symbolCode);
    ReplayOne(f5, LOCATION_TEXT, p.locationText, n.locationText);
  }

  /** A reader's coordinate after a snapshot: the new one to six decimals if it
      moved, and otherwise what the reader had. */
  function Shown(had: real, prior: real, next: real): real {
    if Moved(prior, next) then SixDecimals(next) else had
  }

  /** Replaying the changes gives the new texts, and the new position as far as
      the delta tells; there are none exactly if no text changed and no
      coordinate moved by more than the tolerance. */
  lemma FieldDiffsReplay(f: Fields, p: Fields, n: Fields)
    requires SameTexts(f, p)
    ensures ReplayFields(f, FieldDiffs(p, n))
         == n.(lon := Shown(f.lon, p.lon, n.lon), lat := Shown(f.lat, p.lat, n.lat))
    ensures FieldDiffs(p, n) == [] <==> SameTexts(p, n) && !Moved(p.lon, n.lon) && !Moved(p.lat, n.lat)
  {
    var texts, lon, lat := TextDiffs(p, n), NumberDiff(LON, p.lon, n.lon), NumberDiff(LAT, p.lat, n.lat);
    TextDiffsReplay(f, p, n);
    ReplayFieldsConcat(f, texts + lon, lat);
    ReplayFieldsConcat(f, texts, lon);
    var g := n.(lon := f.lon, lat := f.lat);
    var h := g.(lon := Shown(f.lon, p.lon, n.lon));
    ReplayNumber(g, LON, p.lon, n.lon);
    ReplayNumber(h, LAT, p.lat, n.lat);
  }

  lemma ReplayNumber(f: Fields, field: string, prior: real, next: real)
    ensures ReplayFields(f, NumberDiff(field, prior, next)) ==
      if Moved(prior, next) then SetField(f, NumberChange(field, SixDecimals(prior), SixDecimals(next))) else f
  {
    if Moved(prior, next) {
      ReplayChange(f, NumberChange(field, SixDecimals(prior), SixDecimals(next)));
    }
  }

  /** An empty delta is exactly a snapshot unchanged in names, statuses and texts
      that moved by no more than the tolerance. */
  lemma EmptyDeltaIffUnchanged(p: Prior, inc: Incident)
    ensures IncidentBag(Some(p), inc).Empty() <==>
      && StatusMap(p.units) == StatusMap(inc.units) && SameTexts(p.fields, inc.fields)
      && !Moved(p.fields.lon, inc.fields.lon) && !Moved(p.fields.lat, inc.fields.lat)
  {
    var a, b := ByName(p.units), ByName(inc.units);
    FieldDiffsReplay(p.fields, p.fields, inc.fields);
    EmptyBag(AddedUnits(a, b, b.Keys));
    EmptyBag(RemovedUnits(a, b, a.Keys));
    EmptyBag(ChangedUnits(a, b, b.Keys));
    NoUnitChanges(a, b);
  }

  lemma EmptyBag<T>(s: set<T>)
    ensures |multiset(s)| == 0 <==> s == {}
  {
  }

  lemma NoUnitChanges(a: map<string, Unit>, b: map<string, Unit>)
    ensures (AddedUnits(a, b, b.Keys) == {} && RemovedUnits(a, b, a.Keys) == {} && ChangedUnits(a, b, b.Keys) == {})
       <==> (map k | k in a :: a[k].status) == (map k | k in b :: b[k].status)
  {
    var from, to := map k | k in a :: a[k].status, map k | k in b :: b[k].status;
    if AddedUnits(a, b, b.Keys) == {} && RemovedUnits(a, b, a.Keys) == {} && ChangedUnits(a, b, b.Keys) == {} {
      assert forall k | k in b && k !in a :: b[k] in AddedUnits(a, b, b.Keys);
      assert forall k | k in a && k !in b :: a[k] in RemovedUnits(a, b, a.Keys);
      assert forall k | k in a && k in b && a[k].status != b[k].status ::
        StatusChange(k, a[k].status, b[k].status) in ChangedUnits(a, b, b.Keys);
      assert from.Keys == to.Keys;
    }
    if from == to {
      assert a.Keys == from.Keys == to.Keys == b.Keys;
      assert forall k | k in a :: a[k].status == from[k] == to[k] == b[k].status;
    }
  }

  // ---------------------------------------------------------------- undoing

  function Reversed(c: FieldChange): FieldChange {
    match c
    case TextChange(field, from, to) => TextChange(field, to, from)
    case NumberChange(field, from, to) => NumberChange(field, to, from)
  }

  function FieldsBack(changes: seq<FieldChange>): (r: seq<FieldChange>)
    ensures |r| == |changes| && forall i | 0 <= i < |r| :: r[i] == Reversed(changes[i])
  {
    seq(|changes|, i requires 0 <= i < |changes| => Reversed(changes[i]))
  }

  function StatusesBack(changes: seq<StatusChange>): (r: seq<StatusChange>)
    ensures |r| == |changes|
    ensures forall i | 0 <= i < |r| ::
      r[i] == StatusChange(changes[i].unit, changes[i].toStatus, changes[i].fromStatus)
  {
    seq(|changes|, i requires 0 <= i < |changes| =>
          StatusChange(changes[i].unit, changes[i].toStatus, changes[i].fromStatus))
  }

  /** The delta read backwards. */
  function Back(d: IncidentDelta): IncidentDelta {
    IncidentDelta(d.removed, d.added, StatusesBack(d.changed), FieldsBack(d.fields))
  }

  lemma FieldsBackConcat(xs: seq<FieldChange>, ys: seq<FieldChange>)
    ensures FieldsBack(xs + ys) == FieldsBack(xs) + FieldsBack(ys)
  {
  }

  lemma DiffBack(field: string, prior: string, next: string)
    ensures FieldsBack(FieldDiff(field, prior, next)) == FieldDiff(field, next, prior)
  {
  }

  lemma NumberBack(field: string, prior: real, next: real)
    ensures FieldsBack(NumberDiff(field, prior, next)) == NumberDiff(field, next, prior)
  {
  }

  lemma TextDiffsBack(p: Fields, n: Fields)
    ensures FieldsBack(TextDiffs(p, n)) == TextDiffs(n, p)
  {
    var a := FieldDiff(NATURE_CODE, p.natureCode, n.natureCode);
    var b := FieldDiff(NATURE_DESC, p.natureDesc, n.natureDesc);
    var c := FieldDiff(CHANNEL, p.channel, n.channel);
    var d := FieldDiff(SYMBOL_CODE, p.symbolCode, n.symbolCode);
    var e := FieldDiff(LOCATION_TEXT, p.locationText, n.locationText);
    FieldsBackConcat(a + b + c + d, e);
    FieldsBackConcat(a + b + c, d);
    FieldsBackConcat(a + b, c);
    FieldsBackConcat(a, b);
    DiffBack(NATURE_CODE, p.natureCode, n.natureCode);
    DiffBack(NATURE_DESC, p.natureDesc, n.natureDesc);
    DiffBack(CHANNEL, p.channel, n.channel);
    DiffBack(SYMBOL_CODE, p.symbolCode, n.symbolCode);
    DiffBack(LOCATION_TEXT, p.locationText, n.locationText);
  }

  /** The column changes read backwards lead from the newer columns to the older
      ones, the position as far as the delta tells. */
  lemma FieldDiffsUndo(f: Fields, p: Fields, n: Fields)
    requires SameTexts(f, n)
    ensures ReplayFields(f, FieldsBack(FieldDiffs(p, n)))
         == p.(lon := Shown(f.lon, n.lon, p.lon), lat := Shown(f.lat, n.lat, p.lat))
  {
    var lon, lat := NumberDiff(LON, p.lon, n.lon), NumberDiff(LAT, p.lat, n.lat);
    FieldsBackConcat(TextDiffs(p, n) + lon, lat);
    FieldsBackConcat(TextDiffs(p, n), lon);
    TextDiffsBack(p, n);
    NumberBack(LON, p.lon, n.lon);
    NumberBack(LAT, p.lat, n.lat);
    FieldDiffsReplay(f, n, p);
  }

  /** The entries of a delta are the listings' own: what was added stands in the
      newer one, what was removed in the older one, and a change starts from the
      older status. */
  lemma DeltaListsUnits(prior: seq<Unit>, next: seq<Unit>, d: IncidentDelta)
    requires d.Bag().(fields := []) == UnitBag(prior, next)
    ensures forall u | u in d.added :: u in next
    ensures forall u | u in d.removed ::
      u in prior && u.name in StatusMap(prior) && StatusMap(prior)[u.name] == u.status
    ensures forall c | c in d.changed :: c.unit in StatusMap(prior) && StatusMap(prior)[c.unit] == c.fromStatus
  {
    var p, n := ByName(prior), ByName(next);
    BagMembers(d.added, AddedUnits(p, n, n.Keys));
    BagMembers(d.removed, RemovedUnits(p, n, p.Keys));
    BagMembers(d.changed, ChangedUnits(p, n, n.Keys));
  }

  lemma StatusesBackAre(changes: seq<StatusChange>, to: map<string, string>)
    requires forall c | c in changes :: c.unit in to && to[c.unit] == c.fromStatus
    ensures ChangedNames(StatusesBack(changes)) == ChangedNames(changes)
    ensures forall c | c in StatusesBack(changes) :: c.unit in to && to[c.unit] == c.toStatus
  {
    var back := StatusesBack(changes);
    forall c | c in changes ensures c.unit in ChangedNames(back) {
      var i :| 0 <= i < |changes| && changes[i] == c;
      assert back[i] in back;
    }
  }

  /** The three phases of undoing, seen as plain maps. */
  lemma UndoPhases(from: map<string, string>, to: map<string, string>, d: IncidentDelta)
    requires Names(d.removed) == from.Keys - to.Keys && Names(d.added) == to.Keys - from.Keys
    requires ChangedNames(d.changed) == set k | k in from.Keys * to.Keys && from[k] != to[k]
    requires forall u | u in d.removed :: u.name in from && from[u.name] == u.status
    requires forall c | c in d.changed :: c.unit in from && from[c.unit] == c.fromStatus
    ensures ReplayUnits(to, Back(d)) == from
  {
    StatusesBackAre(d.changed, from);
    assert ChangedNames(d.changed) == set k | k in to.Keys * from.Keys && to[k] != from[k];
    ReplayPhases(to, from, Back(d));
  }

  /** A delta can be undone: read backwards, in whatever order it was emitted, it
      leads from the newer statuses to the older ones. */
  lemma DeltaUndoesUnits(prior: seq<Unit>, next: seq<Unit>, d: IncidentDelta)
    requires d.Bag().(fields := []) == UnitBag(prior, next)
    ensures ReplayUnits(StatusMap(next), Back(d)) == StatusMap(prior)
  {
    TouchedNames(prior, next, d);
    DeltaListsUnits(prior, next, d);
    assert StatusMap(prior).Keys == ByName(prior).Keys && StatusMap(next).Keys == ByName(next).Keys;
    UndoPhases(StatusMap(prior), StatusMap(next), d);
  }
}
