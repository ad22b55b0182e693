/** The Phoenix Fire client: which fetched snapshots it vouches for. HTTP, JSON
    and SHA-256 are outside; a poll sees a decoded reply and an opaque hash. */
module Feed {
  import opened Types

  /** A payload hash in hex, never the empty string. */
  type Hash = h: string | h != "" witness "0"

  datatype Features = Absent | NotAnArray | Array(count: nat)

  /** The response envelope, decoded as far as validation looks at it. */
  datatype Envelope = Envelope(isJson: bool, arcgisError: bool, features: Features,
                               incidents: Option<seq<Incident>>,
                               exceededTransferLimit: bool, expectedContract: bool)

  datatype CountReply = CountError | Count(n: nat)

  /** What the network did; count is what the count query would answer now. */
  datatype Reply =
    | Unreachable(message: string)
    | Unreadable(statusCode: int, message: string)
    | Answer(statusCode: int, hash: Hash, envelope: Envelope, count: CountReply)

  datatype Policy = Policy(frozenRepeatCount: nat, suddenCollapsePercent: nat)
  {
    predicate Sane() {
      frozenRepeatCount >= 2 && 1 <= suddenCollapsePercent <= 100
    }
  }

  /** NewWithPolicy: out-of-range settings fall back to the defaults. */
  function Effective(policy: Policy): (p: Policy)
    ensures p.Sane() && (policy.Sane() ==> p == policy)
    ensures policy.frozenRepeatCount < 2 ==> p.frozenRepeatCount == 3
    ensures policy.suddenCollapsePercent == 0 || policy.suddenCollapsePercent > 100 ==> p.suddenCollapsePercent == 80
  {
    Policy(if policy.frozenRepeatCount >= 2 then policy.frozenRepeatCount else 3,
           if 1 <= policy.suddenCollapsePercent <= 100 then policy.suddenCollapsePercent else 80)
  }

  const SOURCE_NAME := "phoenix-fire-mapserver"

  /** validateSnapshot's five results. */
  datatype Verdict = Verdict(incidents: seq<Incident>, featureCount: nat, classification: Classification,
                             reason: string, err: Option<string>)

  function Rejected(message: string): Verdict {
    Verdict([], 0, PollFailure, CONTRACT_INVALID, Some(message))
  }

  function ValidateSnapshot(e: Envelope): (v: Verdict)
    ensures v.classification == AuthoritativeSuccess ==> |v.incidents| == v.featureCount && v.err.None?
    ensures v.classification == AuthoritativeSuccess || v.classification == DegradedSnapshot || v.err.Some?
    ensures !v.classification.Unclassified?
  {
    if !e.isJson then Rejected("parse: malformed JSON")
    else if e.arcgisError then Rejected("parse: ArcGIS error response")
    else if e.features.Absent? then Rejected("parse: missing features array")
    else if e.features.NotAnArray? then Rejected("parse: features must be an array")
    else if e.incidents.None? then Rejected("parse: features")
    else
      var incidents, n := e.incidents.value, e.features.count;
      if e.exceededTransferLimit then Verdict(incidents, n, DegradedSnapshot, SNAPSHOT_INCOMPLETE, None)
      else if !e.expectedContract then Verdict(incidents, n, DegradedSnapshot, CONTRACT_INVALID, None)
      else if |incidents| != n then Verdict(incidents, n, DegradedSnapshot, SNAPSHOT_INCOMPLETE, None)
      else Verdict(incidents, n, AuthoritativeSuccess, HEALTHY, None)
  }

  /** The client's memory between polls. */
  datatype Memory = Memory(lastPayloadSHA: string, repeatedPayloads: nat, unchangedSince: Time,
                           lastAuthoritativeCount: nat)

  const ZERO_TIME: Time := 0
  const NewMemory := Memory("", 0, ZERO_TIME, 0)

  // ---------------------------------------------------------------- one poll

  predicate NeedsConfirmation(m: Memory, policy: Policy, featureCount: nat) {
    featureCount == 0
    || (m.lastAuthoritativeCount > 0
        && featureCount * 100 <= m.lastAuthoritativeCount * (100 - policy.suddenCollapsePercent))
  }

  function Fetched(startedAt: Time, statusCode: int, err: Option<string>): PollResult {
    PollResult(SOURCE_NAME, startedAt, statusCode, [], "", PollFailure, RECENT_FAILURES, None, err)
  }

  function Remember(m: Memory, hash: string, startedAt: Time): Memory {
    if hash == m.lastPayloadSHA then m.(repeatedPayloads := m.repeatedPayloads + 1)
    else m.(lastPayloadSHA := hash, repeatedPayloads := 1, unchangedSince := startedAt)
  }

  /** classifyPayloadHistory on a result. */
  function Classify(m: Memory, policy: Policy, res: PollResult, featureCount: nat): (Memory, PollResult) {
    if !res.classification.AuthoritativeSuccess? then (m, res)
    else if featureCount == 0 then (NewMemory, res)
    else
      var m' := Remember(m, res.payloadHash, res.startedAt);
      var res' := res.(unchangedSince := Some(m'.unchangedSince));
      if m'.repeatedPayloads >= policy.frozenRepeatCount
      then (m', res'.(classification := DegradedSnapshot, reason := PAYLOAD_FROZEN))
      else (m'.(lastAuthoritativeCount := featureCount), res')
  }

  /** What Poll does to the client's memory, and what it returns. */
  function PollStep(m: Memory, policy: Policy, startedAt: Time, reply: Reply): (Memory, PollResult) {
    match reply
    case Unreachable(message) => (m, Fetched(startedAt, 0, Some("http: " + message)))
    case Unreadable(code, message) => (m, Fetched(startedAt, code, Some("read body: " + message)))
    case Answer(code, hash, envelope, count) =>
      if code < 200 || code >= 300 then (m, Fetched(startedAt, code, Some("unexpected status")))
      else
        var v := ValidateSnapshot(envelope);
        var res := Fetched(startedAt, code, v.err).(payloadHash := hash, classification := v.classification,
                                                    reason := v.reason);
        if v.err.Some? then (m, res)
        else
          var full := res.(incidents := v.incidents);
          if v.classification.AuthoritativeSuccess? && NeedsConfirmation(m, policy, v.featureCount)
             && count != Count(v.featureCount)
          then (m, full.(classification := DegradedSnapshot, reason := SNAPSHOT_INCOMPLETE))
          else Classify(m, policy, full, v.featureCount)
  }

  class Client {
    const policy: Policy
    var lastPayloadSHA: string
    var repeatedPayloads: nat
    var unchangedSince: Time
    var lastAuthoritativeCount: nat

    constructor (configured: Policy)
      ensures Remembers() == NewMemory && policy == Effective(configured)
    {
      policy := Effective(configured);
      lastPayloadSHA := "";
      repeatedPayloads := 0;
      unchangedSince := ZERO_TIME;
      lastAuthoritativeCount := 0;
    }

    function Remembers(): Memory
      reads this
    {
      Memory(lastPayloadSHA, repeatedPayloads, unchangedSince, lastAuthoritativeCount)
    }

    method RequiresCountConfirmation(featureCount: nat) returns (r: bool)
      ensures r <==> NeedsConfirmation(Remembers(), policy, featureCount)
    {
      if featureCount == 0 {
        return true;
      }
      if lastAuthoritativeCount <= 0 {
        return false;
      }
      var remainingPercent := 100 - policy.suddenCollapsePercent;
      return featureCount * 100 <= lastAuthoritativeCount * remainingPercent;
    }

    method ClassifyPayloadHistory(r: PollResult, featureCount: nat) returns (res: PollResult)
      modifies this
      ensures (Remembers(), res) == Classify(old(Remembers()), policy, r, featureCount)
    {
      res := r;
      if !res.classification.AuthoritativeSuccess? {
        return;
      }
      if featureCount == 0 {
        lastPayloadSHA := "";
        repeatedPayloads := 0;
        unchangedSince := ZERO_TIME;
        lastAuthoritativeCount := 0;
        return;
      }
      if res.payloadHash == lastPayloadSHA {
        repeatedPayloads := repeatedPayloads + 1;
      } else {
        lastPayloadSHA := res.payloadHash;
        repeatedPayloads := 1;
        unchangedSince := res.startedAt;
      }
      res := res.(unchangedSince := Some(unchangedSince));
      if repeatedPayloads >= policy.frozenRepeatCount {
        res := res.(classification := DegradedSnapshot, reason := PAYLOAD_FROZEN);
        return;
      }
      lastAuthoritativeCount := featureCount;
    }

    method Poll(startedAt: Time, reply: Reply) returns (res: PollResult)
      modifies this
      ensures (Remembers(), res) == PollStep(old(Remembers()), policy, startedAt, reply)
    {
      match reply
      case Unreachable(message) =>
        res := Fetched(startedAt, 0, Some("http: " + message));
      case Unreadable(code, message) =>
        res := Fetched(startedAt, code, Some("read body: " + message));
      case Answer(code, hash, envelope, count) =>
        if code < 200 || code >= 300 {
          res := Fetched(startedAt, code, Some("unexpected status"));
          return;
        }
        var v := ValidateSnapshot(envelope);
        res := Fetched(startedAt, code, v.err).(payloadHash := hash, classification := v.classification,
                                                reason := v.reason);
        if v.err.Some? {
          return;
        }
        res := res.(incidents := v.incidents);
        if v.classification.AuthoritativeSuccess? {
          var confirm := RequiresCountConfirmation(v.featureCount);
          if confirm && count != Count(v.featureCount) {
            res := res.(classification := DegradedSnapshot, reason := SNAPSHOT_INCOMPLETE);
            return;
          }
        }
        res := ClassifyPayloadHistory(res, v.featureCount);
    }
  }

  // ---------------------------------------------------------------- one client lifetime

  datatype Fetch = Fetch(startedAt: Time, reply: Reply)

  function MemoryAfter(policy: Policy, fs: seq<Fetch>): Memory {
    if fs == [] then NewMemory
    else PollStep(MemoryAfter(policy, fs[..|fs| - 1]), policy, fs[|fs| - 1].startedAt, fs[|fs| - 1].reply).0
  }

  /** The result of the i-th poll of a lifetime. */
  function ResultOf(policy: Policy, fs: seq<Fetch>, i: nat): PollResult
    requires i < |fs|
  {
    PollStep(MemoryAfter(policy, fs[..i]), policy, fs[i].startedAt, fs[i].reply).1
  }

  /** A validated snapshot, small ones confirmed by an independent count. */
  datatype Vouched = Nothing | EmptyFeed | Payload(hash: Hash, at: Time)

  function VouchedFor(m: Memory, policy: Policy, f: Fetch): Vouched {
    match f.reply
    case Unreachable(_) => Nothing
    case Unreadable(_, _) => Nothing
    case Answer(code, hash, envelope, count) =>
      var v := ValidateSnapshot(envelope);
      if code < 200 || code >= 300 || !v.classification.AuthoritativeSuccess? then Nothing
      else if NeedsConfirmation(m, policy, v.featureCount) && count != Count(v.featureCount) then Nothing
      else if v.featureCount == 0 then EmptyFeed
      else Payload(hash, f.startedAt)
  }

  /** The vouched-for snapshots of a lifetime, in order. */
  ghost function Snapshots(policy: Policy, fs: seq<Fetch>): seq<Vouched> {
    if fs == [] then []
    else
      var before, f := fs[..|fs| - 1], fs[|fs| - 1];
      var v := VouchedFor(MemoryAfter(policy, before), policy, f);
      Snapshots(policy, before) + if v.Nothing? then [] else [v]
  }

  ghost predicate SamePayload(x: Vouched, y: Vouched) {
    x.Payload? && y.Payload? && x.hash == y.hash
  }

  /** xs ends in a run of exactly k equal non-empty payloads. */
  ghost predicate EndsInRun(xs: seq<Vouched>, k: nat) {
    && k <= |xs|
    && (forall i | |xs| - k <= i < |xs| :: SamePayload(xs[i], xs[|xs| - 1]))
    && (xs != [] && xs[|xs| - 1].Payload? ==> k > 0)
    && (0 < k < |xs| ==> !SamePayload(xs[|xs| - k - 1], xs[|xs| - 1]))
  }

  /** repeatedPayloads and unchangedSince are the length and the start of the
      current run of identical vouched-for non-empty payloads. */
  ghost predicate MemoryOk(m: Memory, xs: seq<Vouched>) {
    && EndsInRun(xs, m.repeatedPayloads)
    && (m.repeatedPayloads == 0 ==> m.lastPayloadSHA == "")
    && (m.repeatedPayloads > 0 ==>
          && m.lastPayloadSHA == xs[|xs| - 1].hash
          && m.unchangedSince == xs[|xs| - m.repeatedPayloads].at)
  }

  lemma {:induction false} MemoryTracksRun(policy: Policy, fs: seq<Fetch>)
    ensures MemoryOk(MemoryAfter(policy, fs), Snapshots(policy, fs))
  {
    if fs != [] {
      var before, f := fs[..|fs| - 1], fs[|fs| - 1];
      MemoryTracksRun(policy, before);
      var m := MemoryAfter(policy, before);
      MemoryChanges(m, policy, f);
      RunGrows(m, Snapshots(policy, before), VouchedFor(m, policy, f));
    }
  }

  ghost function RunAfter(m: Memory, v: Vouched): Memory {
    match v
    case Nothing => m
    case EmptyFeed => NewMemory
    case Payload(hash, at) => Remember(m, hash, at)
  }

  /** Only vouched-for snapshots move the run, and a poll is authoritative when
      it brings one and the run is not frozen. */
  lemma MemoryChanges(m: Memory, policy: Policy, f: Fetch)
    ensures var (m', r) := PollStep(m, policy, f.startedAt, f.reply);
      var v := VouchedFor(m, policy, f);
      && m'.(lastAuthoritativeCount := 0) == RunAfter(m, v).(lastAuthoritativeCount := 0)
      && r.startedAt == f.startedAt && r.source == SOURCE_NAME
      && (r.Success() <==> v.EmptyFeed? || (v.Payload? && m'.repeatedPayloads < policy.frozenRepeatCount))
      && m'.lastAuthoritativeCount == (if r.Success() then |r.incidents| else m.lastAuthoritativeCount)
  {
  }

  lemma RunGrows(m: Memory, xs: seq<Vouched>, v: Vouched)
    requires MemoryOk(m, xs)
    ensures MemoryOk(RunAfter(m, v), xs + if v.Nothing? then [] else [v])
  {
    if v.Nothing? {
      assert xs + [] == xs;
    }
  }

  // ---------------------------------------------------------------- collapses

  /** The size of the last snapshot a lifetime returned as authoritative. */
  ghost function LastAuthoritative(policy: Policy, fs: seq<Fetch>): nat {
    if fs == [] then 0
    else
      var r := ResultOf(policy, fs, |fs| - 1);
      if r.Success() then |r.incidents| else LastAuthoritative(policy, fs[..|fs| - 1])
  }

  lemma {:induction false} CountIsLastAuthoritative(policy: Policy, fs: seq<Fetch>)
    ensures MemoryAfter(policy, fs).lastAuthoritativeCount == LastAuthoritative(policy, fs)
  {
    if fs != [] {
      CountIsLastAuthoritative(policy, fs[..|fs| - 1]);
      MemoryChanges(MemoryAfter(policy, fs[..|fs| - 1]), policy, fs[|fs| - 1]);
    }
  }

  /** The snapshot did not collapse against the last authoritative one, or an
      independent count agreed with it. */
  ghost predicate Corroborated(policy: Policy, before: seq<Fetch>, f: Fetch, size: nat) {
    var m := LastAuthoritative(policy, before);
    || (size > 0 && (m == 0 || 100 * size > m * (100 - policy.suddenCollapsePercent)))
    || (f.reply.Answer? && f.reply.count == Count(size))
  }

  /** No poll of a lifetime is authoritative on an unconfirmed collapse. */
  lemma AuthoritativeIsCorroborated(policy: Policy, fs: seq<Fetch>, i: nat)
    requires i < |fs| && ResultOf(policy, fs, i).Success()
    ensures Corroborated(policy, fs[..i], fs[i], |ResultOf(policy, fs, i).incidents|)
  {
    CountIsLastAuthoritative(policy, fs[..i]);
  }

  // ---------------------------------------------------------------- what a reply comes to

  /** The envelope can be read as features and their incidents. */
  predicate Readable(e: Envelope) {
    e.isJson && !e.arcgisError && e.features.Array? && e.incidents.Some?
  }

  /** The reply brings no snapshot at all. */
  predicate Fails(reply: Reply) {
    match reply
    case Unreachable(_) => true
    case Unreadable(_, _) => true
    case Answer(code, _, e, _) => !(200 <= code < 300) || !Readable(e)
  }

  /** The contract holds, but rows were held back or could not be parsed. */
  predicate Partial(reply: Reply)
    requires !Fails(reply)
  {
    var e := reply.envelope;
    e.exceededTransferLimit || (e.expectedContract && |e.incidents.value| != e.features.count)
  }

  /** The whole feed, in the expected shape. */
  predicate Whole(reply: Reply) {
    !Fails(reply) && reply.envelope.expectedContract && !Partial(reply)
  }

  /** The last k vouched-for snapshots are one and the same non-empty payload. */
  ghost predicate Repeats(xs: seq<Vouched>, k: nat) {
    0 < k <= |xs| && forall i | |xs| - k <= i < |xs| :: SamePayload(xs[i], xs[|xs| - 1])
  }

  lemma RunIsRepeats(xs: seq<Vouched>, run: nat, k: nat)
    requires EndsInRun(xs, run) && k > 0
    ensures run >= k <==> Repeats(xs, k)
  {
    if run < k <= |xs| {
      assert !SamePayload(xs[|xs| - run - 1], xs[|xs| - 1]);
    }
  }

  /** This poll brings the frozenRepeatCount-th of a run of equal payloads, or a
      later one. */
  ghost predicate GoesStale(policy: Policy, before: seq<Fetch>, f: Fetch) {
    f.reply.Answer? && f.reply.envelope.features.Array? && f.reply.envelope.features.count > 0
    && Repeats(Snapshots(policy, before) + [Payload(f.reply.hash, f.startedAt)], policy.frozenRepeatCount)
  }

  lemma VouchedIsWhole(policy: Policy, before: seq<Fetch>, f: Fetch)
    ensures var v := VouchedFor(MemoryAfter(policy, before), policy, f);
            if !Whole(f.reply) || !Corroborated(policy, before, f, |f.reply.envelope.incidents.value|) then v.Nothing?
            else if f.reply.envelope.incidents.value == [] then v.EmptyFeed?
            else v == Payload(f.reply.hash, f.startedAt)
  {
    CountIsLastAuthoritative(policy, before);
  }

  lemma RunLengthIs(policy: Policy, before: seq<Fetch>, f: Fetch)
    requires policy.Sane()
    requires f.reply.Answer? && f.reply.envelope.features.Array? && f.reply.envelope.features.count > 0
    requires VouchedFor(MemoryAfter(policy, before), policy, f) == Payload(f.reply.hash, f.startedAt)
    ensures var m := PollStep(MemoryAfter(policy, before), policy, f.startedAt, f.reply).0;
            m.repeatedPayloads >= policy.frozenRepeatCount <==> GoesStale(policy, before, f)
  {
    assert (before + [f])[..|before|] == before;
    MemoryTracksRun(policy, before + [f]);
    var xs := Snapshots(policy, before) + [Payload(f.reply.hash, f.startedAt)];
    assert Snapshots(policy, before + [f]) == xs;
    RunIsRepeats(xs, MemoryAfter(policy, before + [f]).repeatedPayloads, policy.frozenRepeatCount);
  }

  /** A reply that brings no snapshot is a failure with an error and no
      incidents, and leaves the memory alone; any other reply is no failure and
      brings its incidents. */
  lemma FailureIff(m: Memory, policy: Policy, f: Fetch)
    ensures var (m', r) := PollStep(m, policy, f.startedAt, f.reply);
            && (r.classification.PollFailure? <==> Fails(f.reply))
            && (r.err.Some? <==> Fails(f.reply))
            && (Fails(f.reply) ==> m' == m && r.incidents == [] && r.unchangedSince.None?)
            && (!Fails(f.reply) ==> r.incidents == f.reply.envelope.incidents.value
                                    && r.payloadHash == f.reply.hash && r.statusCode == f.reply.statusCode)
  {
  }

  /** What every poll says of the request: when it was made, of which source, the
      status and the hash as far as it got. */
  lemma PollCarries(m: Memory, policy: Policy, f: Fetch)
    ensures var r := PollStep(m, policy, f.startedAt, f.reply).1;
            && r.startedAt == f.startedAt && r.source == "phoenix-fire-mapserver"
            && r.statusCode == (if f.reply.Unreachable? then 0 else f.reply.statusCode)
            && r.payloadHash == (if f.reply.Answer? && 200 <= f.reply.statusCode < 300 then f.reply.hash else "")
  {
  }

  /** The reason of a failure tells an envelope that was rejected from a request
      that went wrong. */
  lemma FailureReason(m: Memory, policy: Policy, f: Fetch)
    requires Fails(f.reply)
    ensures PollStep(m, policy, f.startedAt, f.reply).1.reason ==
      if f.reply.Answer? && 200 <= f.reply.statusCode < 300 then "contract_invalid" else "recent_failures"
  {
  }

  /** How every poll of a lifetime is classified, in terms of the replies so far:
      authoritative is a whole feed, corroborated if small, whose payload has not
      been repeated too often. */
  lemma AuthoritativeIff(policy: Policy, before: seq<Fetch>, f: Fetch)
    requires policy.Sane()
    ensures var r := PollStep(MemoryAfter(policy, before), policy, f.startedAt, f.reply).1;
            r.classification.AuthoritativeSuccess? <==>
              && Whole(f.reply) && Corroborated(policy, before, f, |f.reply.envelope.incidents.value|)
              && !GoesStale(policy, before, f)
    ensures var r := PollStep(MemoryAfter(policy, before), policy, f.startedAt, f.reply).1;
            && (r.classification.AuthoritativeSuccess? <==> r.Success())
            && (r.classification.AuthoritativeSuccess? <==> r.reason == "healthy")
            && !r.classification.Unclassified?
  {
    VouchedIsWhole(policy, before, f);
    if VouchedFor(MemoryAfter(policy, before), policy, f).Payload? {
      RunLengthIs(policy, before, f);
    }
  }

  /** A poll that brings a snapshot and is not authoritative is degraded, and the
      reason tells which of the four ways. */
  lemma DegradedIff(policy: Policy, before: seq<Fetch>, f: Fetch)
    requires policy.Sane() && !Fails(f.reply)
    ensures var r := PollStep(MemoryAfter(policy, before), policy, f.startedAt, f.reply).1;
            var size := |f.reply.envelope.incidents.value|;
            && (r.classification.DegradedSnapshot? <==>
                  || !Whole(f.reply) || !Corroborated(policy, before, f, size) || GoesStale(policy, before, f))
            && (r.reason == "contract_invalid" <==>
                  !f.reply.envelope.expectedContract && !f.reply.envelope.exceededTransferLimit)
            && (r.reason == "snapshot_incomplete" <==>
                  Partial(f.reply) || (Whole(f.reply) && !Corroborated(policy, before, f, size)))
            && (r.reason == "payload_frozen" <==>
                  Whole(f.reply) && Corroborated(policy, before, f, size) && GoesStale(policy, before, f))
  {
    AuthoritativeIff(policy, before, f);
    VouchedIsWhole(policy, before, f);
    if VouchedFor(MemoryAfter(policy, before), policy, f).Payload? {
      RunLengthIs(policy, before, f);
    }
  }

  /** A frozen poll tells since when. */
  lemma FrozenSince(m: Memory, policy: Policy, f: Fetch)
    requires PollStep(m, policy, f.startedAt, f.reply).1.reason == PAYLOAD_FROZEN
    ensures var (m', r) := PollStep(m, policy, f.startedAt, f.reply); r.unchangedSince == Some(m'.unchangedSince)
  {
  }
}
