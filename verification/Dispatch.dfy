/** From a recorded transcript to an incident: uploaders that may crash at any
    point, a server that may answer or not, workers that claim rows with
    FOR UPDATE SKIP LOCKED, the janitor and the ingester, one step at a time. */
module Dispatch {
  import opened Types
  import opened Tables
  import opened SharedTables
  import G = GeocodeCache

  // ---------------------------------------------------------------- rows and messages

  /** One dispatch_transcripts row. */
  datatype Transcript = Transcript(id: nat, wav: string, capturedAt: Time, receivedAt: Time, text: string,
                                   parsedAt: Option<Time>, parsedIncident: Option<int>, attempts: nat)

  datatype Parsed = Parsed(fields: Fields, units: seq<Unit>)

  /** The worker's settings; the gate is a function of the transcript's text. */
  datatype Config = Config(maxAge: Time, maxAttempts: nat, parse: string -> Option<Parsed>)

  /** The row a worker's open transaction has locked, as it was read. */
  datatype Claim = Claim(index: nat, row: Transcript)

  /** A transcript file: the name derived from its path, what its JSON holds if
      it parses, and whether a request can be made of it, for which the JSON must
      be an object and the file name must carry a time stamp. The wav name is the
      payload's own, stripped, when it has one. */
  datatype File = File(fallback: string, body: Option<Body>, sendable: bool)
  datatype Body = Body(wav: Option<string>, capturedAt: Time, text: string)

  datatype Request = Request(wav: string, capturedAt: Time, text: string, status: Option<nat>)

  /** One row of the uploader's own database. */
  datatype Record = Uploaded | PermanentFailure(status: nat)

  datatype Uploader = Uploader(records: map<string, Record>, waiting: Option<nat>)

  const NewUploader := Uploader(map[], None)

  /** What becomes of a request at the server. */
  datatype Answer = Stored | StoredThenFailed(status: nat) | Refused(status: nat)

  /** What the worker decides about a claimed row. */
  datatype Verdict = Stale | GateFailed | NoPlace | GaveUp | Retry | Promoted(parsed: Parsed)
  {
    predicate Parses() {
      !Retry?
    }

    predicate Transient() {
      Retry? || GaveUp?
    }
  }

  datatype Entry = Entry(index: nat, verdict: Verdict)

  datatype World = World(tables: Shared, transcripts: seq<Transcript>, nextId: nat, holds: map<nat, Claim>,
                         requests: seq<Request>, uploaders: map<nat, Uploader>, log: seq<Entry>)
  {
    function UploaderAt(u: nat): Uploader {
      if u in uploaders then uploaders[u] else NewUploader
    }
  }

  const Begin := World(Start, [], 1, map[], [], map[], [])

  datatype Step =
    | Ingest(s: Statement)
    | Janitor(now: Time, window: Time)
    | Take(worker: nat, index: nat)
    | Commit(worker: nat, now: Time, geo: G.Outcome, pollId: int, rowId: int)
    | Rollback(worker: nat)
    | Send(uploader: nat, file: File)
    | Serve(request: nat, at: Time, answer: Answer)
    | Receive(uploader: nat)
    | Abandon(uploader: nat)

  // ---------------------------------------------------------------- names

  function Digit(d: nat): char
    requires d < 10
  {
    '0' + d as char
  }

  function Decimal(n: nat): string {
    if n < 10 then [Digit(n)] else Decimal(n / 10) + [Digit(n % 10)]
  }

  lemma {:induction false} DecimalIsInjective(m: nat, n: nat)
    requires Decimal(m) == Decimal(n)
    ensures m == n
  {
    var s, t := Decimal(m), Decimal(n);
    assert s[|s| - 1] == Digit(m % 10) && t[|t| - 1] == Digit(n % 10);
    if m >= 10 && n >= 10 {
      assert s[..|s| - 1] == Decimal(m / 10) && t[..|t| - 1] == Decimal(n / 10);
      DecimalIsInjective(m / 10, n / 10);
    }
  }

  function SdrKey(id: nat): Key {
    Key(SDR, "sdr-" + Decimal(id))
  }

  lemma SdrKeyIsInjective(m: nat, n: nat)
    requires SdrKey(m) == SdrKey(n)
    ensures m == n
  {
    assert ("sdr-" + Decimal(m))[4..] == Decimal(m) && ("sdr-" + Decimal(n))[4..] == Decimal(n);
    DecimalIsInjective(m, n);
  }

  // ---------------------------------------------------------------- the worker's decision

  /** The insert takes its position from the geocoder. */
  function Placed(parsed: Parsed, place: G.Place): Parsed {
    parsed.(fields := parsed.fields.(lon := place.lon, lat := place.lat))
  }

  function Judge(cfg: Config, row: Transcript, now: Time, geo: G.Outcome): Verdict {
    if now - row.capturedAt > cfg.maxAge then Stale
    else match cfg.parse(row.text)
      case None => GateFailed
      case Some(parsed) =>
        match geo
        case Success(place) => Promoted(Placed(parsed, place))
        case PermanentFailure => NoPlace
        case _ => if row.attempts + 1 >= cfg.maxAttempts then GaveUp else Retry
  }

  /** The row after the worker's update. */
  function Marked(row: Transcript, v: Verdict, now: Time, incident: int): Transcript {
    match v
    case Retry => row.(attempts := row.attempts + 1)
    case GaveUp => row.(parsedAt := Some(now), parsedIncident := None, attempts := row.attempts + 1)
    case Promoted(_) => row.(parsedAt := Some(now), parsedIncident := Some(incident))
    case _ => row.(parsedAt := Some(now), parsedIncident := None)
  }

  function PromotionOf(row: Transcript, parsed: Parsed, now: Time, pollId: int, rowId: int): Promotion {
    Promotion(SdrKey(row.id), parsed.fields, parsed.units, row.capturedAt, now, pollId, rowId)
  }

  /** The id the incident row has after the insert. */
  function ReturnedId(rowIds: map<Key, int>, key: Key, rowId: int): int {
    if key in rowIds then rowIds[key] else rowId
  }

  // ---------------------------------------------------------------- when steps can happen

  predicate Held(holds: map<nat, Claim>, i: nat) {
    exists w | w in holds :: holds[w].index == i
  }

  /** Row i can be claimed: it waits, and nobody holds it. */
  predicate Free(ts: seq<Transcript>, holds: map<nat, Claim>, i: nat) {
    i < |ts| && ts[i].parsedAt.None? && !Held(holds, i)
  }

  predicate Before(a: Transcript, b: Transcript) {
    a.attempts < b.attempts || (a.attempts == b.attempts && a.receivedAt <= b.receivedAt)
  }

  /** WHERE parsed_at IS NULL ORDER BY attempts, received_at LIMIT 1 FOR UPDATE
      SKIP LOCKED; which of equal rows comes first is open. */
  predicate Next(ts: seq<Transcript>, holds: map<nat, Claim>, i: nat) {
    Free(ts, holds, i) && forall j | 0 <= j < |ts| && Free(ts, holds, j) :: Before(ts[i], ts[j])
  }

  predicate Ingests(s: Statement) {
    s.Source() != SDR && !s.Promote? && !s.ClearStale?
  }

  predicate HasRow(ts: seq<Transcript>, wav: string) {
    exists i :: 0 <= i < |ts| && ts[i].wav == wav
  }

  function NameOf(file: File): string
    requires file.body.Some?
  {
    if file.body.value.wav.Some? then file.body.value.wav.value else file.fallback
  }

  /** The file leads to a request: not recorded, readable and sendable. */
  predicate Requests(u: Uploader, file: File) {
    u.waiting.None? && file.fallback !in u.records && file.body.Some? && file.sendable
  }

  predicate Inserts(a: Answer) {
    a.Stored? || a.StoredThenFailed?
  }

  function StatusOf(a: Answer): nat {
    match a
    case Stored => 200
    case StoredThenFailed(status) => status
    case Refused(status) => status
  }

  /** Only a stored transcript is answered with 200. */
  predicate Sensible(a: Answer) {
    match a
    case Stored => true
    case StoredThenFailed(status) => status >= 500
    case Refused(status) => status != 200
  }

  /** What the uploader writes down about a reply. */
  function Filed(records: map<string, Record>, wav: string, status: nat): map<string, Record> {
    if status == 200 || status == 409 then records[wav := Uploaded]
    else if status == 401 || status == 429 || status >= 500 then records
    else if 400 <= status < 500 then records[wav := PermanentFailure(status)]
    else records
  }

  // ---------------------------------------------------------------- the step, table by table

  /** INSERT ... ON CONFLICT (wav_filename) leaves an existing row as it is. */
  function Insert(ts: seq<Transcript>, id: nat, q: Request, at: Time): seq<Transcript> {
    if HasRow(ts, q.wav) then ts
    else ts + [Transcript(id, q.wav, q.capturedAt, at, q.text, None, None, 0)]
  }

  predicate Serves(w: World, step: Step) {
    step.Serve? && step.request < |w.requests| && w.requests[step.request].status.None? && Sensible(step.answer)
  }

  predicate Commits(w: World, step: Step) {
    step.Commit? && step.worker in w.holds && w.holds[step.worker].index < |w.transcripts|
  }

  function VerdictOf(cfg: Config, w: World, step: Step): Verdict
    requires Commits(w, step)
  {
    Judge(cfg, w.holds[step.worker].row, step.now, step.geo)
  }

  /** The update uses the row as the worker read it, with the id the insert returned. */
  function Committed(cfg: Config, w: World, step: Step): Transcript
    requires Commits(w, step)
  {
    var row := w.holds[step.worker].row;
    var incident := ReturnedId(w.tables.rowIds, SdrKey(row.id), step.rowId);
    Marked(row, VerdictOf(cfg, w, step), step.now, incident)
  }

  function NextTranscripts(cfg: Config, w: World, step: Step): seq<Transcript> {
    if Commits(w, step) then w.transcripts[w.holds[step.worker].index := Committed(cfg, w, step)]
    else if Serves(w, step) && Inserts(step.answer)
    then Insert(w.transcripts, w.nextId, w.requests[step.request], step.at)
    else w.transcripts
  }

  function NextHolds(w: World, step: Step): map<nat, Claim> {
    match step
    case Take(k, i) =>
      if k !in w.holds && Next(w.transcripts, w.holds, i) then w.holds[k := Claim(i, w.transcripts[i])] else w.holds
    case Commit(k, _, _, _, _) => w.holds - {k}
    case Rollback(k) => w.holds - {k}
    case _ => w.holds
  }

  function NextRequests(w: World, step: Step): seq<Request> {
    if step.Send? && Requests(w.UploaderAt(step.uploader), step.file) then
      w.requests + [Request(NameOf(step.file), step.file.body.value.capturedAt, step.file.body.value.text, None)]
    else if Serves(w, step) then
      w.requests[step.request := w.requests[step.request].(status := Some(StatusOf(step.answer)))]
    else w.requests
  }

  function NextUploaders(w: World, step: Step): map<nat, Uploader> {
    match step
    case Send(k, file) =>
      var u := w.UploaderAt(k);
      if Requests(u, file) then w.uploaders[k := u.(waiting := Some(|w.requests|))]
      else if u.waiting.None? && file.fallback !in u.records && file.body.None?
      then w.uploaders[k := u.(records := u.records[file.fallback := PermanentFailure(0)])]
      else w.uploaders
    case Receive(k) =>
      var u := w.UploaderAt(k);
      if u.waiting.Some? && u.waiting.value < |w.requests| && w.requests[u.waiting.value].status.Some? then
        var q := w.requests[u.waiting.value];
        w.uploaders[k := Uploader(Filed(u.records, q.wav, q.status.value), None)]
      else w.uploaders
    case Abandon(k) => w.uploaders[k := w.UploaderAt(k).(waiting := None)]
    case _ => w.uploaders
  }

  /** The statement a step runs on the shared tables, if it runs one. */
  function StatementOf(cfg: Config, w: World, step: Step): Option<Statement> {
    match step
    case Ingest(s) => if Ingests(s) then Some(s) else None
    case Janitor(now, window) => if window > 0 then Some(ClearStale(SDR, now, window)) else None
    case Commit(k, now, geo, pollId, rowId) =>
      if Commits(w, step) && VerdictOf(cfg, w, step).Promoted? then
        Some(Promote(PromotionOf(w.holds[k].row, VerdictOf(cfg, w, step).parsed, now, pollId, rowId)))
      else None
    case _ => None
  }

  ghost function NextTables(cfg: Config, w: World, step: Step): Shared {
    match StatementOf(cfg, w, step) case None => w.tables case Some(s) => Exec(w.tables, s)
  }

  function NextLog(cfg: Config, w: World, step: Step): seq<Entry> {
    if Commits(w, step) then w.log + [Entry(w.holds[step.worker].index, VerdictOf(cfg, w, step))] else w.log
  }

  function NextNumber(w: World, step: Step): nat {
    if Serves(w, step) && Inserts(step.answer) then w.nextId + 1 else w.nextId
  }

  ghost function After(cfg: Config, w: World, step: Step): World {
    World(NextTables(cfg, w, step), NextTranscripts(cfg, w, step), NextNumber(w, step), NextHolds(w, step),
          NextRequests(w, step), NextUploaders(w, step), NextLog(cfg, w, step))
  }

  ghost function Reach(cfg: Config, steps: seq<Step>): World {
    if steps == [] then Begin else After(cfg, Reach(cfg, steps[..|steps| - 1]), steps[|steps| - 1])
  }

  lemma ReachSnoc(cfg: Config, steps: seq<Step>, step: Step)
    ensures Reach(cfg, steps + [step]) == After(cfg, Reach(cfg, steps), step)
  {
    assert (steps + [step])[..|steps|] == steps;
  }
}
