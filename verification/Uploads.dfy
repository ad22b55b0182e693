/** What an uploader's own records are worth. */
module Uploads {
  import opened Types
  import opened SharedTables
  import opened Dispatch
  import opened ExactlyOnce

  ghost predicate Answered(requests: seq<Request>, name: string, status: nat) {
    exists q :: 0 <= q < |requests| && requests[q].wav == name && requests[q].status == Some(status)
  }

  ghost predicate RepliesOk(ts: seq<Transcript>, requests: seq<Request>) {
    forall q | 0 <= q < |requests| && requests[q].status == Some(200) :: HasRow(ts, requests[q].wav)
  }

  /** An upload on record stands for a row, or for a 409. */
  ghost predicate RecordsOk(ts: seq<Transcript>, requests: seq<Request>, u: Uploader) {
    && (u.waiting.Some? ==> u.waiting.value < |requests|)
    && (forall name | name in u.records && u.records[name].Uploaded? ::
          HasRow(ts, name) || Answered(requests, name, 409))
  }

  ghost predicate UploadsOk(w: World) {
    && RepliesOk(w.transcripts, w.requests)
    && forall k | k in w.uploaders :: RecordsOk(w.transcripts, w.requests, w.uploaders[k])
  }

  /** Rows and replies stay. */
  ghost predicate Grows(w: World, v: World) {
    && (forall name: string | HasRow(w.transcripts, name) :: HasRow(v.transcripts, name))
    && |w.requests| <= |v.requests|
    && (forall q | 0 <= q < |w.requests| ::
          && v.requests[q].wav == w.requests[q].wav
          && (w.requests[q].status.Some? ==> v.requests[q].status == w.requests[q].status))
  }

  lemma StepGrows(cfg: Config, w: World, step: Step)
    requires TableOk(w)
    ensures Grows(w, After(cfg, w, step))
  {
    var ts := NextTranscripts(cfg, w, step);
    forall name: string | HasRow(w.transcripts, name) ensures HasRow(ts, name) {
      var i :| 0 <= i < |w.transcripts| && w.transcripts[i].wav == name;
      assert ts[i].wav == name;
    }
  }

  lemma InsertHasRow(ts: seq<Transcript>, id: nat, q: Request, at: Time)
    ensures HasRow(Insert(ts, id, q, at), q.wav)
  {
    if !HasRow(ts, q.wav) {
      assert Insert(ts, id, q, at)[|ts|].wav == q.wav;
    }
  }

  lemma RepliesStayOk(cfg: Config, w: World, step: Step)
    requires TableOk(w) && UploadsOk(w)
    ensures RepliesOk(NextTranscripts(cfg, w, step), NextRequests(w, step))
  {
    StepGrows(cfg, w, step);
    if Serves(w, step) && step.answer.Stored? {
      InsertHasRow(w.transcripts, w.nextId, w.requests[step.request], step.at);
    }
  }

  lemma RecordsStayOk(w: World, v: World, u: Uploader)
    requires Grows(w, v) && RecordsOk(w.transcripts, w.requests, u)
    ensures RecordsOk(v.transcripts, v.requests, u)
  {
    forall name | name in u.records && u.records[name].Uploaded?
      ensures HasRow(v.transcripts, name) || Answered(v.requests, name, 409)
    {
      if !HasRow(w.transcripts, name) {
        assert Answered(w.requests, name, 409);
        var q :| 0 <= q < |w.requests| && w.requests[q].wav == name && w.requests[q].status == Some(409);
        assert v.requests[q].wav == name && v.requests[q].status == Some(409);
      }
    }
  }

  lemma FiledOk(ts: seq<Transcript>, requests: seq<Request>, u: Uploader, q: nat)
    requires RepliesOk(ts, requests) && RecordsOk(ts, requests, u)
    requires q < |requests| && requests[q].status.Some?
    ensures RecordsOk(ts, requests, Uploader(Filed(u.records, requests[q].wav, requests[q].status.value), None))
  {
    if requests[q].status.value == 409 {
      assert Answered(requests, requests[q].wav, 409);
    }
  }

  lemma StepKeepsUploads(cfg: Config, w: World, step: Step)
    requires TableOk(w) && UploadsOk(w)
    ensures UploadsOk(After(cfg, w, step))
  {
    var v := After(cfg, w, step);
    StepGrows(cfg, w, step);
    RepliesStayOk(cfg, w, step);
    forall k | k in v.uploaders ensures RecordsOk(v.transcripts, v.requests, v.uploaders[k]) {
      var u := w.UploaderAt(k);
      assert RecordsOk(w.transcripts, w.requests, u);
      RecordsStayOk(w, v, u);
      if step.Receive? && step.uploader == k && u.waiting.Some? && w.requests[u.waiting.value].status.Some? {
        FiledOk(v.transcripts, v.requests, u, u.waiting.value);
      }
    }
  }

  lemma {:induction false} UploadsAlwaysOk(cfg: Config, steps: seq<Step>)
    ensures UploadsOk(Reach(cfg, steps))
  {
    if steps != [] {
      UploadsAlwaysOk(cfg, steps[..|steps| - 1]);
      TableAlwaysOk(cfg, steps[..|steps| - 1]);
      StepKeepsUploads(cfg, Reach(cfg, steps[..|steps| - 1]), steps[|steps| - 1]);
    }
  }

  // ---------------------------------------------------------------- the theorem

  /** The server never answers 409. */
  ghost predicate NoConflicts(steps: seq<Step>) {
    forall i | 0 <= i < |steps| && steps[i].Serve? :: StatusOf(steps[i].answer) != 409
  }

  ghost predicate NoneConflicts(requests: seq<Request>) {
    forall q | 0 <= q < |requests| :: requests[q].status != Some(409)
  }

  lemma StepHasNoConflict(w: World, step: Step)
    requires NoneConflicts(w.requests) && (step.Serve? ==> StatusOf(step.answer) != 409)
    ensures NoneConflicts(NextRequests(w, step))
  {
  }

  lemma {:induction false} NoConflictReplies(cfg: Config, steps: seq<Step>)
    requires NoConflicts(steps)
    ensures NoneConflicts(Reach(cfg, steps).requests)
  {
    if steps != [] {
      var n := |steps| - 1;
      assert forall i | 0 <= i < n :: steps[..n][i] == steps[i];
      NoConflictReplies(cfg, steps[..n]);
      StepHasNoConflict(Reach(cfg, steps[..n]), steps[n]);
    }
  }

  /** Whatever crashes, a name on record as uploaded has a row at the server. */
  lemma RecordedMeansStored(cfg: Config, steps: seq<Step>, k: nat, name: string)
    requires NoConflicts(steps)
    requires var records := Reach(cfg, steps).UploaderAt(k).records; name in records && records[name].Uploaded?
    ensures HasRow(Reach(cfg, steps).transcripts, name)
  {
    UploadsAlwaysOk(cfg, steps);
    NoConflictReplies(cfg, steps);
    var w := Reach(cfg, steps);
    assert RecordsOk(w.transcripts, w.requests, w.UploaderAt(k));
  }

  ghost predicate AllStored(w: World, k: nat) {
    forall name | name in w.UploaderAt(k).records && w.UploaderAt(k).records[name].Uploaded? ::
      HasRow(w.transcripts, name)
  }

  /** A 409 is filed as an upload without asking why: taking a reply keeps
      every record true exactly unless it is a 409 for a name without a row. */
  lemma ReplyKeepsTruthIff(cfg: Config, steps: seq<Step>, k: nat)
    requires AllStored(Reach(cfg, steps), k)
    ensures var w := Reach(cfg, steps);
            var waiting := w.UploaderAt(k).waiting;
            AllStored(After(cfg, w, Receive(k)), k) <==>
              !(waiting.Some? && waiting.value < |w.requests| && w.requests[waiting.value].status == Some(409)
                && !HasRow(w.transcripts, w.requests[waiting.value].wav))
  {
    UploadsAlwaysOk(cfg, steps);
    var w := Reach(cfg, steps);
    var v := After(cfg, w, Receive(k));
    var u := w.UploaderAt(k);
    assert RecordsOk(w.transcripts, w.requests, u);
    if u.waiting.Some? && w.requests[u.waiting.value].status.Some? {
      var q := w.requests[u.waiting.value];
      assert v.UploaderAt(k).records == Filed(u.records, q.wav, q.status.value);
      if q.status == Some(409) {
        assert q.wav in v.UploaderAt(k).records && v.UploaderAt(k).records[q.wav].Uploaded?;
      }
    }
  }

  // ---------------------------------------------------------------- what is given up, and what is tried again

  /** A client error that is not a reason to try again. */
  predicate Final(status: nat) {
    400 <= status < 500 && status !in {401, 409, 429}
  }

  /** A file of this path was tried and its JSON could not be read. */
  ghost predicate Unparsed(steps: seq<Step>, name: string) {
    exists i :: 0 <= i < |steps| && steps[i].Send? && steps[i].file.fallback == name && steps[i].file.body.None?
  }

  ghost predicate GivenUpOk(steps: seq<Step>, requests: seq<Request>, u: Uploader) {
    && (u.waiting.Some? ==> u.waiting.value < |requests|)
    && forall name | name in u.records && u.records[name].PermanentFailure? ::
         var status := u.records[name].status;
         (status == 0 && Unparsed(steps, name)) || (Final(status) && Answered(requests, name, status))
  }

  ghost predicate AllGivenUpOk(steps: seq<Step>, w: World) {
    forall k | k in w.uploaders :: GivenUpOk(steps, w.requests, w.uploaders[k])
  }

  lemma GivenUpStays(before: seq<Step>, step: Step, w: World, v: World, u: Uploader)
    requires GivenUpOk(before, w.requests, u) && Grows(w, v)
    ensures GivenUpOk(before + [step], v.requests, u)
  {
    forall name | name in u.records && u.records[name].PermanentFailure?
      ensures var status := u.records[name].status;
              (status == 0 && Unparsed(before + [step], name)) || (Final(status) && Answered(v.requests, name, status))
    {
      var status := u.records[name].status;
      if status == 0 {
        var i :| 0 <= i < |before| && before[i].Send? && before[i].file.fallback == name && before[i].file.body.None?;
        assert (before + [step])[i] == before[i];
      } else {
        var q :| 0 <= q < |w.requests| && w.requests[q].wav == name && w.requests[q].status == Some(status);
        assert v.requests[q].wav == name && v.requests[q].status == Some(status);
      }
    }
  }

  lemma FiledGivesUp(steps: seq<Step>, requests: seq<Request>, u: Uploader, q: nat)
    requires GivenUpOk(steps, requests, u) && q < |requests| && requests[q].status.Some?
    ensures GivenUpOk(steps, requests, Uploader(Filed(u.records, requests[q].wav, requests[q].status.value), None))
  {
    assert Answered(requests, requests[q].wav, requests[q].status.value);
  }

  lemma UnparsedGivesUp(steps: seq<Step>, requests: seq<Request>, u: Uploader, name: string)
    requires GivenUpOk(steps, requests, u) && Unparsed(steps, name)
    ensures GivenUpOk(steps, requests, u.(records := u.records[name := PermanentFailure(0)]))
  {
  }

  lemma StepKeepsGivenUp(cfg: Config, before: seq<Step>, w: World, step: Step)
    requires TableOk(w) && AllGivenUpOk(before, w)
    ensures AllGivenUpOk(before + [step], After(cfg, w, step))
  {
    var v := After(cfg, w, step);
    StepGrows(cfg, w, step);
    forall k | k in v.uploaders ensures GivenUpOk(before + [step], v.requests, v.uploaders[k]) {
      var u := w.UploaderAt(k);
      GivenUpStays(before, step, w, v, u);
      if step.Receive? && step.uploader == k && u.waiting.Some? && w.requests[u.waiting.value].status.Some? {
        FiledGivesUp(before + [step], v.requests, u, u.waiting.value);
      } else if step.Send? && step.uploader == k && step.file.body.None? {
        assert (before + [step])[|before|] == step;
        UnparsedGivesUp(before + [step], v.requests, u, step.file.fallback);
      }
    }
  }

  lemma {:induction false} GivenUpAlwaysOk(cfg: Config, steps: seq<Step>)
    ensures AllGivenUpOk(steps, Reach(cfg, steps))
  {
    if steps != [] {
      var before, step := steps[..|steps| - 1], steps[|steps| - 1];
      GivenUpAlwaysOk(cfg, before);
      TableAlwaysOk(cfg, before);
      StepKeepsGivenUp(cfg, before, Reach(cfg, before), step);
      assert steps == before + [step];
    }
  }

  /** In every run a name is given up only for a reason: a file of that path whose
      JSON could not be read, or a reply to a request under that name that is a
      client error other than 401, 409 and 429. */
  lemma GivenUpForAReason(cfg: Config, steps: seq<Step>, k: nat, name: string)
    requires var records := Reach(cfg, steps).UploaderAt(k).records;
             name in records && records[name].PermanentFailure?
    ensures var w := Reach(cfg, steps);
            var status := w.UploaderAt(k).records[name].status;
            (status == 0 && Unparsed(steps, name))
            || (400 <= status < 500 && status !in {401, 409, 429} && Answered(w.requests, name, status))
  {
    GivenUpAlwaysOk(cfg, steps);
    var w := Reach(cfg, steps);
    assert GivenUpOk(steps, w.requests, w.UploaderAt(k));
  }

  /** The uploader has this reply before it. */
  predicate HasReply(w: World, k: nat, name: string, status: nat) {
    var waiting := w.UploaderAt(k).waiting;
    waiting.Some? && waiting.value < |w.requests|
    && w.requests[waiting.value].wav == name && w.requests[waiting.value].status == Some(status)
  }

  /** What a reply puts on record: an upload exactly for 200 and 409, a failure
      exactly for a final client error, and otherwise nothing; no other name is
      touched, and the uploader is free again. */
  lemma ReplyOnRecord(cfg: Config, w: World, k: nat, name: string, status: nat)
    requires HasReply(w, k, name, status)
    ensures var u := After(cfg, w, Receive(k)).UploaderAt(k);
            var records := w.UploaderAt(k).records;
            && u.waiting.None?
            && (status == 200 || status == 409 ==> name in u.records && u.records[name] == Uploaded)
            && (Final(status) ==> name in u.records && u.records[name] == PermanentFailure(status))
            && (status != 200 && status != 409 && !Final(status) ==> u.records == records)
            && u.records - {name} == records - {name}
  {
  }

  /** So a file whose reply is neither, a 401, a 429 or a server error say, is
      requested again as soon as its turn comes. */
  lemma RetriedAfter(cfg: Config, w: World, k: nat, file: File, status: nat)
    requires Requestable(file) && file.fallback !in w.UploaderAt(k).records
    requires HasReply(w, k, NameOf(file), status) && status !in {200, 409} && !Final(status)
    ensures var v := After(cfg, w, Receive(k));
            Requests(v.UploaderAt(k), file)
            && |After(cfg, v, Send(k, file)).requests| == |v.requests| + 1
  {
    ReplyOnRecord(cfg, w, k, NameOf(file), status);
  }

  // ---------------------------------------------------------------- whose text the row carries

  /** A request can be made of the file. */
  predicate Requestable(file: File) {
    file.body.Some? && file.sendable
  }

  /** Only files of this directory are sent, by whatever uploader. */
  ghost predicate SendsFrom(steps: seq<Step>, dir: set<File>) {
    forall i | 0 <= i < |steps| && steps[i].Send? :: steps[i].file in dir
  }

  /** The content is that of a file of the directory sent under the name. */
  ghost predicate CameFrom(dir: set<File>, wav: string, capturedAt: Time, text: string) {
    exists g :: g in dir && Requestable(g) && NameOf(g) == wav
                && g.body.value.capturedAt == capturedAt && g.body.value.text == text
  }

  ghost predicate ContentOk(ts: seq<Transcript>, requests: seq<Request>, dir: set<File>) {
    && (forall i | 0 <= i < |ts| :: CameFrom(dir, ts[i].wav, ts[i].capturedAt, ts[i].text))
    && (forall q | 0 <= q < |requests| :: CameFrom(dir, requests[q].wav, requests[q].capturedAt, requests[q].text))
  }

  lemma StepKeepsContent(cfg: Config, w: World, step: Step, dir: set<File>)
    requires TableOk(w) && ContentOk(w.transcripts, w.requests, dir)
    requires step.Send? ==> step.file in dir
    ensures ContentOk(NextTranscripts(cfg, w, step), NextRequests(w, step), dir)
  {
    if step.Send? && Requests(w.UploaderAt(step.uploader), step.file) {
      var g := step.file;
      assert CameFrom(dir, NameOf(g), g.body.value.capturedAt, g.body.value.text);
    } else if Commits(w, step) {
      var ts, i := NextTranscripts(cfg, w, step), w.holds[step.worker].index;
      assert ts[i].wav == w.transcripts[i].wav && ts[i].text == w.transcripts[i].text
             && ts[i].capturedAt == w.transcripts[i].capturedAt;
    }
  }

  lemma {:induction false} ContentAlwaysOk(cfg: Config, steps: seq<Step>, dir: set<File>)
    requires SendsFrom(steps, dir)
    ensures var w := Reach(cfg, steps); ContentOk(w.transcripts, w.requests, dir)
  {
    if steps != [] {
      var n := |steps| - 1;
      assert forall i | 0 <= i < n :: steps[..n][i] == steps[i];
      ContentAlwaysOk(cfg, steps[..n], dir);
      TableAlwaysOk(cfg, steps[..n]);
      StepKeepsContent(cfg, Reach(cfg, steps[..n]), steps[n], dir);
    }
  }

  /** The server has the file's own text and time under the name of its path. */
  ghost predicate RowCarries(ts: seq<Transcript>, f: File)
    requires f.body.Some?
  {
    exists i :: 0 <= i < |ts| && ts[i].wav == f.fallback
                && ts[i].text == f.body.value.text && ts[i].capturedAt == f.body.value.capturedAt
  }

  ghost predicate OnRecord(w: World, k: nat, name: string) {
    name in w.UploaderAt(k).records && w.UploaderAt(k).records[name].Uploaded?
  }

  /** In every run over the directory, once the file is on record as uploaded,
      and so never tried again, the server has its own text. */
  ghost predicate NeverLost(cfg: Config, dir: set<File>, f: File)
    requires f.body.Some?
  {
    forall steps: seq<Step>, k: nat |
      SendsFrom(steps, dir) && NoConflicts(steps) && OnRecord(Reach(cfg, steps), k, f.fallback) ::
        RowCarries(Reach(cfg, steps).transcripts, f)
  }

  /** Every file sent under the name of this file's path has this file's content. */
  ghost predicate SoleNamesake(dir: set<File>, f: File)
    requires f.body.Some?
  {
    forall g | g in dir && Requestable(g) && NameOf(g) == f.fallback ::
      g.body.value.text == f.body.value.text && g.body.value.capturedAt == f.body.value.capturedAt
  }

  lemma SoleNamesakeIsCarried(cfg: Config, dir: set<File>, f: File, steps: seq<Step>, k: nat)
    requires f.body.Some? && SoleNamesake(dir, f)
    requires SendsFrom(steps, dir) && NoConflicts(steps) && OnRecord(Reach(cfg, steps), k, f.fallback)
    ensures RowCarries(Reach(cfg, steps).transcripts, f)
  {
    RecordedMeansStored(cfg, steps, k, f.fallback);
    ContentAlwaysOk(cfg, steps, dir);
    var ts := Reach(cfg, steps).transcripts;
    var i :| 0 <= i < |ts| && ts[i].wav == f.fallback;
    assert CameFrom(dir, ts[i].wav, ts[i].capturedAt, ts[i].text);
  }

  /** The steps of one upload that goes well. */
  function SentAndStored(g: File): seq<Step> {
    [Send(0, g), Serve(0, 0, Stored), Receive(0)]
  }

  lemma UploadFirst(cfg: Config, g: File)
    requires Requestable(g)
    ensures var w := Reach(cfg, SentAndStored(g));
            && OnRecord(w, 0, NameOf(g)) && w.UploaderAt(0).waiting.None?
            && w.transcripts == [Transcript(1, NameOf(g), g.body.value.capturedAt, 0, g.body.value.text, None, None, 0)]
  {
    ReachSnoc(cfg, [], Send(0, g));
    ReachSnoc(cfg, [Send(0, g)], Serve(0, 0, Stored));
    ReachSnoc(cfg, [Send(0, g), Serve(0, 0, Stored)], Receive(0));
    assert [] + [Send(0, g)] == [Send(0, g)];
    assert [Send(0, g)] + [Serve(0, 0, Stored)] == [Send(0, g), Serve(0, 0, Stored)];
    assert [Send(0, g), Serve(0, 0, Stored)] + [Receive(0)] == SentAndStored(g);
  }

  /** A file on record is never lost if and only if no file of another content is
      sent under the name of its path: the first one stored keeps the row, and
      the record it leaves shuts the other out. */
  lemma NeverLostIff(cfg: Config, dir: set<File>, f: File)
    requires f.body.Some?
    ensures NeverLost(cfg, dir, f) <==> SoleNamesake(dir, f)
  {
    if SoleNamesake(dir, f) {
      forall steps: seq<Step>, k: nat |
        SendsFrom(steps, dir) && NoConflicts(steps) && OnRecord(Reach(cfg, steps), k, f.fallback)
        ensures RowCarries(Reach(cfg, steps).transcripts, f)
      {
        SoleNamesakeIsCarried(cfg, dir, f, steps, k);
      }
    } else {
      var g :| g in dir && Requestable(g) && NameOf(g) == f.fallback
               && !(g.body.value.text == f.body.value.text && g.body.value.capturedAt == f.body.value.capturedAt);
      var steps := SentAndStored(g);
      UploadFirst(cfg, g);
      assert SendsFrom(steps, dir) && NoConflicts(steps);
      assert OnRecord(Reach(cfg, steps), 0, f.fallback) && !RowCarries(Reach(cfg, steps).transcripts, f);
    }
  }

  /** So it happens: a recording whose payload names another's file is stored
      under that name, and the other is on record without having been sent. */
  lemma NamesakeIsShutOut(cfg: Config, a: File, b: File)
    requires Requestable(a) && Requestable(b) && a.body.value.wav == Some(b.fallback)
    requires a.body.value.text != b.body.value.text
    ensures var w := Reach(cfg, SentAndStored(a));
            && OnRecord(w, 0, b.fallback) && !Requests(w.UploaderAt(0), b)
            && !RowCarries(w.transcripts, b)
  {
    UploadFirst(cfg, a);
  }

  // ---------------------------------------------------------------- what is sent

  /** An idle uploader makes a request of a file exactly if the name of its path
      is not on record and the file can be read and sent: under the payload's
      name if it has one and else the path's, with the payload's content. */
  lemma SentIff(cfg: Config, w: World, k: nat, file: File)
    requires w.UploaderAt(k).waiting.None?
    ensures var v := After(cfg, w, Send(k, file));
            if file.fallback !in w.UploaderAt(k).records && file.body.Some? && file.sendable then
              && v.UploaderAt(k).waiting == Some(|w.requests|) && |v.requests| == |w.requests| + 1
              && v.requests[..|w.requests|] == w.requests
              && var q, body := v.requests[|w.requests|], file.body.value;
                 && q.wav == (if body.wav.Some? then body.wav.value else file.fallback)
                 && q.text == body.text && q.capturedAt == body.capturedAt && q.status.None?
            else v.requests == w.requests && v.UploaderAt(k).waiting.None?
  {
  }

  // ---------------------------------------------------------------- what the server stores

  /** A request that is served is stored exactly if the server got so far and has
      no row of that name yet: one new row with the request's content, waiting,
      without an attempt, received now. Otherwise the table stays. The reply is
      200 exactly if all went well. */
  lemma ServedIsStored(cfg: Config, w: World, step: Step)
    requires Serves(w, step)
    ensures var v, q := After(cfg, w, step), w.requests[step.request];
            && (v.requests[step.request].status == Some(200) <==> step.answer.Stored?)
            && if Inserts(step.answer) && !HasRow(w.transcripts, q.wav) then
                 && |v.transcripts| == |w.transcripts| + 1 && v.transcripts[..|w.transcripts|] == w.transcripts
                 && var row := v.transcripts[|w.transcripts|];
                    && row.wav == q.wav && row.text == q.text && row.capturedAt == q.capturedAt
                    && row.receivedAt == step.at && row.parsedAt.None? && row.parsedIncident.None? && row.attempts == 0
               else v.transcripts == w.transcripts
  {
  }
}
