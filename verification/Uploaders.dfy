/** The uploader as it runs: one pass over the recordings directory, with its
    own record of what it has sent. */
module Uploaders {
  import opened Types
  import opened Dispatch

  /** What the uploader has on record after trying one file; without a reply the
      request failed or the process was interrupted before one came. */
  function Tried(records: map<string, Record>, file: File, reply: Option<nat>): map<string, Record> {
    if file.body.None? then records[file.fallback := PermanentFailure(0)]
    else if !file.sendable || reply.None? then records
    else Filed(records, NameOf(file), reply.value)
  }

  predicate Accepted(file: File, reply: Option<nat>) {
    file.body.Some? && file.sendable && (reply == Some(200) || reply == Some(409))
  }

  /** An attempt that counts as an upload puts one on record, and one that does
      not adds none. */
  lemma AcceptedIffRecorded(records: map<string, Record>, file: File, reply: Option<nat>)
    ensures var after := Tried(records, file, reply);
            if Accepted(file, reply) then exists name :: name in after && after[name].Uploaded?
            else forall name | name in after && after[name].Uploaded? :: name in records && records[name].Uploaded?
  {
    if Accepted(file, reply) {
      assert Tried(records, file, reply)[NameOf(file)].Uploaded?;
    }
  }

  datatype Pass = Pass(records: map<string, Record>, attempted: nat, uploaded: nat)

  /** A pass over the first files, with room for `batch` attempts; the i-th
      attempt meets the i-th reply. */
  function PassOver(records: map<string, Record>, files: seq<File>, batch: nat, replies: nat -> Option<nat>): Pass {
    if files == [] then Pass(records, 0, 0)
    else
      var p := PassOver(records, files[..|files| - 1], batch, replies);
      var file := files[|files| - 1];
      if p.attempted >= batch || file.fallback in p.records then p
      else
        Pass(Tried(p.records, file, replies(p.attempted)), p.attempted + 1,
             p.uploaded + if Accepted(file, replies(p.attempted)) then 1 else 0)
  }

  class CactusUploader {
    var records: map<string, Record>
    const batchSize: nat

    constructor (batchSize: nat)
      ensures records == map[] && this.batchSize == batchSize
    {
      records := map[];
      this.batchSize := batchSize;
    }

    method RecordUploaded(wav: string)
      modifies this
      ensures records == old(records)[wav := Uploaded]
    {
      records := records[wav := Uploaded];
    }

    method RecordPermanentFailure(wav: string, status: nat)
      modifies this
      ensures records == old(records)[wav := PermanentFailure(status)]
    {
      records := records[wav := PermanentFailure(status)];
    }

    method UploadTranscript(file: File, reply: Option<nat>) returns (ok: bool)
      modifies this
      ensures records == Tried(old(records), file, reply)
      ensures ok <==> Accepted(file, reply)
    {
      if file.body.None? {
        RecordPermanentFailure(file.fallback, 0);
        return false;
      }
      if !file.sendable || reply.None? {
        return false;
      }
      var wav, status := NameOf(file), reply.value;
      if status == 200 {
        RecordUploaded(wav);
        return true;
      }
      if status == 409 {
        RecordUploaded(wav);
        return true;
      }
      if status == 401 || status == 429 || status >= 500 {
        return false;
      }
      if 400 <= status < 500 {
        RecordPermanentFailure(wav, status);
        return false;
      }
      return false;
    }

    method ProcessOnce(files: seq<File>, replies: nat -> Option<nat>) returns (uploaded: nat)
      modifies this
      ensures var p := PassOver(old(records), files, batchSize, replies);
              records == p.records && uploaded == p.uploaded
    {
      uploaded := 0;
      var attempted := 0;
      for i := 0 to |files|
        invariant Pass(records, attempted, uploaded) == PassOver(old(records), files[..i], batchSize, replies)
      {
        assert files[..i + 1][..i] == files[..i];
        if attempted >= batchSize {
          PassIsFull(old(records), files, batchSize, replies, i);
          break;
        }
        if files[i].fallback in records {
          continue;
        }
        var ok := UploadTranscript(files[i], replies(attempted));
        attempted := attempted + 1;
        if ok {
          uploaded := uploaded + 1;
        }
      }
      assert files[..|files|] == files;
    }
  }

  /** After the last attempt allowed, the rest of the directory is not looked at. */
  lemma {:induction false} PassIsFull(records: map<string, Record>, files: seq<File>, batch: nat,
                                      replies: nat -> Option<nat>, i: nat)
    requires i <= |files| && PassOver(records, files[..i], batch, replies).attempted >= batch
    ensures PassOver(records, files, batch, replies) == PassOver(records, files[..i], batch, replies)
  {
    if i == |files| {
      assert files[..i] == files;
    } else {
      var before := files[..|files| - 1];
      assert before[..i] == files[..i];
      PassIsFull(records, before, batch, replies, i);
    }
  }

  /** Whatever the replies, a pass attempts at most `batch` files, forgets
      nothing on record, and reports no more uploads than attempts. */
  lemma {:induction false} PassIsBounded(records: map<string, Record>, files: seq<File>, batch: nat,
                                         replies: nat -> Option<nat>)
    ensures var p := PassOver(records, files, batch, replies);
            p.uploaded <= p.attempted <= batch && records.Keys <= p.records.Keys
  {
    if files != [] {
      PassIsBounded(records, files[..|files| - 1], batch, replies);
    }
  }

  /** A pass attempts nothing exactly when every file is on record under the
      name of its path, or no attempt is allowed. */
  lemma {:induction false} QuietIff(records: map<string, Record>, files: seq<File>, batch: nat,
                                    replies: nat -> Option<nat>)
    ensures PassOver(records, files, batch, replies).attempted == 0 <==>
      batch == 0 || forall i | 0 <= i < |files| :: files[i].fallback in records
    ensures PassOver(records, files, batch, replies).attempted == 0 ==>
      PassOver(records, files, batch, replies).records == records
  {
    if files != [] {
      var n := |files| - 1;
      QuietIff(records, files[..n], batch, replies);
      assert forall i | 0 <= i < n :: files[..n][i] == files[i];
    }
  }

  /** The first `batch` unrecorded files block all later ones for as long as
      their attempts get no verdict: the next pass starts with them again. */
  lemma {:induction false} StuckFilesBlock(records: map<string, Record>, files: seq<File>, batch: nat,
                                           replies: nat -> Option<nat>)
    requires forall i | 0 <= i < |files| :: files[i].body.Some?
    requires forall k: nat | k < batch :: replies(k).None? || replies(k).value >= 500
    ensures PassOver(records, files, batch, replies).records == records
  {
    if files != [] {
      var n := |files| - 1;
      assert forall i | 0 <= i < n :: files[..n][i] == files[i];
      StuckFilesBlock(records, files[..n], batch, replies);
    }
  }

  // ---------------------------------------------------------------- the pass and the protocol

  /** What becomes of one attempt that makes a request: the server never serves
      it, or serves it and the reply is lost, or the reply comes back. */
  datatype Fate = Unserved | Unheard(at: Time, answer: Answer) | Heard(at: Time, answer: Answer)
  {
    function Reply(): Option<nat> {
      if Heard? then Some(StatusOf(answer)) else None
    }

    predicate Possible() {
      Unserved? || Sensible(answer)
    }
  }

  /** The steps of one attempt after the steps so far. */
  ghost function AttemptSteps(cfg: Config, steps: seq<Step>, k: nat, file: File, fate: Fate): seq<Step> {
    var w := Reach(cfg, steps);
    var sent := steps + [Send(k, file)];
    if !Requests(w.UploaderAt(k), file) then sent
    else match fate
      case Unserved => sent + [Abandon(k)]
      case Unheard(at, answer) => sent + [Serve(|w.requests|, at, answer)] + [Abandon(k)]
      case Heard(at, answer) => sent + [Serve(|w.requests|, at, answer)] + [Receive(k)]
  }

  /** The steps of a pass over the first files after the steps so far; the i-th
      attempt meets the i-th fate. */
  ghost function PassSteps(cfg: Config, steps: seq<Step>, k: nat, files: seq<File>, batch: nat, fates: nat -> Fate)
    : (r: (seq<Step>, nat))
  {
    if files == [] then (steps, 0)
    else
      var before := PassSteps(cfg, steps, k, files[..|files| - 1], batch, fates);
      var file := files[|files| - 1];
      if before.1 >= batch || file.fallback in Reach(cfg, before.0).UploaderAt(k).records then before
      else (AttemptSteps(cfg, before.0, k, file, fates(before.1)), before.1 + 1)
  }

  lemma SendEffect(cfg: Config, w: World, k: nat, file: File, v: World)
    requires w.UploaderAt(k).waiting.None? && file.fallback !in w.UploaderAt(k).records
    requires v == After(cfg, w, Send(k, file))
    ensures var records := w.UploaderAt(k).records;
            if Requests(w.UploaderAt(k), file) then
              && v.UploaderAt(k) == Uploader(records, Some(|w.requests|)) && |v.requests| == |w.requests| + 1
              && v.requests[|w.requests|].wav == NameOf(file) && v.requests[|w.requests|].status.None?
            else v.UploaderAt(k) == Uploader(Tried(records, file, None), None)
  {
  }

  lemma ServeEffect(cfg: Config, w: World, k: nat, q: nat, at: Time, answer: Answer, v: World)
    requires q < |w.requests| && w.requests[q].status.None? && Sensible(answer)
    requires v == After(cfg, w, Serve(q, at, answer))
    ensures v.UploaderAt(k) == w.UploaderAt(k) && |v.requests| == |w.requests|
    ensures v.requests[q] == w.requests[q].(status := Some(StatusOf(answer)))
  {
  }

  lemma EndEffect(cfg: Config, w: World, k: nat, q: nat, step: Step, v: World)
    requires w.UploaderAt(k).waiting == Some(q) && q < |w.requests| && v == After(cfg, w, step)
    requires step == Abandon(k) || (step == Receive(k) && w.requests[q].status.Some?)
    ensures var records := w.UploaderAt(k).records;
            v.UploaderAt(k) == Uploader(
              if step.Abandon? then records else Filed(records, w.requests[q].wav, w.requests[q].status.value), None)
  {
  }

  /** A request that the server answers, and then a reply received or given up. */
  lemma AnsweredEffect(cfg: Config, sent: seq<Step>, k: nat, q: nat, at: Time, answer: Answer, end: Step)
    requires Sensible(answer) && (end == Abandon(k) || end == Receive(k))
    requires var v := Reach(cfg, sent);
             v.UploaderAt(k).waiting == Some(q) && q < |v.requests| && v.requests[q].status.None?
    ensures var v := Reach(cfg, sent);
            var records := v.UploaderAt(k).records;
            Reach(cfg, sent + [Serve(q, at, answer)] + [end]).UploaderAt(k) == Uploader(
              if end.Abandon? then records else Filed(records, v.requests[q].wav, StatusOf(answer)), None)
  {
    var v, serve := Reach(cfg, sent), Serve(q, at, answer);
    var served := After(cfg, v, serve);
    ReachSnoc(cfg, sent, serve);
    ReachSnoc(cfg, sent + [serve], end);
    ServeEffect(cfg, v, k, q, at, answer, served);
    EndEffect(cfg, served, k, q, end, After(cfg, served, end));
  }

  /** One attempt is a file sent, and where that makes a request, the server's
      answer or none, and the reply received or the wait abandoned. */
  lemma AttemptIsSteps(cfg: Config, steps: seq<Step>, k: nat, file: File, fate: Fate)
    requires fate.Possible() && Reach(cfg, steps).UploaderAt(k).waiting.None?
    requires file.fallback !in Reach(cfg, steps).UploaderAt(k).records
    ensures var records := Reach(cfg, steps).UploaderAt(k).records;
            Reach(cfg, AttemptSteps(cfg, steps, k, file, fate)).UploaderAt(k)
              == Uploader(Tried(records, file, fate.Reply()), None)
  {
    var w, sent := Reach(cfg, steps), steps + [Send(k, file)];
    var v := Reach(cfg, sent);
    ReachSnoc(cfg, steps, Send(k, file));
    SendEffect(cfg, w, k, file, v);
    if Requests(w.UploaderAt(k), file) {
      var q := |w.requests|;
      match fate {
        case Unserved =>
          ReachSnoc(cfg, sent, Abandon(k));
          EndEffect(cfg, v, k, q, Abandon(k), After(cfg, v, Abandon(k)));
        case Unheard(at, answer) => AnsweredEffect(cfg, sent, k, q, at, answer, Abandon(k));
        case Heard(at, answer) => AnsweredEffect(cfg, sent, k, q, at, answer, Receive(k));
      }
    }
  }

  lemma AttemptGoesOn(cfg: Config, steps: seq<Step>, k: nat, file: File, fate: Fate)
    ensures steps <= AttemptSteps(cfg, steps, k, file, fate)
  {
  }

  /** The last file's turn, in the protocol and in the loop. */
  lemma TurnIsSteps(cfg: Config, run: seq<Step>, k: nat, file: File, batch: nat, fate: Fate, p: Pass)
    requires fate.Possible() && Reach(cfg, run).UploaderAt(k) == Uploader(p.records, None)
    ensures var skips := p.attempted >= batch || file.fallback in p.records;
            Reach(cfg, if skips then run else AttemptSteps(cfg, run, k, file, fate)).UploaderAt(k)
              == Uploader(if skips then p.records else Tried(p.records, file, fate.Reply()), None)
  {
    if p.attempted < batch && file.fallback !in p.records {
      AttemptIsSteps(cfg, run, k, file, fate);
    }
  }

  /** From any reachable world in which the uploader is not waiting, a whole pass
      is a run of the protocol: it sends, is served or not, receives or gives up,
      and ends with the records the loop ends with. */
  lemma {:induction false} PassIsSteps(cfg: Config, steps: seq<Step>, k: nat, files: seq<File>, batch: nat,
                                       fates: nat -> Fate, replies: nat -> Option<nat>)
    requires Reach(cfg, steps).UploaderAt(k).waiting.None?
    requires forall n: nat :: fates(n).Possible() && replies(n) == fates(n).Reply()
    ensures var (run, attempted) := PassSteps(cfg, steps, k, files, batch, fates);
            var p := PassOver(Reach(cfg, steps).UploaderAt(k).records, files, batch, replies);
            && steps <= run && attempted == p.attempted
            && Reach(cfg, run).UploaderAt(k) == Uploader(p.records, None)
  {
    if files != [] {
      var before, file := files[..|files| - 1], files[|files| - 1];
      PassIsSteps(cfg, steps, k, before, batch, fates, replies);
      var (run, attempted) := PassSteps(cfg, steps, k, before, batch, fates);
      var p := PassOver(Reach(cfg, steps).UploaderAt(k).records, before, batch, replies);
      AttemptGoesOn(cfg, run, k, file, fates(attempted));
      TurnIsSteps(cfg, run, k, file, batch, fates(attempted), p);
    }
  }
}
