/** The service's process-wide status map and the batch loop that writes it:
    one progress record per upload id, created when a batch starts, advanced
    once per file, marked completed after the archive is written, read by
    status queries and dropped by a cleanup whose archive deletion succeeds. */
module StatusTracker {

  import opened Media

  /** Progress record of one batch. */
  datatype BatchStatus = BatchStatus(total: nat, processed: nat, completed: bool, errors: seq<FileError>)
  {
    /** No more files processed than uploaded, at most one error per
        processed file, and completed only once every file was processed. */
    predicate Consistent()
    {
      processed <= total && |errors| <= processed && (completed ==> processed == total)
    }
  }

  /** What a status query answers: the record, or the not-found error. */
  datatype StatusReply = Found(status: BatchStatus) | NotFound(error: string)

  const NotFoundMessage: string := "Upload not found"

  /** The step at which a batch as a whole was rejected. */
  datatype Stage = OutputDirectory | WatermarkRead | ArchiveWrite

  datatype BatchResult = Finished | Rejected(stage: Stage)

  /** What the file system does for a batch: whether its output directory
      can be created, the watermark read, and the archive written. */
  datatype Environment = Environment(outputDirCreated: bool, watermarkRead: bool, archiveWritten: bool)

  function InitialStatus(count: nat): BatchStatus
  {
    BatchStatus(count, 0, false, [])
  }

  /** The record a batch leaves in the map, or None if it never created one. */
  function FinalStatus(files: seq<UploadedFile>, attempt: UploadedFile -> Outcome, env: Environment): Option<BatchStatus>
  {
    if !env.outputDirCreated then None
    else if !env.watermarkRead then Some(InitialStatus(|files|))
    else Some(BatchStatus(|files|, |files|, env.archiveWritten, Failures(files, attempt)))
  }

  /** How processFiles settles. */
  function FinalResult(env: Environment): BatchResult
  {
    if !env.outputDirCreated then Rejected(OutputDirectory)
    else if !env.watermarkRead then Rejected(WatermarkRead)
    else if !env.archiveWritten then Rejected(ArchiveWrite)
    else Finished
  }

  /** However a batch that settles ends, the record it leaves is consistent,
      and it is completed exactly when the batch finished. */
  lemma FinalStatusConsistent(files: seq<UploadedFile>, attempt: UploadedFile -> Outcome, env: Environment)
    ensures FinalStatus(files, attempt, env).Some? <==> env.outputDirCreated
    ensures FinalStatus(files, attempt, env).Some? ==> FinalStatus(files, attempt, env).value.Consistent()
    ensures FinalStatus(files, attempt, env).Some? ==>
      (FinalStatus(files, attempt, env).value.completed <==> FinalResult(env) == Finished)
  {
  }

  /** A finished batch of N files of which K fail: processed is N, and the
      errors are the batch's error list (so FailuresSound and FailuresInOrder
      apply): K entries, one per failing file with its message. */
  lemma FinishedBatch(files: seq<UploadedFile>, c: Compositors, env: Environment)
    requires FinalResult(env) == Finished
    ensures FinalStatus(files, Dispatch(c), env).Some?
    ensures var s := FinalStatus(files, Dispatch(c), env).value;
      && s.completed
      && s.total == s.processed == |files|
      && s.errors == Failures(files, Dispatch(c))
      && |s.errors| == |FailingIndices(files, Dispatch(c))|
      && (forall j :: 0 <= j < |files| && Dispatch(c)(files[j]).Failed? ==>
            FileError(files[j].originalname, Dispatch(c)(files[j]).message) in s.errors)
  {
    FailuresCount(files, Dispatch(c));
    forall j | 0 <= j < |files| && Dispatch(c)(files[j]).Failed?
      ensures FileError(files[j].originalname, Dispatch(c)(files[j]).message) in Failures(files, Dispatch(c))
    {
      FailuresComplete(files, Dispatch(c), j);
    }
  }

  class StatusStore {
    /** Upload id to progress record. */
    var statuses: map<string, BatchStatus>

    ghost predicate Valid()
      reads this
    {
      forall id :: id in statuses ==> statuses[id].Consistent()
    }

    constructor()
      ensures Valid() && statuses == map[]
    {
      statuses := map[];
    }

    /** processFiles: creates the record, runs every file through
        `attempt`, counts it and records its error if it failed, writes the
        archive and only then marks the record completed. `attempt` is the
        try block of one iteration; the service's is `Dispatch(c)`. */
    method ProcessFiles(uploadId: string, files: seq<UploadedFile>, attempt: UploadedFile -> Outcome, env: Environment)
      returns (result: BatchResult)
      requires Valid()
      modifies this
      ensures Valid()
      ensures result == FinalResult(env)
      ensures FinalStatus(files, attempt, env).None? ==> statuses == old(statuses)
      ensures FinalStatus(files, attempt, env).Some? ==>
        statuses == old(statuses)[uploadId := FinalStatus(files, attempt, env).value]
    {
      if !env.outputDirCreated {
        return Rejected(OutputDirectory);
      }
      statuses := statuses[uploadId := BatchStatus(|files|, 0, false, [])];
      if !env.watermarkRead {
        assert FinalStatus(files, attempt, env) == Some(InitialStatus(|files|));
        return Rejected(WatermarkRead);
      }
      RunFiles(uploadId, files, attempt);
      ghost var looped := BatchStatus(|files|, |files|, false, Failures(files, attempt));
      if !env.archiveWritten {
        assert FinalStatus(files, attempt, env) == Some(looped);
        return Rejected(ArchiveWrite);
      }
      statuses := statuses[uploadId := statuses[uploadId].(completed := true)];
      assert FinalStatus(files, attempt, env) == Some(looped.(completed := true));
      result := Finished;
    }

    /** The loop of processFiles: every file in order is attempted and
        recorded; the record stays not completed throughout, and ends up
        holding the failures of the whole sequence in input order. */
    method RunFiles(uploadId: string, files: seq<UploadedFile>, attempt: UploadedFile -> Outcome)
      requires Valid()
      requires uploadId in statuses && statuses[uploadId] == InitialStatus(|files|)
      modifies this
      ensures Valid()
      ensures statuses == old(statuses)[uploadId := BatchStatus(|files|, |files|, false, Failures(files, attempt))]
    {
      var i := 0;
      while i < |files|
        invariant 0 <= i <= |files|
        invariant statuses == old(statuses)[uploadId := BatchStatus(|files|, i, false, Failures(files[..i], attempt))]
        invariant Valid()
      {
        var outcome := attempt(files[i]);
        FailuresStep(files, i, attempt);
        ghost var next := BatchStatus(|files|, i + 1, false, Failures(files[..i + 1], attempt));
        RecordOutcome(uploadId, files[i], outcome);
        assert statuses[uploadId] == next;
        assert statuses == old(statuses)[uploadId := next];
        i := i + 1;
      }
      assert files[..i] == files;
    }

    /** The body of one loop iteration once the file's outcome is known:
        success and failure both count the file as processed, and a failure
        first appends the file's name and message to the errors. */
    method RecordOutcome(uploadId: string, file: UploadedFile, outcome: Outcome)
      requires Valid() && uploadId in statuses
      requires statuses[uploadId].processed < statuses[uploadId].total
      requires !statuses[uploadId].completed
      modifies this
      ensures Valid()
      ensures var s := old(statuses)[uploadId];
        statuses == old(statuses)[uploadId := s.(processed := s.processed + 1, errors := s.errors + ErrorEntry(file, outcome))]
    {
      var status := statuses[uploadId];
      ghost var next := status.(processed := status.processed + 1, errors := status.errors + ErrorEntry(file, outcome));
      match outcome {
        case Done =>
          statuses := statuses[uploadId := status.(processed := status.processed + 1)];
        case Failed(message) =>
          statuses := statuses[uploadId := status.(errors := status.errors + [FileError(file.originalname, message)])];
          status := statuses[uploadId];
          statuses := statuses[uploadId := status.(processed := status.processed + 1)];
      }
      assert statuses[uploadId] == next;
    }

    /** getStatus: the record of `uploadId`, or the not-found error. */
    function GetStatus(uploadId: string): (r: StatusReply)
      reads this
      ensures r.NotFound? <==> uploadId !in statuses
      ensures r.Found? ==> r.status == statuses[uploadId]
      ensures r.NotFound? ==> r.error == NotFoundMessage
    {
      if uploadId in statuses then Found(statuses[uploadId]) else NotFound(NotFoundMessage)
    }

    /** cleanup: the record goes only when deleting the batch's archive
        succeeded; a failed deletion is logged and swallowed and the record stays. */
    method Cleanup(uploadId: string, unlinkSucceeded: bool)
      requires Valid()
      modifies this
      ensures Valid()
      ensures unlinkSucceeded ==> statuses == old(statuses) - {uploadId}
      ensures !unlinkSucceeded ==> statuses == old(statuses)
    {
      if unlinkSucceeded {
        statuses := statuses - {uploadId};
      }
    }
  }

  /** What a caller of the store can rely on across one upload's lifetime. */
  method Lifecycle(uploadId: string, files: seq<UploadedFile>, c: Compositors)
  {
    var store := new StatusStore();
    assert store.GetStatus(uploadId) == NotFound(NotFoundMessage);
    var result := store.ProcessFiles(uploadId, files, Dispatch(c), Environment(true, true, true));
    assert result == Finished;
    var reply := store.GetStatus(uploadId);
    FinishedBatch(files, c, Environment(true, true, true));
    assert reply.Found? && reply.status.completed && reply.status.processed == |files|;
    store.Cleanup(uploadId, false);
    assert store.GetStatus(uploadId).Found?;
    store.Cleanup(uploadId, true);
    assert store.GetStatus(uploadId) == NotFound(NotFoundMessage);
  }
}
