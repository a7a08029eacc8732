// The writer's handling of one queued item, in place, and the export of one request's records.
module CaptureWriter {
  import opened Wrappers
  import opened Frames
  import opened Captures
  import opened CaptureStore
  import opened CaptureSystem

  class CaptureDirectory {
    var files: Disk

    constructor (files: Disk)
      ensures this.files == files
    {
      this.files := files;
    }

    /** One unbuffered append, of which the file system takes as much as it does. */
    method AppendBytes(path: Path, bytes: Bytes, opens: bool, accepted: nat) returns (persisted: nat)
      requires accepted <= |bytes|
      modifies this
      ensures persisted == if opens then accepted else 0
      ensures files == if opens then old(files)[path := FileBytes(old(files), path) + bytes[..accepted]] else old(files)
    {
      persisted := 0;
      if opens {
        files := files[path := FileBytes(files, path) + bytes[..accepted]];
        persisted := accepted;
      }
    }
  }

  /** The writer's steps for the item it holds, taken one after another. */
  ghost function HandleItem(p: Pipe, failed: bool, opens: bool, accepted: nat, closes: bool): Pipe
    requires p.worker.Taken? && accepted <= |p.worker.item.bytes|
  {
    var checked := PipeCheckPoisoned(p);
    if checked.worker.Written? then PipeComplete(checked)
    else
      var admitted := PipeCheckFailure(checked, failed);
      if admitted.worker.Written? then PipeComplete(admitted)
      else PipeComplete(PipeWrite(admitted, opens, accepted, closes))
  }

  /** What the item's outcome is, whatever else is going on. */
  ghost function OutcomeOf(p: Pipe, failed: bool, opens: bool, accepted: nat, closes: bool): Outcome
    requires p.worker.Taken? && accepted <= |p.worker.item.bytes|
  {
    if p.worker.item.path in p.store.poisoned then Outcome(0, Some(PathPoisoned))
    else if failed then Outcome(0, Some(WriterError))
    else PipeWrite(p.(worker := Writing(p.worker.item)), opens, accepted, closes).worker.outcome
  }

  /** One turn of the write loop with an item in hand. */
  method WriteItem(store: RawCaptureStore, capture: RawRequestCapture, directory: CaptureDirectory, item: Frame,
                   opens: bool, accepted: nat, closes: bool)
    requires item.capture == capture.id && accepted <= |item.bytes| && (item.bytes != [] ==> item.path in store.reservedFileBytes)
    modifies store, capture, directory
    ensures var held := Pipe(old(store.State()), Taken(item), old(directory.files), [], []);
      var failed := old(capture.State()).writerErrorEvent != None;
      && store.State() == HandleItem(held, failed, opens, accepted, closes).store
      && directory.files == HandleItem(held, failed, opens, accepted, closes).disk
      && capture.State() == NoteCompleted(old(capture.State()), item.event.evidence, OutcomeOf(held, failed, opens, accepted, closes).drop)
  {
    if item.path in store.poisonedPaths {
      store.Complete(capture, item, 0, Some(PathPoisoned));
      return;
    }
    var failed := capture.HasWriterFailure();
    if failed {
      store.Complete(capture, item, 0, Some(WriterError));
      return;
    }
    var persisted := directory.AppendBytes(item.path, item.bytes, opens, accepted);
    var writerError := !opens || persisted != |item.bytes| || !closes;
    store.Complete(capture, item, persisted, if writerError then Some(WriterError) else None);
  }

  /** The records of one request, in order. */
  function ForRequest(records: seq<Record>, requestId: string, n: nat): seq<Record>
    requires n <= |records|
  {
    if n == 0 then []
    else if records[n - 1].requestId == requestId then ForRequest(records, requestId, n - 1) + [records[n - 1]]
    else ForRequest(records, requestId, n - 1)
  }

  /** Reads a capture file and encodes one request's records anew; the result reads back as exactly those records. */
  method ExportRequest(c: Codec<Record>, encode: Record -> Bytes, stream: Bytes, requestId: string) returns (exported: Result<Bytes, Fault>)
    requires ValidCodec(c) && forall record :: IsFrame(c, encode(record), record)
    ensures match Parse(c, stream).fault
      case Some(fault) => exported == Err(fault)
      case None => exported.Ok? && Parse(c, exported.value)
                   == Reading(ForRequest(Parse(c, stream).records, requestId, |Parse(c, stream).records|), None)
  {
    var reading := ReadRecords(c, stream);
    if reading.fault.Some? {
      return Err(reading.fault.value);
    }
    var frames: seq<Bytes> := [];
    for n := 0 to |reading.records|
      invariant AreFrames(c, frames, ForRequest(reading.records, requestId, n))
    {
      if reading.records[n].requestId == requestId {
        frames := frames + [encode(reading.records[n])];
      }
    }
    ParseFrames(c, frames, ForRequest(reading.records, requestId, |reading.records|));
    return Ok(Concat(frames));
  }
}
