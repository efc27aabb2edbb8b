/** The bounded event buffer and its export rounds (huddle_cluster_pkg/cluster_observability.py). A round
    takes the lock to pick what is pending, sends it unlocked, and takes the lock again to move the
    export index. Events are opaque numbers. */
module ExportBuffer {
  type Event = nat

  datatype Buffer = Buffer(size: nat, events: seq<Event>, index: nat, recorded: nat, exported: nat, errors: nat)

  function NewBuffer(size: nat): Buffer { Buffer(size, [], 0, 0, 0, 0) }

  /** `record_event` */
  function Record(b: Buffer, e: Event): Buffer {
    var events := b.events + [e];
    var b1 := b.(events := events, recorded := b.recorded + 1);
    if |events| > b.size then
      var overflow := |events| - b.size;
      b1.(events := events[overflow..], index := if b.index > overflow then b.index - overflow else 0)
    else b1
  }

  /** What a round is about to send: self._events[self._exported_index:] */
  function Pending(b: Buffer): seq<Event> { if b.index <= |b.events| then b.events[b.index..] else [] }

  /** The end of a round that sent `sent` events when the buffer held `sentUpTo`. */
  function Finish(b: Buffer, sent: nat, sentUpTo: nat, ok: bool): Buffer {
    if ok then b.(index := sentUpTo, exported := b.exported + sent) else b.(errors := b.errors + 1)
  }
}

module ExportBufferObject {
  import opened ExportBuffer

  class ClusterObservability {
    const bufferSize: nat
    var events: seq<Event>
    var exportedIndex: nat
    var requestCount: nat
    var exportCount: nat
    var errorCount: nat

    ghost function Value(): Buffer
      reads this
    {
      Buffer(bufferSize, events, exportedIndex, requestCount, exportCount, errorCount)
    }

    /** The source raises ValueError for a size of zero or less. */
    constructor (bufferSize: nat)
      requires bufferSize > 0
      ensures Value() == NewBuffer(bufferSize)
    {
      this.bufferSize := bufferSize;
      events, exportedIndex, requestCount, exportCount, errorCount := [], 0, 0, 0, 0;
    }

    method RecordEvent(e: Event)
      modifies this
      ensures Value() == Record(old(Value()), e)
    {
      events := events + [e];
      requestCount := requestCount + 1;
      if |events| > bufferSize {
        var overflow := |events| - bufferSize;
        events := events[|events| - bufferSize..];
        exportedIndex := if exportedIndex > overflow then exportedIndex - overflow else 0;
      }
    }

    method BeginExport() returns (pending: seq<Event>, sentUpTo: nat)
      ensures pending == Pending(Value()) && sentUpTo == |events|
    {
      pending := if exportedIndex <= |events| then events[exportedIndex..] else [];
      sentUpTo := |events|;
    }

    method FinishExport(sent: nat, sentUpTo: nat, ok: bool)
      modifies this
      ensures Value() == Finish(old(Value()), sent, sentUpTo, ok)
    {
      if ok {
        exportedIndex := sentUpTo;
        exportCount := exportCount + sent;
      } else {
        errorCount := errorCount + 1;
      }
    }

    /** A whole round, nothing recorded meanwhile; `ok` is whether the collector took it. */
    method ExportOnce(ok: bool) returns (pending: seq<Event>)
      modifies this
      ensures pending == Pending(old(Value()))
      ensures Value() == if pending == [] then old(Value())
                         else Finish(old(Value()), |pending|, |old(events)|, ok)
    {
      var sentUpTo: nat;
      pending, sentUpTo := BeginExport();
      if pending != [] {
        FinishExport(|pending|, sentUpTo, ok);
      }
    }
  }
}
