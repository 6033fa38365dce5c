/**
 The ledger of temporary device memory of a stream (stream_executor/temporary_memory_manager.cc):
 one record per device address, stamped with the generation in which it was allocated.
 */
module TemporaryMemory {

  datatype Record = Record(generation: nat, finalized: bool)

  datatype Ledger = Ledger(records: map<nat, Record>, generation: nat)

  /** A temporary memory object: its device address and the generation of its allocation. */
  datatype Handle = Handle(addr: nat, generation: nat)

  /** The record of an address is marked, whatever its generation. */
  function Marked(l: Ledger, a: nat): Ledger {
    if a in l.records then l.(records := l.records[a := l.records[a].(finalized := true)]) else l
  }

  function Inserted(l: Ledger, a: nat): Ledger {
    Ledger(l.records[a := Record(l.generation + 1, false)], l.generation + 1)
  }

  function Erased(l: Ledger, a: nat): Ledger {
    l.(records := map b | b in l.records && b != a :: l.records[b])
  }

  /** What remains when all finalized records are gone. */
  function Swept(l: Ledger): Ledger {
    l.(records := map a | a in l.records && !l.records[a].finalized :: l.records[a])
  }

  predicate FinalizedIn(l: Ledger, h: Handle) {
    h.addr in l.records && l.records[h.addr].generation == h.generation ==> l.records[h.addr].finalized
  }

  predicate AllocatedIn(l: Ledger, h: Handle) {
    h.addr in l.records && l.records[h.addr].generation == h.generation
  }

  /** No generation was handed out beyond the counter. */
  ghost predicate Stamped(l: Ledger) {
    forall a :: a in l.records ==> l.records[a].generation <= l.generation
  }

  class TemporaryMemoryManager {
    var records: map<nat, Record>
    var generation: nat

    ghost function State(): Ledger
      reads this
    {
      Ledger(records, generation)
    }

    /** The counter starts at whatever value the memory held. */
    constructor (start: nat)
      ensures State() == Ledger(map[], start)
    {
      records, generation := map[], start;
    }

    /** The part of AllocateArrayBase under the lock; `isNew` is the condition of its DCHECK. */
    method InsertRecord(a: nat) returns (h: Handle, isNew: bool)
      modifies this
      ensures State() == Inserted(old(State()), a)
      ensures generation == old(generation) + 1 && records == old(records)[a := Record(generation, false)]
      ensures h == Handle(a, generation) && (isNew <==> a !in old(records))
      ensures AllocatedIn(State(), h) && !FinalizedIn(State(), h)
      ensures Stamped(old(State())) ==> Stamped(State()) && !AllocatedIn(old(State()), h)
    {
      generation := generation + 1;
      isNew := a !in records;
      records := records[a := Record(generation, false)];
      h := Handle(a, generation);
    }

    /** `ok` is false when the process is stopped with a fatal message. */
    method MarkFinalized(h: Handle, mustExist: bool) returns (ok: bool)
      modifies this
      ensures ok <==> mustExist ==> h.addr in old(records)
      ensures State() == Marked(old(State()), h.addr) && generation == old(generation)
      ensures records.Keys == old(records).Keys
      ensures forall a :: a in records ==>
                records[a].generation == old(records)[a].generation
                && (records[a].finalized <==> a == h.addr || old(records)[a].finalized)
      ensures forall h' :: AllocatedIn(State(), h') <==> AllocatedIn(old(State()), h')
      ensures FinalizedIn(State(), h)
    {
      if h.addr !in records {
        return !mustExist;
      }
      records := records[h.addr := records[h.addr].(finalized := true)];
      ok := true;
    }

    /** Frees each finalized block once, and forgets it. */
    method DeallocateFinalizedTemporaries() returns (freed: seq<nat>)
      modifies this
      ensures State() == Swept(old(State())) && generation == old(generation)
      ensures forall a :: a in records <==> a in old(records) && !old(records)[a].finalized
      ensures forall a :: a in records ==> records[a] == old(records)[a]
      ensures forall i, j :: 0 <= i < j < |freed| ==> freed[i] != freed[j]
      ensures forall a :: a in freed <==> a in old(records) && old(records)[a].finalized
    {
      freed := [];
      var todo := records.Keys;
      while todo != {}
        invariant todo <= old(records).Keys && generation == old(generation)
        invariant forall i, j :: 0 <= i < j < |freed| ==> freed[i] != freed[j]
        invariant forall a :: a in freed <==> a in old(records) && old(records)[a].finalized && a !in todo
        invariant forall a :: a in records <==> a in old(records) && (old(records)[a].finalized ==> a in todo)
        invariant forall a :: a in records ==> records[a] == old(records)[a]
        decreases todo
      {
        var a :| a in todo;
        if records[a].finalized {
          freed := freed + [a];
          records := records - {a};
        }
        todo := todo - {a};
      }
    }

    /** Frees every block on record; the records stay, and the manager goes away with its stream. */
    method ForceDeallocateAll() returns (freed: seq<nat>)
      ensures forall i, j :: 0 <= i < j < |freed| ==> freed[i] != freed[j]
      ensures forall a :: a in freed <==> a in records
    {
      freed := [];
      var todo := records.Keys;
      while todo != {}
        invariant todo <= records.Keys
        invariant forall i, j :: 0 <= i < j < |freed| ==> freed[i] != freed[j]
        invariant forall a :: a in freed <==> a in records && a !in todo
        decreases todo
      {
        var a :| a in todo;
        freed := freed + [a];
        todo := todo - {a};
      }
    }

    method IsFinalized(h: Handle) returns (r: bool)
      ensures r == FinalizedIn(State(), h)
      ensures !r <==> h.addr in records && records[h.addr] == Record(h.generation, false)
    {
      if h.addr !in records {
        return true;
      }
      if records[h.addr].generation == h.generation {
        return records[h.addr].finalized;
      }
      r := true;
    }

    method HasAllocated(h: Handle) returns (r: bool)
      ensures r == AllocatedIn(State(), h)
      ensures r <==> h.addr in records && records[h.addr].generation == h.generation
    {
      if h.addr !in records {
        return false;
      }
      r := records[h.addr].generation == h.generation;
    }
  }
}
