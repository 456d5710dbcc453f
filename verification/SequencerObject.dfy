/** The sequencer object of pkg/isequencer/impl.go: the fields that its goroutines update in place.
    Every method is one step of module Sequencer; the flusher's iteration is cut where it releases
    the lock or calls the storage. */
module SequencerObject {
  import opened Sequencer

  /** ISeqStorage with the PLog behind it. */
  class SeqStorage {
    var numbers: map<Key, nat>
    var nextOffset: nat
    var plog: seq<Event>

    constructor (numbers: map<Key, nat>, nextOffset: nat, plog: seq<Event>)
      ensures this.numbers == numbers && this.nextOffset == nextOffset && this.plog == plog
    {
      this.numbers, this.nextOffset, this.plog := numbers, nextOffset, plog;
    }

    /** 0 if the number is not found. */
    method ReadNumber(k: Key) returns (number: nat)
      ensures number == Layered(map[], numbers, k)
    {
      number := if k in numbers then numbers[k] else 0;
    }

    method WriteValues(values: map<Key, nat>)
      modifies this`numbers
      ensures numbers == old(numbers) + values
    {
      numbers := numbers + values;
    }

    method WriteOffset(offset: nat)
      modifies this`nextOffset
      ensures nextOffset == offset
    {
      nextOffset := offset;
    }

    method Append(e: Event)
      modifies this`plog
      ensures plog == old(plog) + [e]
    {
      plog := plog + [e];
    }
  }

  class SequencerObject {
    const params: Params
    const storage: SeqStorage
    var actualizerInProgress: bool
    var cache: map<Key, nat>
    var inproc: map<Key, nat>
    var toBeFlushed: map<Key, nat>
    var toBeFlushedOffset: nat
    var nextOffset: nat
    var transactionIsInProgress: bool
    var currentWSKind: nat
    var currentWSID: nat
    var flusherSig: bool
    /** The local variables of the flusher goroutine. */
    var flusher: Flusher
    /** Of the actualizer goroutine: it still waits for the flusher. */
    var stopping: bool
    /** What the environment did in this transaction. */
    ghost var issued: set<SeqValue>
    ghost var appended: bool

    /** The object as a state of module Sequencer. */
    ghost function View(): State
      reads this, storage
    {
      State(storage.plog, storage.numbers, storage.nextOffset,
            if !actualizerInProgress then Ready else if stopping then Stopping else Scanning,
            cache, inproc, toBeFlushed, toBeFlushedOffset, nextOffset,
            if transactionIsInProgress then Txn(currentWSKind, currentWSID, issued, appended) else NoTxn,
            flusher, flusherSig)
    }

    ghost predicate Can(a: Action)
      reads this, storage
    {
      ValidParams(params) && Enabled(params, View(), a)
    }

    /** New over a storage that holds a PLog: the object starts by actualizing. */
    constructor (params: Params, storage: SeqStorage)
      requires ValidParams(params)
      ensures this.params == params && this.storage == storage
      ensures View() == CrashStep(View())
      ensures View().plog == storage.plog && View().numbers == storage.numbers && View().storedOffset == storage.nextOffset
    {
      this.params, this.storage := params, storage;
      cache, inproc, toBeFlushed, toBeFlushedOffset, nextOffset := map[], map[], map[], 0, 0;
      transactionIsInProgress, currentWSKind, currentWSID := false, 0, 0;
      actualizerInProgress, stopping, flusher, flusherSig := true, true, Idle, false;
      issued, appended := {}, false;
    }

    method Start(wsKind: nat, wsid: nat) returns (offset: nat, ok: bool)
      requires Can(Action.Start(wsKind, wsid))
      modifies this
      ensures (View(), if ok then Offset(offset) else Rejected) == Step(params, old(View()), Action.Start(wsKind, wsid))
      ensures !ok ==> offset == 0
    {
      if actualizerInProgress {
        return 0, false;
      }
      if |toBeFlushed| > params.maxUnflushed {
        flusherSig := true;
        return 0, false;
      }
      currentWSID := wsid;
      currentWSKind := wsKind;
      transactionIsInProgress := true;
      issued, appended := {}, false;
      return nextOffset, true;
    }

    method Next(seqId: nat) returns (number: nat, known: bool)
      requires Can(Action.Next(seqId))
      modifies this
      ensures
        (View(), if known then Issued(SeqValue(Key(old(currentWSID), seqId), number)) else UnknownSeqId)
          == Step(params, old(View()), Action.Next(seqId))
    {
      var seqTypes := params.seqTypes[currentWSKind];
      if seqId !in seqTypes {
        return 0, false;
      }
      known := true;
      var key := Key(currentWSID, seqId);
      if key in cache {
        number := IncrementNumber(key, cache[key]);
      } else if key in inproc {
        number := IncrementNumber(key, inproc[key]);
      } else if key in toBeFlushed {
        number := IncrementNumber(key, toBeFlushed[key]);
      } else {
        var nextNumber := storage.ReadNumber(key);
        if nextNumber == 0 {
          nextNumber := seqTypes[seqId] - 1;
        }
        number := IncrementNumber(key, nextNumber);
      }
    }

    method IncrementNumber(key: Key, number: nat) returns (nextNumber: nat)
      requires transactionIsInProgress
      modifies this
      ensures (View(), Issued(SeqValue(key, nextNumber))) == Increment(old(View()), key, number)
    {
      nextNumber := number + 1;
      cache := cache[key := nextNumber];
      inproc := inproc[key := nextNumber];
      issued := issued + {SeqValue(key, nextNumber)};
    }

    /** The command processor writes the event of this transaction. */
    method Append(e: Event)
      requires Can(Action.Append(e))
      modifies this, storage
      ensures View() == Step(params, old(View()), Action.Append(e)).0
    {
      storage.Append(e);
      appended := true;
    }

    method Flush()
      requires Can(Action.Flush)
      modifies this
      ensures View() == Step(params, old(View()), Action.Flush).0
    {
      CopyInproc();
      toBeFlushedOffset := nextOffset;
      inproc := map[];
      nextOffset := nextOffset + 1;
      flusherSig := true;
      transactionIsInProgress := false;
      assert View() == FlushStep(old(View()));
    }

    method CopyInproc()
      modifies this`toBeFlushed
      ensures toBeFlushed == old(toBeFlushed) + inproc
    {
      var todo := inproc.Keys;
      while todo != {}
        invariant todo <= inproc.Keys
        invariant toBeFlushed == old(toBeFlushed) + (map k | k in inproc && k !in todo :: inproc[k])
        decreases todo
      {
        var key :| key in todo;
        toBeFlushed := toBeFlushed[key := inproc[key]];
        todo := todo - {key};
      }
      assert (map k | k in inproc && k !in todo :: inproc[k]) == inproc;
    }

    method Actualize()
      requires Can(Action.Actualize) && !actualizerInProgress
      modifies this
      ensures View() == Step(params, old(View()), Action.Actualize).0
    {
      actualizerInProgress := true;
      inproc := map[];
      cache := map[];
      transactionIsInProgress := false;
      stopping := true;
    }

    /** The flusher between two lock sections: wait for the signal, copy under the lock. */
    method FlusherTake()
      requires Can(Action.FlusherTake)
      modifies this
      ensures View() == Step(params, old(View()), Action.FlusherTake).0
    {
      flusherSig := false;
      if toBeFlushedOffset == 0 {
        return;
      }
      var values: map<Key, nat> := map[];
      var todo := toBeFlushed.Keys;
      while todo != {}
        invariant todo <= toBeFlushed.Keys
        invariant values == map k | k in toBeFlushed && k !in todo :: toBeFlushed[k]
        decreases todo
      {
        var key :| key in todo;
        values := values[key := toBeFlushed[key]];
        todo := todo - {key};
      }
      assert values == toBeFlushed;
      flusher := Copied(values, toBeFlushedOffset);
    }

    /** WriteValuesAndNextPLogOffset, first half: the batch.  Without the acknowledgement it is retried. */
    method FlusherWriteBatch(acked: bool)
      requires Can(Action.FlusherWriteBatch(acked))
      modifies this, storage
      ensures View() == Step(params, old(View()), Action.FlusherWriteBatch(acked)).0
    {
      storage.WriteValues(flusher.values);
      if acked {
        flusher := BatchWritten(flusher.values, flusher.offset);
      }
    }

    /** WriteValuesAndNextPLogOffset, second half: the offset. */
    method FlusherWriteOffset(acked: bool)
      requires Can(Action.FlusherWriteOffset(acked))
      modifies this, storage
      ensures View() == Step(params, old(View()), Action.FlusherWriteOffset(acked)).0
    {
      storage.WriteOffset(flusher.offset);
      if acked {
        flusher := Written(flusher.values);
      }
    }

    /** Forget what was written, unless it changed meanwhile. */
    method FlusherRemove()
      requires Can(Action.FlusherRemove)
      modifies this
      ensures View() == Step(params, old(View()), Action.FlusherRemove).0
    {
      RemoveUnchanged(flusher.values);
      flusher := Idle;
    }

    method RemoveUnchanged(values: map<Key, nat>)
      modifies this`toBeFlushed
      ensures toBeFlushed == Unwritten(old(toBeFlushed), values)
    {
      var todo := values.Keys;
      while todo != {}
        invariant todo <= values.Keys
        invariant toBeFlushed == Unwritten(old(toBeFlushed), map k | k in values && k !in todo :: values[k])
        decreases todo
      {
        var key :| key in todo;
        if key in toBeFlushed && toBeFlushed[key] == values[key] {
          toBeFlushed := toBeFlushed - {key};
        }
        todo := todo - {key};
      }
      assert (map k | k in values && k !in todo :: values[k]) == values;
    }

    /** The actualizer once the flusher exited. */
    method StopFlusher()
      requires Can(Action.StopFlusher)
      modifies this
      ensures View() == Step(params, old(View()), Action.StopFlusher).0
    {
      flusherSig := false;
      toBeFlushed := map[];
      toBeFlushedOffset := 0;
      stopping := false;
      nextOffset := storage.nextOffset;
      assert View() == StopFlusherStep(old(View()));
    }

    /** batcher for the event at nextOffset, after its wait. */
    method Batcher(values: seq<SeqValue>, offset: nat)
      requires Can(Action.Batch) && offset == nextOffset && values == storage.plog[offset - 1]
      modifies this
      ensures View() == Step(params, old(View()), Action.Batch).0
    {
      nextOffset := offset + 1;
      toBeFlushedOffset := nextOffset;
      var maxValues := CollectMaxValues(values);
      toBeFlushed := toBeFlushed + maxValues;
      assert View() == BatchValuesStep(BatchOffsetStep(old(View())), values);
    }

    method CollectMaxValues(values: seq<SeqValue>) returns (maxValues: map<Key, nat>)
      ensures maxValues == MaxValues(values)
    {
      maxValues := map[];
      for i := 0 to |values|
        invariant maxValues == MaxValues(values[..i])
      {
        var sv := values[i];
        assert values[..i + 1][..i] == values[..i];
        if sv.key !in maxValues || sv.value > maxValues[sv.key] {
          maxValues := maxValues[sv.key := sv.value];
        }
      }
      assert values[..|values|] == values;
    }
  }
}
