/**
 * An iterator over the key/value pairs of a queue of sequence-file readers,
 * read in queue order, with a one-pair lookahead filled by `hasNext`.
 */
module ObjectWritableIterators {
  import opened Wrappers

  datatype KeyValue<K, V> = KeyValue(key: K, value: V)

  /**
   * A sequence-file reader at its current position: the pairs it has still
   * to yield and whether reading past them throws an I/O exception instead
   * of reporting the end of the file.
   */
  datatype Reader<K, V> = Reader(pairs: seq<KeyValue<K, V>>, fails: bool)

  /** What one `reader.next(key, value)` does. */
  datatype Read<K, V> = Got(pair: KeyValue<K, V>, rest: Reader<K, V>) | End | IOFailure

  /** `NoSuchElement` is the exhaustion signal; `IllegalState` wraps an I/O exception. */
  datatype IteratorError = NoSuchElement | IllegalState

  function ReadNext<K, V>(reader: Reader<K, V>): (r: Read<K, V>)
    ensures reader.pairs != [] ==> r == Got(reader.pairs[0], Reader(reader.pairs[1..], reader.fails))
    ensures reader.pairs == [] && reader.fails ==> r == IOFailure
    ensures reader.pairs == [] && !reader.fails ==> r == End
  {
    if reader.pairs != [] then Got(reader.pairs[0], Reader(reader.pairs[1..], reader.fails))
    else if reader.fails then IOFailure
    else End
  }

  /** The pairs the queue still yields, in queue order, up to the first reader that fails. */
  function Pending<K, V>(readers: seq<Reader<K, V>>): seq<KeyValue<K, V>>
  {
    if readers == [] then []
    else readers[0].pairs + (if readers[0].fails then [] else Pending(readers[1..]))
  }

  /** Whether reading the whole queue ends in an I/O exception. */
  predicate Fails<K, V>(readers: seq<Reader<K, V>>)
  {
    readers != [] && (readers[0].fails || Fails(readers[1..]))
  }

  /** One read from the head of the queue: what it does to the pairs still pending and to the failure ahead. */
  lemma ReadStep<K, V>(readers: seq<Reader<K, V>>)
    requires readers != []
    ensures ReadNext(readers[0]).Got? ==>
              var rest := [ReadNext(readers[0]).rest] + readers[1..];
              && Pending(readers) == [ReadNext(readers[0]).pair] + Pending(rest)
              && Fails(readers) == Fails(rest)
              && rest[1..] == readers[1..]
    ensures ReadNext(readers[0]).End? ==> Pending(readers) == Pending(readers[1..]) && Fails(readers) == Fails(readers[1..])
    ensures ReadNext(readers[0]).IOFailure? ==> Pending(readers) == [] && Fails(readers)
  {
    var head := readers[0];
    var tail := if head.fails then [] else Pending(readers[1..]);
    assert Pending(readers) == head.pairs + tail;
    if head.pairs != [] {
      var rest := [Reader(head.pairs[1..], head.fails)] + readers[1..];
      assert rest[0] == Reader(head.pairs[1..], head.fails) && rest[1..] == readers[1..];
      assert Pending(rest) == head.pairs[1..] + tail;
      FirstOfConcat(head.pairs, tail);
    }
  }

  lemma FirstOfConcat<X>(s: seq<X>, t: seq<X>)
    requires s != []
    ensures s + t == [s[0]] + (s[1..] + t)
  {
    assert s + t == [s[0]] + (s[1..] + t) by {
      assert forall i :: 0 <= i < |s + t| ==> (s + t)[i] == ([s[0]] + (s[1..] + t))[i];
    }
  }

  /**
   * `after` is the queue `before` with exhausted, non-failing readers
   * removed from its front, the reader then at the front possibly advanced.
   */
  ghost predicate DropsExhausted<K, V>(before: seq<Reader<K, V>>, after: seq<Reader<K, V>>)
  {
    && |after| <= |before|
    && (after != [] ==> after[1..] == before[|before| - |after| + 1..])
    && forall j :: 0 <= j < |before| - |after| ==> before[j].pairs == [] && !before[j].fails
  }

  lemma DropsExhaustedFrom<K, V>(queue: seq<Reader<K, V>>, popped: nat, after: seq<Reader<K, V>>)
    requires popped <= |queue| && |after| == |queue| - popped
    requires after != [] ==> after[1..] == queue[popped + 1..]
    requires forall j :: 0 <= j < popped ==> queue[j].pairs == [] && !queue[j].fails
    ensures DropsExhausted(queue, after)
  {
  }

  /** All the readers' pairs, in queue order. */
  function Concat<K, V>(readers: seq<Reader<K, V>>): seq<KeyValue<K, V>>
  {
    if readers == [] then [] else readers[0].pairs + Concat(readers[1..])
  }

  /** Without I/O failures the iterator yields exactly the concatenation of the readers' pairs. */
  lemma {:induction false} PendingIsConcat<K, V>(readers: seq<Reader<K, V>>)
    requires !Fails(readers)
    ensures Pending(readers) == Concat(readers)
  {
    if readers != [] {
      PendingIsConcat(readers[1..]);
    }
  }

  /** The iterator never yields more than the concatenation: its pending pairs are a prefix of it. */
  lemma {:induction false} PendingPrefixOfConcat<K, V>(readers: seq<Reader<K, V>>)
    ensures |Pending(readers)| <= |Concat(readers)|
    ensures Pending(readers) == Concat(readers)[..|Pending(readers)|]
  {
    if readers != [] {
      PendingPrefixOfConcat(readers[1..]);
      var head := readers[0].pairs;
      if readers[0].fails {
        assert Pending(readers) == head;
        assert Concat(readers)[..|head|] == head;
      } else {
        assert Concat(readers)[..|Pending(readers)|] == head + Concat(readers[1..])[..|Pending(readers[1..])|];
      }
    }
  }

  /** With an I/O failure ahead, the iterator yields the readers' pairs up to and including the first failing reader's. */
  lemma {:induction false} PendingStopsAtFailure<K, V>(readers: seq<Reader<K, V>>, i: nat)
    requires i < |readers| && readers[i].fails
    requires forall j :: 0 <= j < i ==> !readers[j].fails
    ensures Pending(readers) == Concat(readers[..i + 1])
    decreases i
  {
    if i > 0 {
      PendingStopsAtFailure(readers[1..], i - 1);
      assert readers[..i + 1][1..] == readers[1..][..i];
    } else {
      assert readers[..1][1..] == [];
    }
  }

  /** A caller's call on the iterator. */
  datatype Call = HasNextCall | NextCall

  /**
   * The pairs a sequence of calls receives, given what the iterator still
   * holds: `next` takes the first remaining pair, `hasNext` takes none.
   */
  function Returned<K, V>(calls: seq<Call>, remaining: seq<KeyValue<K, V>>): seq<KeyValue<K, V>>
    decreases |calls|
  {
    if calls == [] then []
    else if calls[0] == NextCall && remaining != [] then [remaining[0]] + Returned(calls[1..], remaining[1..])
    else Returned(calls[1..], remaining)
  }

  function NextCalls(calls: seq<Call>): nat
  {
    if calls == [] then 0 else (if calls[0] == NextCall then 1 else 0) + NextCalls(calls[1..])
  }

  /**
   * Whatever the interleaving of `hasNext` and `next`, the pairs returned
   * are the remaining pairs in order, each once: a prefix of them, and all
   * of them once `next` has been called often enough.
   */
  lemma {:induction false} ReturnedInOrder<K, V>(calls: seq<Call>, remaining: seq<KeyValue<K, V>>)
    ensures |Returned(calls, remaining)| <= |remaining|
    ensures Returned(calls, remaining) == remaining[..|Returned(calls, remaining)|]
    ensures NextCalls(calls) >= |remaining| ==> Returned(calls, remaining) == remaining
    decreases |calls|
  {
    if calls != [] {
      if calls[0] == NextCall && remaining != [] {
        ReturnedInOrder(calls[1..], remaining[1..]);
        assert remaining == [remaining[0]] + remaining[1..];
      } else {
        ReturnedInOrder(calls[1..], remaining);
      }
    }
  }

  class ObjectWritableIterator<K, V> {
    /** The `key`/`value` writables: the last pair read, if any. */
    var buffer: Option<KeyValue<K, V>>
    /** Whether `buffer` holds a pair `hasNext` read and `next` has not returned yet. */
    var available: bool
    var readers: seq<Reader<K, V>>

    ghost predicate Valid()
      reads this
    {
      available ==> buffer.Some?
    }

    /** What the iterator will still return, in order. */
    ghost function Remaining(): seq<KeyValue<K, V>>
      reads this
      requires Valid()
    {
      (if available then [buffer.value] else []) + Pending(readers)
    }

    constructor (readers: seq<Reader<K, V>>)
      ensures Valid() && !available && this.readers == readers
      ensures Remaining() == Pending(readers)
    {
      buffer := None;
      available := false;
      this.readers := readers;
    }

    /**
     * The read-ahead loop of `hasNext` and `next`: drops exhausted readers
     * from the front of the queue until one yields a pair into the buffer.
     * True when a pair was read, false when the queue ran out.
     */
    method ReadAhead() returns (r: Result<bool, IteratorError>)
      modifies this`buffer, this`readers
      ensures Pending(old(readers)) != [] ==>
                && r == Success(true) && buffer == Some(Pending(old(readers))[0])
                && Pending(readers) == Pending(old(readers))[1..]
      ensures Pending(old(readers)) == [] ==>
                && r == (if Fails(old(readers)) then Failure(IllegalState) else Success(false))
                && Pending(readers) == []
      ensures Fails(readers) == Fails(old(readers))
      ensures DropsExhausted(old(readers), readers)
    {
      ghost var queue := readers;
      ghost var popped := 0;
      while readers != []
        invariant Pending(readers) == Pending(queue) && Fails(readers) == Fails(queue)
        invariant 0 <= popped <= |queue| && readers == queue[popped..]
        invariant forall j :: 0 <= j < popped ==> queue[j].pairs == [] && !queue[j].fails
        decreases |readers|
      {
        ReadStep(readers);
        var read := ReadNext(readers[0]);
        if read.Got? {
          buffer := Some(read.pair);
          readers := [read.rest] + readers[1..];
          DropsExhaustedFrom(queue, popped, readers);
          return Success(true);
        } else if read.IOFailure? {
          DropsExhaustedFrom(queue, popped, readers);
          return Failure(IllegalState);
        } else {
          readers := readers[1..];
          popped := popped + 1;
        }
      }
      DropsExhaustedFrom(queue, popped, readers);
      return Success(false);
    }

    /**
     * `hasNext`: true at once when a pair is buffered; otherwise reads ahead
     * one pair. Nothing that will be returned is lost, so calling it again
     * gives the same answer.
     */
    method HasNext() returns (r: Result<bool, IteratorError>)
      requires Valid()
      modifies this
      ensures Valid()
      ensures Remaining() == old(Remaining()) && Fails(readers) == old(Fails(readers))
      ensures old(Remaining()) != [] ==> r == Success(true) && available
      ensures old(Remaining()) == [] ==> r == (if old(Fails(readers)) then Failure(IllegalState) else Success(false))
      ensures old(available) ==> readers == old(readers) && buffer == old(buffer) && available
      ensures DropsExhausted(old(readers), readers)
    {
      if available {
        return Success(true);
      }
      r := ReadAhead();
      if r == Success(true) {
        available := true;
      }
    }

    /**
     * `next`: the buffered pair when there is one, otherwise the next pair
     * read from the queue; exhaustion when nothing is left.
     */
    method Next() returns (r: Result<KeyValue<K, V>, IteratorError>)
      requires Valid()
      modifies this
      ensures Valid() && !available
      ensures Fails(readers) == old(Fails(readers))
      ensures old(Remaining()) != [] ==> r == Success(old(Remaining())[0]) && Remaining() == old(Remaining())[1..]
      ensures old(Remaining()) == [] ==>
                Remaining() == [] && r == Failure(if old(Fails(readers)) then IllegalState else NoSuchElement)
    {
      if available {
        available := false;
        return Success(buffer.value);
      }
      var read := ReadAhead();
      if read == Success(true) {
        return Success(buffer.value);
      } else if read == Success(false) {
        return Failure(NoSuchElement);
      } else {
        return Failure(IllegalState);
      }
    }

    /**
     * A caller driving the iterator with any interleaving of `hasNext` and
     * `next`: it receives exactly the pairs `Returned` describes.
     */
    method Replay(calls: seq<Call>) returns (received: seq<KeyValue<K, V>>)
      requires Valid()
      modifies this
      ensures Valid()
      ensures received == Returned(calls, old(Remaining()))
    {
      received := [];
      var i := 0;
      while i < |calls|
        invariant 0 <= i <= |calls| && Valid()
        invariant received + Returned(calls[i..], Remaining()) == Returned(calls, old(Remaining()))
      {
        ghost var before := Remaining();
        if calls[i] == HasNextCall {
          var _ := HasNext();
        } else {
          var r := Next();
          if r.Success? {
            received := received + [r.value];
          }
        }
        assert calls[i..][1..] == calls[i + 1..];
        i := i + 1;
      }
    }
  }
}
