/**
 * The aggregate side-effect step: it drains its upstream completely, adding
 * one (possibly transformed) value per bulk unit to a shared aggregate
 * collection and queueing one sibling traverser per bulk unit, and only then
 * replays the queued siblings downstream, one per pull.
 */
module AggregateSteps {
  import opened Wrappers

  /** A traverser at this step; a sibling (`makeSibling`) is a copy carrying the same value. */
  datatype Traverser<T> = Traverser(value: T)

  /** What one pull of the step yields: the next traverser, or the exhaustion signal. */
  datatype Pull<T> = Emit(traverser: Traverser<T>) | Exhausted

  /** How often the counting loop `for (int i = 0; i < bulkCount; i++)` runs. */
  function Reps(bulkCount: int): (n: nat)
    ensures bulkCount <= 0 ==> n == 0
    ensures bulkCount > 0 ==> n == bulkCount
  {
    if bulkCount < 0 then 0 else bulkCount
  }

  /** The value added to the aggregate for a traverser holding `x`. */
  function Apply<T>(preAggregate: Option<T -> T>, x: T): T
  {
    match preAggregate
    case None => x
    case Some(f) => f(x)
  }

  function Repeat<X>(x: X, n: nat): (r: seq<X>)
    ensures |r| == n && forall i :: 0 <= i < n ==> r[i] == x
  {
    seq(n, _ => x)
  }

  /** The values the drain adds to the aggregate for upstream `ts`: `n` per traverser, in upstream order. */
  function Aggregated<T>(ts: seq<Traverser<T>>, n: nat, preAggregate: Option<T -> T>): seq<T>
    decreases |ts|
  {
    if ts == [] then []
    else Aggregated(ts[..|ts| - 1], n, preAggregate) + Repeat(Apply(preAggregate, ts[|ts| - 1].value), n)
  }

  /** The siblings the drain queues for upstream `ts`: `n` copies of each traverser, in upstream order. */
  function Siblings<T>(ts: seq<Traverser<T>>, n: nat): seq<Traverser<T>>
    decreases |ts|
  {
    if ts == [] then []
    else Siblings(ts[..|ts| - 1], n) + Repeat(ts[|ts| - 1], n)
  }

  /** Draining one more upstream traverser appends its `n` values and its `n` siblings. */
  lemma DrainStep<T>(done: seq<Traverser<T>>, t: Traverser<T>, n: nat, preAggregate: Option<T -> T>)
    ensures Aggregated(done + [t], n, preAggregate) == Aggregated(done, n, preAggregate) + Repeat(Apply(preAggregate, t.value), n)
    ensures Siblings(done + [t], n) == Siblings(done, n) + Repeat(t, n)
  {
    assert (done + [t])[..|done|] == done;
  }

  /** The drain queues exactly `n` siblings per upstream traverser. */
  lemma {:induction false} SiblingsLength<T>(ts: seq<Traverser<T>>, n: nat)
    ensures |Siblings(ts, n)| == n * |ts|
    decreases |ts|
  {
    if ts != [] {
      SiblingsLength(ts[..|ts| - 1], n);
      assert n * |ts| == n * (|ts| - 1) + n;
    }
  }

  /**
   * Position `j * n + k` of the queued siblings is a copy of upstream
   * traverser `j`: the upstream values in upstream order, each repeated `n`
   * times.
   */
  lemma {:induction false} SiblingAt<T>(ts: seq<Traverser<T>>, n: nat, j: nat, k: nat)
    requires j < |ts| && k < n
    ensures j * n + k < |Siblings(ts, n)|
    ensures Siblings(ts, n)[j * n + k] == ts[j]
    decreases |ts|
  {
    var m := |ts| - 1;
    var prefix := ts[..m];
    SiblingsLength(prefix, n);
    assert Siblings(ts, n) == Siblings(prefix, n) + Repeat(ts[m], n);
    if j < m {
      SiblingAt(prefix, n, j, k);
      assert prefix[j] == ts[j];
    } else {
      assert j * n == n * m;
    }
  }

  /**
   * The aggregate receives one value per queued sibling: value `i` is the
   * (pre-aggregated) value of sibling `i`. So the aggregate grows by exactly
   * as many entries as the step will emit.
   */
  lemma {:induction false} AggregatedMatchesSiblings<T>(ts: seq<Traverser<T>>, n: nat, preAggregate: Option<T -> T>)
    ensures |Aggregated(ts, n, preAggregate)| == |Siblings(ts, n)| == n * |ts|
    ensures forall i :: 0 <= i < |Siblings(ts, n)| ==>
              Aggregated(ts, n, preAggregate)[i] == Apply(preAggregate, Siblings(ts, n)[i].value)
    decreases |ts|
  {
    SiblingsLength(ts, n);
    if ts != [] {
      AggregatedMatchesSiblings(ts[..|ts| - 1], n, preAggregate);
    }
  }

  /** Three upstream traversers of bulk 1 give an aggregate of three values and three re-emitted traversers, unchanged. */
  lemma ThreeTraverserScenario<T>(a: T, b: T, c: T)
    ensures Aggregated([Traverser(a), Traverser(b), Traverser(c)], 1, None) == [a, b, c]
    ensures Siblings([Traverser(a), Traverser(b), Traverser(c)], 1) == [Traverser(a), Traverser(b), Traverser(c)]
  {
    var ts := [Traverser(a), Traverser(b), Traverser(c)];
    assert ts[..2] == [Traverser(a), Traverser(b)];
    assert ts[..2][..1] == [Traverser(a)];
    assert ts[..2][..1][..0] == [];
    assert Aggregated([Traverser(a)], 1, None) == [a];
    assert Aggregated(ts[..2], 1, None) == [a, b];
    assert Siblings([Traverser(a)], 1) == [Traverser(a)];
    assert Siblings(ts[..2], 1) == [Traverser(a), Traverser(b)];
  }

  /** A growable list shared by reference. */
  class Collection<T> {
    var items: seq<T>

    constructor ()
      ensures items == []
    {
      items := [];
    }

    method Add(x: T)
      modifies this
      ensures items == old(items) + [x]
    {
      items := items + [x];
    }
  }

  /** The traversal's side-effect memory: variable name -> aggregate collection. */
  class Memory<T> {
    var variables: map<string, Collection<T>>

    constructor (variables: map<string, Collection<T>>)
      ensures this.variables == variables
    {
      this.variables := variables;
    }

    /** `getOrCreate`: the collection stored under `name`, or a new empty one stored there. */
    method GetOrCreate(name: string) returns (c: Collection<T>)
      modifies this
      ensures name in old(variables) ==> c == old(variables)[name] && variables == old(variables)
      ensures name !in old(variables) ==> fresh(c) && c.items == [] && variables == old(variables)[name := c]
    {
      if name in variables {
        c := variables[name];
      } else {
        c := new Collection();
        variables := variables[name := c];
      }
    }
  }

  /** A vertex's hidden properties, keyed by the variable they are hidden under. */
  class Vertex<T> {
    var hidden: map<string, Collection<T>>

    constructor (hidden: map<string, Collection<T>>)
      ensures this.hidden == hidden
    {
      this.hidden := hidden;
    }
  }

  class AggregateStep<T> {
    const variable: string
    const preAggregate: Option<T -> T>
    /** The collection values are added to; shared with the memory or the vertex that holds it. */
    var aggregate: Collection<T>
    /** `aggregateTraversers`: siblings waiting to be emitted, oldest first. */
    var queued: seq<Traverser<T>>
    var bulkCount: int
    /** The upstream traversers not yet pulled. */
    var starts: seq<Traverser<T>>

    /** Binds `aggregate` to the memory's collection under `variable`, creating an empty one when there is none. */
    constructor (memory: Memory<T>, variable: string, preAggregate: Option<T -> T>, starts: seq<Traverser<T>>)
      modifies memory
      ensures this.variable == variable && this.preAggregate == preAggregate && this.starts == starts
      ensures queued == [] && bulkCount == 1
      ensures variable in old(memory.variables) ==>
                aggregate == old(memory.variables)[variable] && memory.variables == old(memory.variables)
      ensures variable !in old(memory.variables) ==>
                fresh(aggregate) && aggregate.items == [] && memory.variables == old(memory.variables)[variable := aggregate]
    {
      var collection := memory.GetOrCreate(variable);
      this.variable := variable;
      this.preAggregate := preAggregate;
      this.starts := starts;
      queued := [];
      bulkCount := 1;
      aggregate := collection;
    }

    method SetCurrentBulkCount(bulkCount: int)
      modifies this`bulkCount
      ensures this.bulkCount == bulkCount
    {
      this.bulkCount := bulkCount;
    }

    /**
     * Redirects `aggregate` to the vertex's hidden collection under
     * `variable`, storing a new empty collection there when it has none.
     */
    method SetCurrentVertex(vertex: Vertex<T>)
      modifies this`aggregate, vertex
      ensures variable in old(vertex.hidden) ==>
                aggregate == old(vertex.hidden)[variable] && vertex.hidden == old(vertex.hidden)
      ensures variable !in old(vertex.hidden) ==>
                fresh(aggregate) && aggregate.items == [] && vertex.hidden == old(vertex.hidden)[variable := aggregate]
    {
      if variable in vertex.hidden {
        aggregate := vertex.hidden[variable];
      } else {
        aggregate := new Collection();
        vertex.hidden := vertex.hidden[variable := aggregate];
      }
    }

    /**
     * The counting loop for one upstream traverser: `bulkCount` (pre-aggregated)
     * values into the aggregate and as many siblings into the queue.
     */
    method AddBulk(traverser: Traverser<T>)
      modifies this`queued, aggregate
      ensures aggregate.items == old(aggregate.items) + Repeat(Apply(preAggregate, traverser.value), Reps(bulkCount))
      ensures queued == old(queued) + Repeat(traverser, Reps(bulkCount))
    {
      var i := 0;
      while i < bulkCount
        invariant 0 <= i <= Reps(bulkCount)
        invariant aggregate.items == old(aggregate.items) + Repeat(Apply(preAggregate, traverser.value), i)
        invariant queued == old(queued) + Repeat(traverser, i)
      {
        aggregate.Add(Apply(preAggregate, traverser.value));
        queued := queued + [traverser];
        i := i + 1;
      }
    }

    /**
     * `starts.forEachRemaining(...)`: pulls every upstream traverser in
     * order, running the counting loop for each.
     */
    method Drain()
      modifies this`starts, this`queued, aggregate
      ensures starts == []
      ensures aggregate.items == old(aggregate.items) + Aggregated(old(starts), Reps(bulkCount), preAggregate)
      ensures queued == old(queued) + Siblings(old(starts), Reps(bulkCount))
    {
      ghost var upstream := starts;
      ghost var n := Reps(bulkCount);
      ghost var pulled := 0;
      while starts != []
        invariant 0 <= pulled <= |upstream| && starts == upstream[pulled..]
        invariant aggregate.items == old(aggregate.items) + Aggregated(upstream[..pulled], n, preAggregate)
        invariant queued == old(queued) + Siblings(upstream[..pulled], n)
        decreases |starts|
      {
        var traverser := starts[0];
        starts := starts[1..];
        AddBulk(traverser);
        assert upstream[..pulled + 1] == upstream[..pulled] + [traverser];
        DrainStep(upstream[..pulled], traverser, n, preAggregate);
        pulled := pulled + 1;
      }
      assert upstream[..pulled] == upstream;
    }

    /**
     * One pull: drain all of upstream into the aggregate and the queue, then
     * emit the oldest queued sibling, or signal exhaustion when none is left.
     */
    method ProcessNextStart() returns (r: Pull<T>)
      modifies this`starts, this`queued, aggregate
      ensures starts == []
      ensures aggregate.items == old(aggregate.items) + Aggregated(old(starts), Reps(bulkCount), preAggregate)
      ensures var pending := old(queued) + Siblings(old(starts), Reps(bulkCount));
              if pending == [] then r == Exhausted && queued == []
              else r == Emit(pending[0]) && queued == pending[1..]
    {
      ghost var drained := Aggregated(old(starts), Reps(bulkCount), preAggregate);
      ghost var pending := old(queued) + Siblings(old(starts), Reps(bulkCount));
      assert old(starts) == [] ==> drained == [] && pending == old(queued);
      while true
        invariant || (starts == old(starts) != [] && queued == old(queued) && aggregate.items == old(aggregate.items))
                  || (starts == [] && queued == pending && aggregate.items == old(aggregate.items) + drained)
        decreases |starts|
      {
        if starts != [] {
          Drain();
        } else if queued != [] {
          r := Emit(queued[0]);
          queued := queued[1..];
          return;
        } else {
          return Exhausted;
        }
      }
    }
  }
}
