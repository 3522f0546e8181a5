/** The heap shared by all row groups, as one task uses it: every critical section first sees
    whatever the other tasks have merged since the last one. */
module SharedHeaps {
  import opened Common
  import opened KnnHeap
  import opened SearchMachine
  import opened Interleaving
  import opened LocalRuns

  class SharedHeap {
    var items: Heap
    /** What the other tasks merge before each of this task's critical sections; arbitrary, so that
        every interleaving is covered. */
    var others: seq<seq<Candidate>>

    constructor (others: seq<seq<Candidate>>)
      ensures items == multiset{SENTINEL} && this.others == others
    {
      items := multiset{SENTINEL};
      this.others := others;
    }

    /** A heap of one task's own, without the initialization element. */
    constructor Local()
      ensures items == multiset{} && others == []
    {
      items, others := multiset{}, [];
    }

    ghost predicate Valid()
      reads this
    {
      |items| > 0 && forall i, j :: 0 <= i < |others| && 0 <= j < |others[i]| ==> others[i][j].distance < FLT_MAX
    }

    /** Valid, and nobody else uses the heap if the run is to be a task's own. */
    ghost predicate ValidFor(start: Origin)
      reads this
    {
      Valid() && (start.alone ==> others == [])
    }

    method Top() returns (x: Candidate)
      requires |items| > 0
      ensures IsTop(items, x)
    {
      TopExists(items);
      x :| IsTop(items, x);
    }

    method Insert(c: Candidate)
      modifies this`items
      ensures items == old(items) + multiset{c}
    {
      items := items + multiset{c};
    }

    /** One round of the merge loop. */
    method Push(k: nat, c: Candidate) returns (ghost out: Heap)
      requires Valid()
      modifies this`items
      ensures Valid() && Absorbed(k, old(items), c, items, out)
    {
      var full := |items| >= k;
      out := multiset{};
      var top := Top();
      TopIsUnique(items, top);
      if !full || c.distance < top.distance {
        if full {
          items := items - multiset{top};
          out := multiset{top};
        }
        items := items + multiset{c};
      } else {
        out := multiset{c};
      }
    }

    /** Takes the mutex: the other tasks' merges up to here become visible. */
    method Acquire(k: nat, ghost start: Origin, ghost t: Task)
      requires ValidFor(start) && Leads(k, start, Moment(t, items))
      modifies this
      ensures ValidFor(start) && Leads(k, start, Moment(t, items))
    {
      if others != [] {
        var batch := others[0];
        assert forall j :: 0 <= j < |batch| ==> others[0][j] == batch[j];
        others := others[1..];
        var i := 0;
        while i < |batch|
          invariant i <= |batch| && ValidFor(start) && Leads(k, start, Moment(t, items))
        {
          ghost var before := items;
          ghost var out := Push(k, batch[i]);
          LeadsByForeignPush(k, start, Moment(t, before), batch[i], items, out);
          i := i + 1;
        }
      }
    }

    /** The guarded threshold read. */
    method GetPruningThreshold(k: nat, ctx: Context, dim: nat, ghost start: Origin, ghost t: Task)
        returns (threshold: real, ghost top: real)
      requires ValidFor(start) && dim <= ctx.D && Leads(k, start, Moment(t, items))
      modifies this
      ensures ValidFor(start) && Leads(k, start, Moment(t, items))
      ensures top == TopDistance(items) && threshold == Threshold(ctx, top, dim)
      ensures IsScaledTop(ctx, dim, top, threshold)
    {
      Acquire(k, start, t);
      var x := Top();
      TopIsUnique(items, x);
      top := x.distance;
      threshold := Threshold(ctx, x.distance, dim);
    }

    /** Pops a farthest candidate. */
    method Pop() returns (x: Candidate)
      requires |items| > 0
      modifies this`items
      ensures IsTop(old(items), x) && items == old(items) - multiset{x}
    {
      x := Top();
      items := items - multiset{x};
    }

    /** Pops the initialization element if it is on top. */
    method DropInitializationElement()
      modifies this`items
      ensures WithoutTopElement(old(items), items)
    {
      if |items| > 0 {
        var x := Top();
        TopIsUnique(items, x);
        if x.distance == FLT_MAX {
          x := Pop();
        }
      }
    }

    /** Pops the `size` farthest candidates; returns them, nearest first. */
    method PopFarthest(size: nat) returns (result: seq<Candidate>)
      requires size <= |items|
      modifies this`items
      ensures |result| == size && Drained(old(items), items, result)
    {
      result := [];
      ghost var all := items;
      var i := size;
      while i > 0
        invariant i <= |items| && |result| == size - i <= size
        invariant Drained(all, items, result)
      {
        ghost var before := items;
        var x := Pop();
        DrainedOneMore(all, before, result, x);
        result := [x] + result;
        i := i - 1;
      }
    }

    /** Drops the initialization element if it is on top, then pops the (at most `k`) farthest
        candidates and returns them, nearest first. */
    method BuildResultSet(k: nat) returns (result: seq<Candidate>, ghost proper: Heap)
      modifies this`items
      ensures WithoutTopElement(old(items), proper)
      ensures |result| == Min(|proper|, k) && Drained(proper, items, result)
    {
      DropInitializationElement();
      proper := items;
      result := PopFarthest(Min(|items|, k));
    }
  }

  /** The top times the ratio tabulated for the dimensions visited, or 1 after all of them, scaled to the
      row group's own units; for U8 a product at a time and cut down to a `uint32_t`. */
  predicate IsScaledTop(ctx: Context, dim: nat, top: real, threshold: real)
    requires dim <= ctx.D
  {
    var ratio := if dim == ctx.D then 1.0 else ctx.ratios[dim];
    threshold == if ctx.quant.F32? then Scaled(top, ratio, ctx.scaleSquared)
                 else ToUint32(ScaledInFloats(top, ratio, ctx.scaleSquared))
  }

  /** `h'` is `h` without one element at distance FLT_MAX, if there is one on top. */
  ghost predicate WithoutTopElement(h: Heap, h': Heap) {
    if |h| > 0 && TopDistance(h) == FLT_MAX then exists x :: IsTop(h, x) && h' == h - multiset{x} else h' == h
  }

  ghost predicate SortedByDistance(s: seq<Candidate>) {
    forall i, j :: 0 <= i < j < |s| ==> s[i].distance <= s[j].distance
  }

  /** `result` are the farthest elements of `all` in order, `left` is the rest. */
  ghost predicate Drained(all: Heap, left: Heap, result: seq<Candidate>) {
    && left + multiset(result) == all && SortedByDistance(result)
    && forall x, y :: x in left && y in result ==> x.distance <= y.distance
  }

  lemma DrainedOneMore(all: Heap, left: Heap, result: seq<Candidate>, x: Candidate)
    requires Drained(all, left, result) && IsTop(left, x)
    ensures Drained(all, left - multiset{x}, [x] + result)
  {
    assert multiset([x] + result) == multiset{x} + multiset(result);
    assert left == (left - multiset{x}) + multiset{x};
  }

  /** For a heap as the searches leave it, the result are the kept candidates. */
  lemma ResultIsKept(k: nat, h: Heap, lost: Heap, proper: Heap)
    requires Accounted(k, h, lost) && WithoutTopElement(h, proper)
    ensures proper == Kept(h)
  {
    var r := TopDistance(h);
    var x :| IsTop(h, x) && x.distance == r;
    if SENTINEL in h {
      assert r == FLT_MAX;
    } else {
      assert r < FLT_MAX;
    }
  }
}
