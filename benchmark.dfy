/** A benchmark series: a named grid of `size` problem sizes by `iterations`
    runs, stored flat in size-major order, with addressed access and the
    grid-shape check. */
module Benchmark {
  import opened Measures
  import opened Grid

  /// All entries of es[lo..hi) share the problem size of the first one.
  predicate UniformRange(es: seq<Entry>, lo: nat, hi: nat)
    requires lo <= hi <= |es|
  {
    forall p :: lo <= p < hi ==> es[p].size == es[lo].size
  }

  /// The grid-shape invariant the check is meant to establish: exactly
  /// sizes * iterations entries, and one problem size per size index.
  predicate IsValidIntended(es: seq<Entry>, sizes: nat, iterations: nat)
  {
    |es| == sizes * iterations &&
    forall s :: 0 <= s < sizes ==>
      RangeEnd(s, iterations) <= |es| && UniformRange(es, RangeStart(s, iterations), RangeEnd(s, iterations))
  }

  /// What the check does as written: either the value it returns, or
  /// undefined behaviour when it forms an iterator past the end of the
  /// entries or dereferences one there.
  datatype Outcome<T> = Returned(value: T) | UndefinedBehaviour

  /// The scan may visit size index `s` as written: the range end does not pass
  /// the end of the entries, and the range start (dereferenced for the
  /// compared size even when the range is empty) is an entry.
  predicate BucketReadable(es: seq<Entry>, iterations: nat, s: nat)
  {
    RangeEnd(s, iterations) <= |es| && RangeStart(s, iterations) < |es|
  }

  /// Size index `s` is readable and all its runs share one problem size.
  predicate BucketPasses(es: seq<Entry>, iterations: nat, s: nat)
  {
    BucketReadable(es, iterations, s) &&
    UniformRange(es, RangeStart(s, iterations), RangeEnd(s, iterations))
  }

  /// The check as written: it returns false when the length EQUALS
  /// sizes * iterations, and otherwise scans every size index.
  function IsValidAsWritten(es: seq<Entry>, sizes: nat, iterations: nat): (r: Outcome<bool>)
    ensures |es| == sizes * iterations ==> r == Returned(false)
    ensures r == Returned(true) <==>
      |es| != sizes * iterations && forall s :: 0 <= s < sizes ==> BucketPasses(es, iterations, s)
    ensures r == UndefinedBehaviour ==>
      |es| != sizes * iterations &&
      exists s :: 0 <= s < sizes && !BucketReadable(es, iterations, s) &&
        forall t :: 0 <= t < s ==> BucketPasses(es, iterations, t)
    ensures r == Returned(false) && |es| != sizes * iterations ==>
      exists s :: 0 <= s < sizes && BucketReadable(es, iterations, s) && !BucketPasses(es, iterations, s) &&
        forall t :: 0 <= t < s ==> BucketPasses(es, iterations, t)
  {
    if |es| == iterations * sizes then Returned(false)
    else CheckBucketsAsWritten(es, sizes, iterations, 0)
  }

  /// The scan of size indices sizeId, sizeId+1, ... < sizes as written. It
  /// stops at the first index that is not readable (undefined behaviour) or
  /// not uniform (false), and returns true when every index passes.
  function CheckBucketsAsWritten(es: seq<Entry>, sizes: nat, iterations: nat, sizeId: nat): (r: Outcome<bool>)
    ensures r == Returned(true) <==> forall s :: sizeId <= s < sizes ==> BucketPasses(es, iterations, s)
    ensures r == UndefinedBehaviour ==>
      exists s :: sizeId <= s < sizes && !BucketReadable(es, iterations, s) &&
        forall t :: sizeId <= t < s ==> BucketPasses(es, iterations, t)
    ensures r == Returned(false) ==>
      exists s :: sizeId <= s < sizes && BucketReadable(es, iterations, s) && !BucketPasses(es, iterations, s) &&
        forall t :: sizeId <= t < s ==> BucketPasses(es, iterations, t)
    decreases sizes - sizeId
  {
    if sizeId >= sizes then Returned(true)
    else if !BucketReadable(es, iterations, sizeId) then
      assert !BucketPasses(es, iterations, sizeId);
      UndefinedBehaviour
    else if !UniformRange(es, RangeStart(sizeId, iterations), RangeEnd(sizeId, iterations)) then
      assert !BucketPasses(es, iterations, sizeId);
      Returned(false)
    else CheckBucketsAsWritten(es, sizes, iterations, sizeId + 1)
  }

  /// As written, the check rejects every well-formed grid.
  lemma AsWrittenRejectsWellFormedGrid(es: seq<Entry>, sizes: nat, iterations: nat)
    requires IsValidIntended(es, sizes, iterations)
    ensures IsValidAsWritten(es, sizes, iterations) == Returned(false)
  {
  }

  /// As written, the check accepts a grid with too many entries whenever its
  /// first sizes * iterations entries are uniform per size index.
  lemma AsWrittenAcceptsOversizedGrid(es: seq<Entry>, sizes: nat, iterations: nat)
    requires |es| > sizes * iterations
    requires IsValidIntended(es[..sizes * iterations], sizes, iterations)
    ensures !IsValidIntended(es, sizes, iterations)
    ensures IsValidAsWritten(es, sizes, iterations) == Returned(true)
  {
  }


  /// An entry of the given problem size with all timings zero.
  function EntryOfSize(n: int): (e: Entry)
    ensures e.size == n && IsPresent(e) == (n != NSize)
  {
    Entry(n, 0, 0, 0, 0, 0, 0, 0, 0, 0, 0, 0, 0, 0, 0, 0, 0, 0)
  }

  /// Two sizes by three iterations: three runs at size 10, then three at 20.
  function ExampleEntries(): (es: seq<Entry>)
    ensures |es| == 6
  {
    [EntryOfSize(10), EntryOfSize(10), EntryOfSize(10),
     EntryOfSize(20), EntryOfSize(20), EntryOfSize(20)]
  }

  /// On the well-formed 2 x 3 example the two checks disagree.
  lemma ExampleGridDivergence()
    ensures IsValidIntended(ExampleEntries(), 2, 3)
    ensures IsValidAsWritten(ExampleEntries(), 2, 3) == Returned(false)
  {
  }

  /// The example with one run of size index 0 changed to size 99, and the
  /// example cut to five entries, both break the grid invariant.
  lemma ExampleGridViolations()
    ensures !IsValidIntended(ExampleEntries()[1 := EntryOfSize(99)], 2, 3)
    ensures !IsValidIntended(ExampleEntries()[..5], 2, 3)
  {
    var es := ExampleEntries()[1 := EntryOfSize(99)];
    assert es[1].size == 99 && es[0].size == 10;
    assert !UniformRange(es, RangeStart(0, 3), RangeEnd(0, 3));
  }

  /// Addressed access as written: any pair of indices is accepted, and only
  /// a flat position past the end of the entries is undefined behaviour.
  function AtAsWritten(es: seq<Entry>, iterations: nat, sizeI: nat, it: nat): (r: Outcome<Entry>)
    ensures r == UndefinedBehaviour <==> FlatIndex(sizeI, it, iterations) >= |es|
    ensures r.Returned? ==> r.value == es[FlatIndex(sizeI, it, iterations)]
  {
    var p := FlatIndex(sizeI, it, iterations);
    if p < |es| then Returned(es[p])
    else UndefinedBehaviour
  }

  /// Without bounds checks, an iteration index past the declared count
  /// silently reads another size index's run, and a size index past the
  /// declared count reads past the entries.
  lemma AsWrittenAddressingLeavesTheRange()
    ensures AtAsWritten(ExampleEntries(), 3, 0, 3) == Returned(ExampleEntries()[RangeStart(1, 3)])
    ensures ExampleEntries()[RangeStart(1, 3)].size != ExampleEntries()[RangeStart(0, 3)].size
    ensures AtAsWritten(ExampleEntries(), 3, 2, 0) == UndefinedBehaviour
  {
  }

  /// Size-major storage split back into one sequence per size index.
  function Buckets(es: seq<Entry>, sizes: nat, iterations: nat): (bs: seq<seq<Entry>>)
    requires |es| == sizes * iterations
    ensures |bs| == sizes
    ensures forall s :: 0 <= s < sizes ==> |bs[s]| == iterations
  {
    seq(sizes, s requires 0 <= s < sizes =>
      RangeWithinGrid(s, sizes, iterations);
      es[RangeStart(s, iterations)..RangeEnd(s, iterations)])
  }

  function Concat(bs: seq<seq<Entry>>): seq<Entry>
  {
    if bs == [] then [] else Concat(bs[..|bs| - 1]) + bs[|bs| - 1]
  }

  /// The per-size ranges tile the storage: laid end to end, in size order,
  /// they give back the entries exactly.
  lemma {:induction false} BucketsTileEntries(es: seq<Entry>, sizes: nat, iterations: nat)
    requires |es| == sizes * iterations
    ensures Concat(Buckets(es, sizes, iterations)) == es
  {
    if sizes > 0 {
      var n := sizes - 1;
      var prefix := es[..n * iterations];
      assert |prefix| == n * iterations;
      var bs := Buckets(es, sizes, iterations);
      assert bs[..n] == Buckets(prefix, n, iterations) by {
        forall s | 0 <= s < n
          ensures bs[s] == Buckets(prefix, n, iterations)[s]
        {
          RangeWithinGrid(s, n, iterations);
        }
      }
      BucketsTileEntries(prefix, n, iterations);
      assert bs[n] == es[n * iterations..];
      assert es == prefix + es[n * iterations..];
    }
  }

  /// A benchmark series. The name and the declared shape never change after
  /// construction; the entries can be written through addressed access.
  class BenchmarkSeries {
    const name: string
    const size: nat
    const iterations: nat
    var entries: seq<Entry>

    /// A series with its shape declared and no entries yet.
    constructor (name: string, size: nat, iterations: nat)
      ensures Name() == name && Size() == size && Iterations() == iterations
      ensures entries == []
    {
      this.name := name;
      this.size := size;
      this.iterations := iterations;
      this.entries := [];
    }

    /// A series built from entries already laid out size-major.
    constructor WithEntries(name: string, size: nat, iterations: nat, entries: seq<Entry>)
      ensures Name() == name && Size() == size && Iterations() == iterations
      ensures this.entries == entries
    {
      this.name := name;
      this.size := size;
      this.iterations := iterations;
      this.entries := entries;
    }

    /// The name given at construction; no operation changes it.
    function Name(): (r: string)
      ensures r == name
    {
      name
    }

    /// The declared number of problem sizes; no operation changes it.
    function Size(): (r: nat)
      ensures r == size
    {
      size
    }

    /// The declared number of iterations per size; no operation changes it.
    function Iterations(): (r: nat)
      ensures r == iterations
    {
      iterations
    }

    /// Position of the first run of size index sizeI.
    method Begin(sizeI: nat) returns (p: nat)
      requires sizeI < size && RangeEnd(sizeI, iterations) <= |entries|
      ensures p == RangeStart(sizeI, iterations) && p + iterations <= |entries|
    {
      p := sizeI * iterations;
    }

    /// Position just past the last run of size index sizeI.
    method End(sizeI: nat) returns (p: nat)
      requires sizeI < size && RangeEnd(sizeI, iterations) <= |entries|
      ensures p == RangeEnd(sizeI, iterations) && p <= |entries|
    {
      p := (sizeI + 1) * iterations;
    }

    /// Reads iteration `it` of size index `sizeI`.
    method At(sizeI: nat, it: nat) returns (e: Entry)
      requires sizeI < size && it < iterations
      requires FlatIndex(sizeI, it, iterations) < |entries|
      ensures e == entries[RangeStart(sizeI, iterations) + it]
      ensures |entries| == size * iterations ==> e == Buckets(entries, size, iterations)[sizeI][it]
    {
      e := entries[sizeI * iterations + it];
    }

    /// Writes iteration `it` of size index `sizeI` through the reference
    /// the non-const accessor hands out.
    method SetAt(sizeI: nat, it: nat, e: Entry)
      requires sizeI < size && it < iterations
      requires FlatIndex(sizeI, it, iterations) < |entries|
      modifies this
      ensures entries == old(entries)[FlatIndex(sizeI, it, iterations) := e]
      ensures forall s :: 0 <= s < size && s != sizeI && RangeEnd(s, iterations) <= |entries| ==>
        entries[RangeStart(s, iterations)..RangeEnd(s, iterations)] ==
        old(entries)[RangeStart(s, iterations)..RangeEnd(s, iterations)]
    {
      entries := entries[sizeI * iterations + it := e];
      forall s | 0 <= s < size && s != sizeI && RangeEnd(s, iterations) <= |entries|
        ensures entries[RangeStart(s, iterations)..RangeEnd(s, iterations)] ==
                old(entries)[RangeStart(s, iterations)..RangeEnd(s, iterations)]
      {
        if s < sizeI {
          RangesDisjoint(s, sizeI, iterations);
        } else {
          RangesDisjoint(sizeI, s, iterations);
        }
      }
    }

    /// The grid-shape check, with the length test as intended.
    method IsValid() returns (ok: bool)
      ensures ok == IsValidIntended(entries, size, iterations)
    {
      if |entries| != size * iterations {
        return false;
      }
      var sizeId := 0;
      while sizeId < size
        invariant sizeId <= size
        invariant forall s :: 0 <= s < sizeId ==>
          RangeEnd(s, iterations) <= |entries| &&
          UniformRange(entries, RangeStart(s, iterations), RangeEnd(s, iterations))
      {
        RangeWithinGrid(sizeId, size, iterations);
        var lo := Begin(sizeId);
        var hi := End(sizeId);
        var p := lo;
        while p < hi && entries[p].size == entries[lo].size
          invariant lo <= p <= hi
          invariant forall q :: lo <= q < p ==> entries[q].size == entries[lo].size
        {
          p := p + 1;
        }
        if p < hi {
          return false;
        }
        sizeId := sizeId + 1;
      }
      return true;
    }
  }

  /// Benchmark series grouped for reporting.
  type Category = seq<BenchmarkSeries>

  /// A client building the 2 x 3 example series and using its operations.
  method ExampleSeries()
  {
    var series := new BenchmarkSeries.WithEntries("example", 2, 3, ExampleEntries());
    var ok := series.IsValid();
    ExampleGridDivergence();
    assert ok;
    var last := series.At(1, 2);
    assert last == ExampleEntries()[5];
    series.SetAt(0, 1, EntryOfSize(99));
    ok := series.IsValid();
    ExampleGridViolations();
    assert !ok;

    var short := new BenchmarkSeries.WithEntries("short", 2, 3, ExampleEntries()[..5]);
    ok := short.IsValid();
    assert !ok;
  }
}
