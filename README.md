# Benchmark data model of ctbench's grapher

This project models the core data types of the grapher: `grapher/include/grapher/core.hpp`. That file defines three things:

- The measurement schema. `entry_t` is one benchmark run: a problem `size` and seventeen `long` timings. `measure_kind_t` is the closed enumeration of the timings. `measure_kind_iterable` gives their canonical order. `get_measure` projects a timing by kind, and `get_measure_name` gives its display label.
- Entry validity. An entry converts to `true` unless its size is the sentinel `nsize = -1`.
- `benchmark_t`. This is a named series declared as `size` problem sizes by `iterations` runs. Its entries are stored flat in size-major order. It offers per-size ranges (`begin`/`end`), addressed access (`operator()`) and a grid-shape check (`is_valid`). `category_t` is a vector of series.

The files:

- `measures.dfy` (module `Measures`) holds the schema. The enumeration is a datatype with seventeen constructors, and both lookups are exhaustive `match`es. The model has no counterpart of the `-1` and `"Invalid"` fall-throughs of the C++ switches, which only values outside the seventeen enumerators reach. `Ordinal` is the enumerator's value. `Fields` lists an entry's timings in declaration order, and `FromFields` is aggregate initialisation.
- `grid.dfy` (module `Grid`) holds the flat addressing arithmetic: the range `[s*I, (s+1)*I)` of size index `s`, and the position `s*I + it`. It proves that the ranges tile the grid and that grid coordinates correspond one-to-one with flat positions.
- `benchmark.dfy` (module `Benchmark`) holds the class `BenchmarkSeries`:
  - `name`, `size` and `iterations` are `const`, since nothing changes them after construction.
  - `entries` is a `seq<Entry>` field, which the write through the non-const `operator()` (`SetAt`) reassigns.
  - `IsValid` is the nested loop of `is_valid`, proved against `IsValidIntended`.
  - The module also holds the as-written models and the lemmas behind the findings below.
  - `Category` is a type synonym for `seq<BenchmarkSeries>`.

## Model

| member | source | states |
|---|---|---|
| Measures.IsPresent | grapher/include/grapher/core.hpp:44 | An entry converts to true exactly when its size is not -1. |
| Measures.SentinelIsTheOnlyAbsentSize | grapher/include/grapher/core.hpp:20-45 | An entry converts to false exactly when its size is -1. Every other size is present, including other negative sizes. |
| Measures.Fields | grapher/include/grapher/core.hpp:25-41 | An entry has exactly seventeen timing fields. |
| Measures.FromFields | grapher/include/grapher/core.hpp:20-41 | Aggregate initialisation stores the given size and the seventeen timings in declaration order. |
| Measures.FromFieldsRoundTrip | grapher/include/grapher/core.hpp:20-41 | Rebuilding an entry from its size and its timings gives back the same entry. |
| Measures.Ordinal | grapher/include/grapher/core.hpp:48-66 | Every enumerator's value is below 17. |
| Measures.OrdinalInjective | grapher/include/grapher/core.hpp:48-66 | Distinct kinds have distinct enumerator values. |
| Measures.OrdinalSurjective | grapher/include/grapher/core.hpp:48-66 | Every value 0..16 belongs to some kind. |
| Measures.GetMeasure | grapher/include/grapher/core.hpp:90-128 | `get_measure(e, k)` is the timing at position `Ordinal(k)` of the record. The enumeration and the record list their members in the same order. |
| Measures.GetMeasureOfFromFields | grapher/include/grapher/core.hpp:90-128 | On an entry built from timings `fs`, kind `k` reads `fs[Ordinal(k)]`. |
| Measures.KindsReadDistinctFields | grapher/include/grapher/core.hpp:90-128 | For two distinct kinds, some entry gives them different values. No kind reads another kind's field. |
| Measures.MeasuresDetermineEntry | grapher/include/grapher/core.hpp:90-128 | Two entries with the same size and the same value for every kind are equal. Every field is reached by some kind. |
| Measures.MeasureName | grapher/include/grapher/core.hpp:131-169 | Every kind has a non-empty label, and the label is never "Invalid". |
| Measures.MeasureNameInjective | grapher/include/grapher/core.hpp:131-169 | No two kinds share a label. |
| Measures.MeasureKindIterable | grapher/include/grapher/core.hpp:69-87 | The iterable has 17 kinds, and the kind at index `i` has enumerator value `i` (declaration order). |
| Measures.MeasureKindIterableListsEachKindOnce | grapher/include/grapher/core.hpp:69-87 | Every kind occurs in the iterable, at its enumerator position and nowhere else. |
| Grid.RangeLength | grapher/include/grapher/core.hpp:195-212 | The range of each size index holds exactly `iterations` positions. |
| Grid.RangeWithinGrid | grapher/include/grapher/core.hpp:195-212 | The range of a size index below `size` ends within `size * iterations`. |
| Grid.RangesDisjoint | grapher/include/grapher/core.hpp:195-212 | The range of a lower size index ends no later than the range of a higher one starts. |
| Grid.RangesCover | grapher/include/grapher/core.hpp:195-212 | Every position below `size * iterations` lies in the range of exactly one size index, `p / iterations`. |
| Grid.FlatIndexInRange | grapher/include/grapher/core.hpp:214-221 | For in-grid coordinates, position `s*I + it` lies in the range of `s` and below `size * iterations`. |
| Grid.FlatIndexInjective | grapher/include/grapher/core.hpp:214-221 | Distinct in-grid coordinates address distinct positions. |
| Grid.FlatIndexSurjective | grapher/include/grapher/core.hpp:214-221 | Every position of the grid is addressed by the coordinates `(p / I, p % I)`, which lie in the grid. |
| Benchmark.Buckets | grapher/include/grapher/core.hpp:195-212 | A grid of the declared length splits into `size` ranges of `iterations` runs each. |
| Benchmark.BucketsTileEntries | grapher/include/grapher/core.hpp:195-212 | The per-size ranges, concatenated in size order, give back the entries exactly. |
| Benchmark.BenchmarkSeries.constructor | grapher/include/grapher/core.hpp:180-183 | The 3-argument constructor has no entries, and `Name()`, `Size()` and `Iterations()` return its arguments. |
| Benchmark.BenchmarkSeries.WithEntries | grapher/include/grapher/core.hpp:185-188 | The 4-argument constructor keeps the given entries, and the accessors return its arguments. |
| Benchmark.BenchmarkSeries.Name | grapher/include/grapher/core.hpp:190 | Returns the stored name, a constant that no operation changes. |
| Benchmark.BenchmarkSeries.Size | grapher/include/grapher/core.hpp:191 | Returns the declared number of sizes, a constant that no operation changes. |
| Benchmark.BenchmarkSeries.Iterations | grapher/include/grapher/core.hpp:192 | Returns the declared number of iterations, a constant that no operation changes. |
| Benchmark.BenchmarkSeries.Begin | grapher/include/grapher/core.hpp:195-197 | The begin position of size index `i` is `i * iterations`, and a whole range fits after it. |
| Benchmark.BenchmarkSeries.End | grapher/include/grapher/core.hpp:200-202 | The end position of size index `i` is `(i + 1) * iterations`, within the entries. |
| Benchmark.BenchmarkSeries.At | grapher/include/grapher/core.hpp:218-221 | `At(s, it)` is run `it` of the range of size index `s`. On a grid of the declared length, it is element `it` of bucket `s`. |
| Benchmark.BenchmarkSeries.SetAt | grapher/include/grapher/core.hpp:214-216 | A write through `operator()` replaces only position `s*I + it`. The range of every other size index, the name and the shape are unchanged. |
| Benchmark.BenchmarkSeries.IsValid | grapher/include/grapher/core.hpp:223-239 | Returns true exactly when there are `size * iterations` entries and every size index's range shares one problem size. Changes nothing. |
| Benchmark.IsValidAsWritten | grapher/include/grapher/core.hpp:223-239 | The check as written. It returns false whenever the length equals `size * iterations`. It returns true exactly when the length differs and every size index's range is readable and uniform. Undefined behaviour means the length differs and the first size index that fails is not readable: its end passes the entries, or its begin (dereferenced even when the range is empty) is not an entry. Otherwise, with the length differing, false means the first failing size index is readable but not uniform. |
| Benchmark.CheckBucketsAsWritten | grapher/include/grapher/core.hpp:230-238 | The scan from a given size index returns true exactly when every later size index is readable and uniform. It stops at the first that is not: undefined behaviour if that one is not readable, false if it is readable but not uniform. |
| Benchmark.AsWrittenRejectsWellFormedGrid | grapher/include/grapher/core.hpp:223-239 | The check as written returns false on every grid that satisfies the intended invariant. |
| Benchmark.AsWrittenAcceptsOversizedGrid | grapher/include/grapher/core.hpp:223-239 | The check as written returns true on a grid with too many entries whose leading `size * iterations` entries are uniform per size index. |
| Benchmark.ExampleGridDivergence | grapher/include/grapher/core.hpp:223-239 | On the 2 x 3 grid with sizes 10,10,10,20,20,20, the intended invariant holds but the check as written returns false. |
| Benchmark.ExampleGridViolations | grapher/include/grapher/core.hpp:223-239 | That grid with run 1 set to size 99 breaks the invariant. So does the same grid cut to five entries. |
| Benchmark.AtAsWritten | grapher/include/grapher/core.hpp:214-221 | Unchecked addressing accepts any pair of indices. It is undefined behaviour exactly when `s*I + it` is past the entries, and otherwise it is the entry at that position. |
| Benchmark.AsWrittenAddressingLeavesTheRange | grapher/include/grapher/core.hpp:214-221 | Without bounds checks, `(0, 3)` on a 2 x 3 grid reads the first run of size index 1, and `(2, 0)` reads past the entries. |

## Findings

| source | as written | input that shows it | evidently intended | confidence | as-written member | corrected member |
|---|---|---|---|---|---|---|
| grapher/include/grapher/core.hpp:225 | `is_valid` returns false when the entry count EQUALS `iterations * size`, and otherwise scans the ranges. | size 2, iterations 3, six entries of sizes 10,10,10,20,20,20: returns false. Seven entries whose first six are those: returns true. | Return false when the count DIFFERS from `size * iterations` (the "Checking dimensions" comment at line 224). | high; not executed | Benchmark.IsValidAsWritten (with Benchmark.ExampleGridDivergence, Benchmark.AsWrittenRejectsWellFormedGrid, Benchmark.AsWrittenAcceptsOversizedGrid) | Benchmark.BenchmarkSeries.IsValid (proved equal to Benchmark.IsValidIntended) |
| grapher/include/grapher/core.hpp:195-221 | `begin`, `end` and `operator()` do not check their indices. | size 2, iterations 3, six entries: `(0, 3)` reads position 3, the first run of size index 1. `(2, 0)` reads past the end. | Addressing confined to the declared grid, where coordinates and positions correspond one-to-one. | medium; not executed | Benchmark.AtAsWritten (with Benchmark.AsWrittenAddressingLeavesTheRange) | Benchmark.BenchmarkSeries.At and Benchmark.BenchmarkSeries.SetAt (grid-coordinate preconditions; Grid.FlatIndexInjective, Grid.FlatIndexInRange) |

## Left out

- Plotting, SVG output, directory creation and console output (`grapher/src/display.cpp`) are not modelled. They go through an external plotting library and the file system.
- Command-line handling (`grapher/src/benchmark-grapher.cpp`) is not modelled. It depends on parsing headers that are not part of this model.
- Integer widths are not modelled: timings are unbounded `int` rather than `long`, and sizes and positions are `nat` rather than `std::size_t`. Overflow of `size_i * iterations` is not modelled.
- Undefined behaviour in the corrected model becomes preconditions. `Begin` and `End` require the size index to be below `size` and its range to end within the entries. `At` and `SetAt` require in-grid coordinates whose position lies within the entries. The as-written models (`IsValidAsWritten`, `AtAsWritten`) return `UndefinedBehaviour` instead.
- Benchmark.BenchmarkSeries.IsValid: the corrected check does not read the first run of a range when the range is empty. The program dereferences `begin(size_id)` even when `iterations` is 0. `CheckBucketsAsWritten` keeps that dereference.
- Iterators are modelled as flat positions, and the range they delimit is `Buckets`. The const and non-const overloads of `begin`, `end` and `operator()` are one method each. The mutable reference from the non-const `operator()` is modelled as the write `SetAt`.
- Values of `measure_kind_t` outside the seventeen enumerators are not modelled. The unscoped enumeration can hold them through a cast, and they make `get_measure` return -1 and `get_measure_name` return "Invalid". The datatype has only the seventeen kinds.
- `category_t` has no operations of its own. It is the type synonym `Category`.
