/** The measurement schema of a compiler benchmark: one entry per run holds the
    problem size it was run at and seventeen timing fields; a closed enumeration
    of measure kinds names those fields, in the order the record declares them. */
module Measures {

  /// Timing values are `long` in the program; the model uses unbounded integers.
  type Measure = int

  /// Problem size that marks an entry as absent.
  const NSize: int := -1

  /// Number of timing fields in an entry, and of measure kinds.
  const KindCount: nat := 17

  /// One benchmark run: its problem size and its seventeen timings.
  datatype Entry = Entry(
    size: int,
    executeCompiler: Measure,
    frontend: Measure,
    source: Measure,
    instantiateFunction: Measure,
    parseClass: Measure,
    instantiateClass: Measure,
    backend: Measure,
    optModule: Measure,
    parseTemplate: Measure,
    optFunction: Measure,
    runPass: Measure,
    perModulePasses: Measure,
    performPendingInstantiations: Measure,
    runLoopPass: Measure,
    codeGenPasses: Measure,
    codeGenFunction: Measure,
    perFunctionPasses: Measure)

  /// The closed set of measure kinds, one per timing field of Entry.
  datatype MeasureKind =
    | ExecuteCompiler
    | Frontend
    | Source
    | InstantiateFunction
    | ParseClass
    | InstantiateClass
    | Backend
    | OptModule
    | ParseTemplate
    | OptFunction
    | RunPass
    | PerModulePasses
    | PerformPendingInstantiations
    | RunLoopPass
    | CodeGenPasses
    | CodeGenFunction
    | PerFunctionPasses

  /// Entry validity (the record's conversion to bool): every size but the
  /// sentinel marks a present entry, negative sizes included.
  function IsPresent(e: Entry): (present: bool)
    ensures present <==> e.size != -1
  {
    e.size != NSize
  }

  lemma SentinelIsTheOnlyAbsentSize(e: Entry)
    ensures !IsPresent(e) <==> e.size == -1
    ensures IsPresent(e.(size := -1)) == false
    ensures e.size < -1 ==> IsPresent(e)
  {
  }

  /// The enumerator's value: its position in the declaration, from 0.
  function Ordinal(k: MeasureKind): (n: nat)
    ensures n < KindCount
  {
    match k
    case ExecuteCompiler => 0
    case Frontend => 1
    case Source => 2
    case InstantiateFunction => 3
    case ParseClass => 4
    case InstantiateClass => 5
    case Backend => 6
    case OptModule => 7
    case ParseTemplate => 8
    case OptFunction => 9
    case RunPass => 10
    case PerModulePasses => 11
    case PerformPendingInstantiations => 12
    case RunLoopPass => 13
    case CodeGenPasses => 14
    case CodeGenFunction => 15
    case PerFunctionPasses => 16
  }

  /// The timing fields of an entry, in the order the record declares them.
  function Fields(e: Entry): (fs: seq<Measure>)
    ensures |fs| == KindCount
  {
    [e.executeCompiler, e.frontend, e.source, e.instantiateFunction,
     e.parseClass, e.instantiateClass, e.backend, e.optModule,
     e.parseTemplate, e.optFunction, e.runPass, e.perModulePasses,
     e.performPendingInstantiations, e.runLoopPass, e.codeGenPasses,
     e.codeGenFunction, e.perFunctionPasses]
  }

  /// Aggregate initialisation of an entry: the size, then the timings in
  /// declaration order.
  function FromFields(size: int, fs: seq<Measure>): (e: Entry)
    requires |fs| == KindCount
    ensures e.size == size && Fields(e) == fs
  {
    Entry(size, fs[0], fs[1], fs[2], fs[3], fs[4], fs[5], fs[6], fs[7], fs[8],
          fs[9], fs[10], fs[11], fs[12], fs[13], fs[14], fs[15], fs[16])
  }

  lemma FromFieldsRoundTrip(e: Entry)
    ensures FromFields(e.size, Fields(e)) == e
  {
  }

  /// Projects the field that kind `k` designates: the timing at the kind's
  /// enumerator position in the record, since the enumeration and the record
  /// declare their members in the same order. The match is exhaustive, and the
  /// model has no counterpart of the program's fall-through value -1.
  function GetMeasure(e: Entry, k: MeasureKind): (m: Measure)
    ensures m == Fields(e)[Ordinal(k)]
  {
    match k
    case ExecuteCompiler => e.executeCompiler
    case Frontend => e.frontend
    case Source => e.source
    case InstantiateFunction => e.instantiateFunction
    case ParseClass => e.parseClass
    case InstantiateClass => e.instantiateClass
    case Backend => e.backend
    case OptModule => e.optModule
    case ParseTemplate => e.parseTemplate
    case OptFunction => e.optFunction
    case RunPass => e.runPass
    case PerModulePasses => e.perModulePasses
    case PerformPendingInstantiations => e.performPendingInstantiations
    case RunLoopPass => e.runLoopPass
    case CodeGenPasses => e.codeGenPasses
    case CodeGenFunction => e.codeGenFunction
    case PerFunctionPasses => e.perFunctionPasses
  }

  /// Distinct kinds have distinct positions, so they read distinct fields.
  lemma OrdinalInjective(k1: MeasureKind, k2: MeasureKind)
    ensures Ordinal(k1) == Ordinal(k2) ==> k1 == k2
  {
  }

  /// Every field position is read by some kind.
  lemma OrdinalSurjective(n: nat)
    requires n < KindCount
    ensures exists k :: Ordinal(k) == n
  {
    var ks := MeasureKindIterable();
    assert Ordinal(ks[n]) == n;
  }

  /// The value that kind `k` reads from an entry built from `fs` is the one
  /// given at its position; no kind reads another kind's field.
  lemma {:induction false} GetMeasureOfFromFields(size: int, fs: seq<Measure>, k: MeasureKind)
    requires |fs| == KindCount
    ensures GetMeasure(FromFields(size, fs), k) == fs[Ordinal(k)]
  {
  }

  /// Two distinct kinds are told apart by some entry.
  lemma KindsReadDistinctFields(k1: MeasureKind, k2: MeasureKind)
    requires k1 != k2
    ensures exists e :: GetMeasure(e, k1) != GetMeasure(e, k2)
  {
    var fs := seq(KindCount, i => if i == Ordinal(k1) then 1 else 0);
    var e := FromFields(0, fs);
    OrdinalInjective(k1, k2);
    GetMeasureOfFromFields(0, fs, k1);
    GetMeasureOfFromFields(0, fs, k2);
    assert GetMeasure(e, k1) != GetMeasure(e, k2);
  }

  /// An entry is determined by its size and the values of all seventeen kinds.
  lemma MeasuresDetermineEntry(e1: Entry, e2: Entry)
    requires e1.size == e2.size
    requires forall k :: GetMeasure(e1, k) == GetMeasure(e2, k)
    ensures e1 == e2
  {
    forall n | 0 <= n < KindCount
      ensures Fields(e1)[n] == Fields(e2)[n]
    {
      OrdinalSurjective(n);
      var k :| Ordinal(k) == n;
      assert GetMeasure(e1, k) == GetMeasure(e2, k);
    }
    FromFieldsRoundTrip(e1);
    FromFieldsRoundTrip(e2);
  }

  /// The display label of a kind; the model has no counterpart of the
  /// program's fall-through label "Invalid", and never produces it.
  function MeasureName(k: MeasureKind): (r: string)
    ensures |r| > 0 && r != "Invalid"
  {
    match k
    case ExecuteCompiler => "Execute Compiler"
    case Frontend => "Frontend"
    case Source => "Source"
    case InstantiateFunction => "Instantiate Function"
    case ParseClass => "Parse Class"
    case InstantiateClass => "Instantiate Class"
    case Backend => "Backend"
    case OptModule => "Opt Module"
    case ParseTemplate => "Parse Template"
    case OptFunction => "Opt Function"
    case RunPass => "Run Pass"
    case PerModulePasses => "Per Module Passes"
    case PerformPendingInstantiations => "Perform Pending Instantiations"
    case RunLoopPass => "Run Loop Pass"
    case CodeGenPasses => "Code Gen Passes"
    case CodeGenFunction => "Code Gen Function"
    case PerFunctionPasses => "Per Function Passes"
  }

  /// Labels tell kinds apart: no two kinds share a display name.
  lemma MeasureNameInjective(k1: MeasureKind, k2: MeasureKind)
    ensures MeasureName(k1) == MeasureName(k2) ==> k1 == k2
  {
  }

  /// The canonical iteration order over all kinds.
  function MeasureKindIterable(): (ks: seq<MeasureKind>)
    ensures |ks| == KindCount
    ensures forall i :: 0 <= i < |ks| ==> Ordinal(ks[i]) == i
  {
    [ExecuteCompiler, Frontend, Source, InstantiateFunction, ParseClass,
     InstantiateClass, Backend, OptModule, ParseTemplate, OptFunction, RunPass,
     PerModulePasses, PerformPendingInstantiations, RunLoopPass, CodeGenPasses,
     CodeGenFunction, PerFunctionPasses]
  }

  /// The iterable lists every kind exactly once: at its enumerator position.
  lemma MeasureKindIterableListsEachKindOnce(k: MeasureKind)
    ensures MeasureKindIterable()[Ordinal(k)] == k
    ensures forall i :: 0 <= i < KindCount && MeasureKindIterable()[i] == k ==> i == Ordinal(k)
  {
    var ks := MeasureKindIterable();
    OrdinalInjective(ks[Ordinal(k)], k);
  }
}
