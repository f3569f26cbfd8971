/** The output pane of Terminal.js: what `renderOutput` shows for the current
    execution state and result. */
module Terminal {

  import opened Outcomes
  import opened Workspace

  datatype SectionKind = OutputSection | ErrorSection | SystemErrorSection | CompilationSection

  /** A titled block (`[Output]`, `[Error]`, `[System Error]`, `[Compilation]`) and its text. */
  datatype Section = Section(kind: SectionKind, text: string)

  /** The lines under the rule: the time in ms, the memory in bytes (shown
      in KB), and the local and mock notes. */
  /** A metric line. `StrayZero` is the bare `0` that `memoryUsed && (...)`
      renders in place of the memory line when the server reports 0 bytes. */
  datatype Metric = ExecutionTime(ms: int) | MemoryUsed(bytes: int) | StrayZero | LocalNote | MockNote

  datatype View =
    | ExecutingView
    | ReadyView
    | ResultView(mark: char, status: string, sections: seq<Section>, metrics: seq<Metric>)

  /** The place of a section in the pane. */
  function SectionRank(k: SectionKind): nat
  {
    match k
    case OutputSection => 0
    case ErrorSection => 1
    case SystemErrorSection => 2
    case CompilationSection => 3
  }

  function MetricRank(m: Metric): nat
  {
    match m
    case ExecutionTime(_) => 0
    case MemoryUsed(_) => 1
    case StrayZero => 1
    case LocalNote => 2
    case MockNote => 3
  }

  /** The field of the output a section shows; a missing output has none. */
  function Field(output: Option<RunOutput>, k: SectionKind): string
  {
    if output.None? then ""
    else
      match k
      case OutputSection => output.value.stdout
      case ErrorSection => output.value.stderr
      case SystemErrorSection => output.value.error
      case CompilationSection => output.value.compileOutput
  }

  predicate HasSection(sections: seq<Section>, k: SectionKind)
  {
    exists i :: 0 <= i < |sections| && sections[i].kind == k
  }

  function SectionIf(output: Option<RunOutput>, k: SectionKind): seq<Section>
  {
    if Field(output, k) != "" then [Section(k, Field(output, k))] else []
  }

  /** The order of the sections in the pane. */
  const SectionOrder := [OutputSection, ErrorSection, SystemErrorSection, CompilationSection]

  predicate RanksIncrease(kinds: seq<SectionKind>)
  {
    forall i, j :: 0 <= i < j < |kinds| ==> SectionRank(kinds[i]) < SectionRank(kinds[j])
  }

  /** The sections of `kinds`, in that order, keeping those with a non-empty field. */
  function Pick(output: Option<RunOutput>, kinds: seq<SectionKind>): (r: seq<Section>)
    ensures forall i :: 0 <= i < |r| ==> r[i].kind in kinds && r[i].text == Field(output, r[i].kind) && r[i].text != ""
  {
    if |kinds| == 0 then []
    else if Field(output, kinds[0]) != "" then [Section(kinds[0], Field(output, kinds[0]))] + Pick(output, kinds[1..])
    else Pick(output, kinds[1..])
  }

  /** Every kind listed with a non-empty field gets its section. */
  lemma {:induction false} PickComplete(output: Option<RunOutput>, kinds: seq<SectionKind>, k: SectionKind)
    requires k in kinds && Field(output, k) != ""
    ensures HasSection(Pick(output, kinds), k)
  {
    var r := Pick(output, kinds);
    var rest := Pick(output, kinds[1..]);
    if k == kinds[0] {
      assert HasSection(r, k) by {
        assert r == [Section(k, Field(output, k))] + rest;
        assert r[0].kind == k;
      }
    } else {
      assert k in kinds[1..];
      PickComplete(output, kinds[1..], k);
      var i :| 0 <= i < |rest| && rest[i].kind == k;
      if Field(output, kinds[0]) != "" {
        assert HasSection(r, k) by {
          assert r == [Section(kinds[0], Field(output, kinds[0]))] + rest;
          assert r[i + 1] == rest[i];
        }
      } else {
        assert r == rest;
      }
    }
  }

  /** Picking keeps the order of the kinds. */
  lemma {:induction false} PickOrdered(output: Option<RunOutput>, kinds: seq<SectionKind>)
    requires RanksIncrease(kinds)
    ensures RanksIncrease(KindsOf(Pick(output, kinds)))
  {
    if |kinds| > 0 {
      var tail := kinds[1..];
      assert RanksIncrease(tail) by {
        forall i, j | 0 <= i < j < |tail| ensures SectionRank(tail[i]) < SectionRank(tail[j]) {
          assert tail[i] == kinds[i + 1] && tail[j] == kinds[j + 1];
        }
      }
      PickOrdered(output, tail);
      if Field(output, kinds[0]) != "" {
        var ks := KindsOf(Pick(output, tail));
        assert RanksAbove(tail, SectionRank(kinds[0])) by {
          forall i | 0 <= i < |tail| ensures SectionRank(tail[i]) > SectionRank(kinds[0]) {
            assert tail[i] == kinds[i + 1];
          }
        }
        PickRanksAbove(output, tail, SectionRank(kinds[0]));
        assert KindsOf(Pick(output, kinds)) == [kinds[0]] + ks;
        ConsIncrease(kinds[0], ks);
      }
    }
  }

  /** Every kind in the list ranks above `b`. */
  predicate RanksAbove(kinds: seq<SectionKind>, b: int)
  {
    forall i :: 0 <= i < |kinds| ==> SectionRank(kinds[i]) > b
  }

  /** Picking only drops kinds, so a lower bound on the ranks carries over. */
  lemma PickRanksAbove(output: Option<RunOutput>, kinds: seq<SectionKind>, b: int)
    requires RanksAbove(kinds, b)
    ensures RanksAbove(KindsOf(Pick(output, kinds)), b)
  {
    var r := Pick(output, kinds);
    var ks := KindsOf(r);
    forall i | 0 <= i < |ks| ensures SectionRank(ks[i]) > b {
      var m :| 0 <= m < |kinds| && kinds[m] == r[i].kind;
    }
  }

  /** A kind ranked below an increasing list can be put in front of it. */
  lemma ConsIncrease(k: SectionKind, kinds: seq<SectionKind>)
    requires RanksIncrease(kinds) && RanksAbove(kinds, SectionRank(k))
    ensures RanksIncrease([k] + kinds)
  {
    var r := [k] + kinds;
    forall i, j | 0 <= i < j < |r| ensures SectionRank(r[i]) < SectionRank(r[j]) {
      assert r[j] == kinds[j - 1];
      if i > 0 {
        assert r[i] == kinds[i - 1];
      }
    }
  }

  function KindsOf(sections: seq<Section>): (r: seq<SectionKind>)
    ensures |r| == |sections| && forall i :: 0 <= i < |r| ==> r[i] == sections[i].kind
  {
    if |sections| == 0 then [] else [sections[0].kind] + KindsOf(sections[1..])
  }

  /** The sections, in their fixed order, each present exactly when its field
      is non-empty and showing that field. */
  function Sections(output: Option<RunOutput>): (r: seq<Section>)
    ensures forall i, j :: 0 <= i < j < |r| ==> SectionRank(r[i].kind) < SectionRank(r[j].kind)
    ensures forall i :: 0 <= i < |r| ==> r[i].text == Field(output, r[i].kind) && r[i].text != ""
    ensures forall k :: HasSection(r, k) <==> Field(output, k) != ""
  {
    var r := Pick(output, SectionOrder);
    OrderKept(output, r);
    AllPresent(output, r);
    r
  }

  lemma OrderKept(output: Option<RunOutput>, r: seq<Section>)
    requires r == Pick(output, SectionOrder)
    ensures forall i, j :: 0 <= i < j < |r| ==> SectionRank(r[i].kind) < SectionRank(r[j].kind)
  {
    PickOrdered(output, SectionOrder);
    assert forall i :: 0 <= i < |r| ==> KindsOf(r)[i] == r[i].kind;
  }

  lemma AllPresent(output: Option<RunOutput>, r: seq<Section>)
    requires r == Pick(output, SectionOrder)
    ensures forall k :: Field(output, k) != "" ==> HasSection(r, k)
  {
    forall k | Field(output, k) != "" ensures HasSection(r, k) {
      InOrder(k);
      PickComplete(output, SectionOrder, k);
    }
  }

  lemma InOrder(k: SectionKind)
    ensures k in SectionOrder
  {
    assert SectionOrder[SectionRank(k)] == k;
  }

  function MetricIf(c: bool, m: Metric): seq<Metric>
  {
    if c then [m] else []
  }

  /** The memory slot: nothing when the field is missing, the bare `0` of a
      falsy number, or the memory line. */
  function MemoryMetric(memoryUsed: Option<int>): seq<Metric>
  {
    if memoryUsed.None? then []
    else if memoryUsed.value == 0 then [StrayZero]
    else [MemoryUsed(memoryUsed.value)]
  }

  /** The metric lines, in their fixed order: the time exactly when it is
      defined, the memory exactly when it is reported and non-zero, a bare
      `0` when it is reported as 0, and each note exactly when its flag is
      set. */
  function Metrics(res: ExecResult): (r: seq<Metric>)
    ensures forall i, j :: 0 <= i < j < |r| ==> MetricRank(r[i]) < MetricRank(r[j])
    ensures forall t :: ExecutionTime(t) in r <==> res.executionTime == Some(t)
    ensures forall b :: MemoryUsed(b) in r <==> res.memoryUsed == Some(b) && b != 0
    ensures StrayZero in r <==> res.memoryUsed == Some(0)
    ensures LocalNote in r <==> res.local
    ensures MockNote in r <==> res.mock
  {
    var a := if res.executionTime.Some? then [ExecutionTime(res.executionTime.value)] else [];
    var b := MemoryMetric(res.memoryUsed);
    var c := MetricIf(res.local, LocalNote);
    var d := MetricIf(res.mock, MockNote);
    MetricsOrdered(a, b, c, d);
    MetricsPresent(res, a, b, c, d);
    a + b + c + d
  }

  /** Each metric is in the concatenation exactly when its own part holds it. */
  lemma MetricsPresent(res: ExecResult, a: seq<Metric>, b: seq<Metric>, c: seq<Metric>, d: seq<Metric>)
    requires a == (if res.executionTime.Some? then [ExecutionTime(res.executionTime.value)] else [])
    requires b == MemoryMetric(res.memoryUsed)
    requires c == MetricIf(res.local, LocalNote)
    requires d == MetricIf(res.mock, MockNote)
    ensures forall t :: ExecutionTime(t) in a + b + c + d <==> res.executionTime == Some(t)
    ensures forall n :: MemoryUsed(n) in a + b + c + d <==> res.memoryUsed == Some(n) && n != 0
    ensures StrayZero in a + b + c + d <==> res.memoryUsed == Some(0)
    ensures LocalNote in a + b + c + d <==> res.local
    ensures MockNote in a + b + c + d <==> res.mock
  {
    var r := a + b + c + d;
    assert forall m :: m in r <==> m in a || m in b || m in c || m in d;
  }

  /** At most one metric of each rank, concatenated by rank, is in order. */
  lemma MetricsOrdered(a: seq<Metric>, b: seq<Metric>, c: seq<Metric>, d: seq<Metric>)
    requires |a| <= 1 && |b| <= 1 && |c| <= 1 && |d| <= 1
    requires forall i :: 0 <= i < |a| ==> MetricRank(a[i]) == 0
    requires forall i :: 0 <= i < |b| ==> MetricRank(b[i]) == 1
    requires forall i :: 0 <= i < |c| ==> MetricRank(c[i]) == 2
    requires forall i :: 0 <= i < |d| ==> MetricRank(d[i]) == 3
    ensures forall i, j :: 0 <= i < j < |a + b + c + d| ==> MetricRank((a + b + c + d)[i]) < MetricRank((a + b + c + d)[j])
  {
    var r := a + b + c + d;
    forall i | 0 <= i < |r|
      ensures MetricRank(r[i]) == (if i < |a| then 0 else if i < |a| + |b| then 1 else if i < |a| + |b| + |c| then 2 else 3)
    {
      if i < |a| { assert r[i] == a[i]; }
      else if i < |a| + |b| { assert r[i] == b[i - |a|]; }
      else if i < |a| + |b| + |c| { assert r[i] == c[i - |a| - |b|]; }
      else { assert r[i] == d[i - |a| - |b| - |c|]; }
    }
  }

  /** The status mark. */
  function Mark(status: string): (c: char)
    ensures c == '✓' <==> status == "completed"
    ensures status != "completed" ==> c == '✗'
  {
    if status == "completed" then '✓' else '✗'
  }

  /** `renderOutput`: while executing, only the banner, whatever the result;
      otherwise the ready screen without a result, and the result's status
      line, sections and metrics with one. */
  function Render(isExecuting: bool, result: Option<ExecResult>): (v: View)
    ensures isExecuting ==> v == ExecutingView
    ensures !isExecuting && result.None? ==> v == ReadyView
    ensures v.ResultView? <==> !isExecuting && result.Some?
    ensures v.ResultView? ==> v.status == result.value.status && (v.mark == '✓' <==> result.value.status == "completed")
    ensures v.ResultView? && result.value.status != "completed" ==> v.mark == '✗'
    ensures v.ResultView? ==> v.sections == Sections(result.value.output) && v.metrics == Metrics(result.value)
  {
    if isExecuting then ExecutingView
    else if result.None? then ReadyView
    else
      var res := result.value;
      ResultView(Mark(res.status), res.status, Sections(res.output), Metrics(res))
  }

  /** A failed run request shows a failed status, the failure's message as
      the only section (none when it is empty), and no metric. */
  lemma FailedRequestView(f: Failure)
    ensures var v := Render(false, Some(ErrorResult(f)));
            v.ResultView? && v.mark == '✗' && v.status == "error" && v.metrics == [] &&
            v.sections == (if Describe(f) != "" then [Section(SystemErrorSection, Describe(f))] else [])
  {
    FailedSections(f);
    assert Metrics(ErrorResult(f)) == [];
  }

  /** Of an error result's output only the system error is shown. */
  lemma FailedSections(f: Failure)
    ensures Sections(ErrorResult(f).output) == (if Describe(f) != "" then [Section(SystemErrorSection, Describe(f))] else [])
  {
    var o := ErrorResult(f).output;
    var tail3, tail2, tail1 := SectionOrder[1..], SectionOrder[2..], SectionOrder[3..];
    assert tail3 == [ErrorSection, SystemErrorSection, CompilationSection] && tail3[1..] == tail2;
    assert tail2 == [SystemErrorSection, CompilationSection] && tail2[1..] == tail1;
    assert tail1 == [CompilationSection] && tail1[1..] == [];
    assert Pick(o, tail1) == [];
    assert Pick(o, SectionOrder) == Pick(o, tail3) == Pick(o, tail2);
  }
}
