/**
 * `LocalObjectDetector` of frigate/edgetpu.py: choosing between the Edge TPU
 * delegate and the CPU interpreter, turning the interpreter's raw output
 * tensors into the fixed 20x6 detection table (`detect_raw`), and the
 * threshold filter that labels the leading rows (`detect`). The interpreter is
 * foreign: its output tensors are inputs here.
 */
module EdgeTpuDetector {
  import opened Base

  /** One row of the (20, 6) detection table: class id, score, then the box (y1, x1, y2, x2). */
  datatype Row = Row(classId: real, score: real, y1: real, x1: real, y2: real, x2: real)

  const ZERO_ROW: Row := Row(0.0, 0.0, 0.0, 0.0, 0.0, 0.0)

  /** Rows in every detection table. */
  const MAX_ROWS: nat := 20

  /** The score below which `detect_raw` stops writing rows, whatever threshold callers use. */
  const RAW_CUTOFF: real := 0.4

  /** The default `threshold` of `detect`. */
  const DEFAULT_THRESHOLD: real := 0.4

  /** A (20, 6) detection table, as held by every output buffer. */
  type Table = t: seq<Row> | |t| == 20 witness seq(20, _ => Row(0.0, 0.0, 0.0, 0.0, 0.0, 0.0))

  datatype Box = Box(y1: real, x1: real, y2: real, x2: real)

  /** The four output tensors the interpreter produces: boxes, class ids, scores and the detection count. */
  datatype RawOutput = RawOutput(boxes: seq<Box>, classIds: seq<real>, scores: seq<real>, count: real)

  /** The three per-detection tensors have one entry per detection slot. */
  predicate Shaped(o: RawOutput)
  {
    |o.boxes| == |o.scores| && |o.classIds| == |o.scores|
  }

  /** The exceptions the detector code raises. */
  datatype Fault = IndexError | KeyError(key: int) | NoEdgeTpu

  /** A labelled detection `(labels[int(class)], score, (y1, x1, y2, x2))`. */
  datatype Detection = Detection(name: string, score: real, box: (real, real, real, real))

  // ---------------------------------------------------------------------------
  // Device and model selection (LocalObjectDetector.__init__)

  /** The interpreter `__init__` builds: with the Edge TPU delegate, or on the CPU with a thread count. */
  datatype Interpreter =
    | EdgeTpuInterpreter(device: string, modelPath: string)
    | CpuInterpreter(modelPath: string, numThreads: int)

  const EDGETPU_MODEL: string := "/edgetpu_model.tflite"
  const CPU_MODEL: string := "/cpu_model.tflite"
  const DEFAULT_DEVICE: string := "usb"

  /** Python's `model_path or default`: an absent or empty path falls back to the default. */
  function PathOr(path: Option<string>, default: string): string
  {
    if path.Some? && path.value != "" then path.value else default
  }

  /**
   * The interpreter `__init__` chooses. Every device but "cpu" (None included)
   * takes the Edge TPU path, with "usb" when no device is given; loading the
   * delegate (`delegateLoads`) can fail, which is re-raised.
   */
  function SelectInterpreter(tfDevice: Option<string>, modelPath: Option<string>, numThreads: int, delegateLoads: bool)
    : (r: Result<Interpreter, Fault>)
    ensures (r.Ok? && r.value.CpuInterpreter?) <==> tfDevice == Some("cpu")
    ensures r.Err? <==> tfDevice != Some("cpu") && !delegateLoads
    ensures r.Err? ==> r.error == NoEdgeTpu
    ensures tfDevice == None && delegateLoads ==> r == Ok(EdgeTpuInterpreter(DEFAULT_DEVICE, PathOr(modelPath, EDGETPU_MODEL)))
    ensures r.Ok? && r.value.EdgeTpuInterpreter? ==> tfDevice.Some? ==> r.value.device == tfDevice.value
    ensures r.Ok? && r.value.EdgeTpuInterpreter? ==> r.value.modelPath == PathOr(modelPath, EDGETPU_MODEL)
    ensures r.Ok? && r.value.CpuInterpreter? ==> r.value.modelPath == PathOr(modelPath, CPU_MODEL) && r.value.numThreads == numThreads
  {
    var deviceConfig := if tfDevice.None? then DEFAULT_DEVICE else tfDevice.value;
    if tfDevice != Some("cpu") then
      if delegateLoads then Ok(EdgeTpuInterpreter(deviceConfig, PathOr(modelPath, EDGETPU_MODEL)))
      else Err(NoEdgeTpu)
    else
      Ok(CpuInterpreter(PathOr(modelPath, CPU_MODEL), numThreads))
  }

  /** A constructed `LocalObjectDetector`: its label table and its interpreter. */
  datatype LocalObjectDetector = LocalObjectDetector(labels: map<int, string>, interpreter: Interpreter)

  /** `LocalObjectDetector.__init__`: no label file gives an empty label table; the loaded one is an input. */
  function NewLocalObjectDetector(tfDevice: Option<string>, modelPath: Option<string>, numThreads: int,
                                  labels: Option<map<int, string>>, delegateLoads: bool)
    : (r: Result<LocalObjectDetector, Fault>)
    ensures r.Err? <==> SelectInterpreter(tfDevice, modelPath, numThreads, delegateLoads).Err?
    ensures r.Ok? ==> r.value.interpreter == SelectInterpreter(tfDevice, modelPath, numThreads, delegateLoads).value
    ensures r.Ok? ==> labels.None? ==> r.value.labels == map[]
  {
    match SelectInterpreter(tfDevice, modelPath, numThreads, delegateLoads)
    case Err(e) => Err(e)
    case Ok(interpreter) =>
      Ok(LocalObjectDetector(if labels.None? then map[] else labels.value, interpreter))
  }

  // ---------------------------------------------------------------------------
  // Building the detection table (detect_raw)

  /** The index of the first entry below `t`, or |s| when there is none. */
  function FirstBelow(s: seq<real>, t: real): (k: nat)
    ensures k <= |s|
    ensures forall j :: 0 <= j < k ==> s[j] >= t
    ensures k < |s| ==> s[k] < t
    decreases |s|
  {
    if s == [] then 0
    else if s[0] < t then 0
    else 1 + FirstBelow(s[1..], t)
  }

  /** Row i as `detect_raw` writes it from the output tensors. */
  function RowAt(o: RawOutput, i: nat): Row
    requires Shaped(o) && i < |o.scores|
  {
    Row(o.classIds[i], o.scores[i], o.boxes[i].y1, o.boxes[i].x1, o.boxes[i].y2, o.boxes[i].x2)
  }

  /** The table whose first k rows come from the tensors and whose other rows are zero. */
  function TableOf(o: RawOutput, k: nat): (t: Table)
    requires Shaped(o) && k <= |o.scores| && k <= MAX_ROWS
  {
    seq(MAX_ROWS, i requires 0 <= i < MAX_ROWS => if i < k then RowAt(o, i) else ZERO_ROW)
  }

  /**
   * The number of rows `detect_raw` writes: the loop over `range(count)`
   * stops at the first score below 0.4 and at row 20.
   */
  function RowsWritten(o: RawOutput): (k: nat)
    requires Shaped(o)
    ensures k <= |o.scores| && k <= MAX_ROWS
  {
    Min(Min(Max(TruncToInt(o.count), 0), FirstBelow(o.scores, RAW_CUTOFF)), MAX_ROWS)
  }

  /**
   * Whether `detect_raw` raises IndexError: `scores[i]` is read before the
   * `i == 20` test, so the loop fails when it runs past the last score slot
   * while every score so far passed the cut-off.
   */
  predicate RawIndexError(o: RawOutput): (b: bool)
    ensures b ==> |o.scores| < TruncToInt(o.count) && |o.scores| <= MAX_ROWS
    ensures b ==> forall j :: 0 <= j < |o.scores| ==> o.scores[j] >= RAW_CUTOFF
  {
    var n := |o.scores|;
    FirstBelow(o.scores, RAW_CUTOFF) == n && n < TruncToInt(o.count) && n <= MAX_ROWS
  }

  /** Reference meaning of `detect_raw`'s post-processing. */
  function RawRows(o: RawOutput): (r: Result<Table, Fault>)
    requires Shaped(o)
    ensures r.Err? ==> r.error == IndexError
    ensures r.Ok? ==> forall i :: 0 <= i < MAX_ROWS ==> r.value[i] == ZERO_ROW || r.value[i].score >= RAW_CUTOFF
  {
    if RawIndexError(o) then Err(IndexError) else Ok(TableOf(o, RowsWritten(o)))
  }

  /** The row-building loop of `detect_raw`, writing rows of a zeroed buffer in place. */
  method DetectRaw(o: RawOutput) returns (r: Result<Table, Fault>)
    requires Shaped(o)
    ensures r == RawRows(o)
  {
    var detections := new Row[MAX_ROWS](_ => ZERO_ROW);
    var count := TruncToInt(o.count);
    var i := 0;
    while i < count
      invariant 0 <= i <= MAX_ROWS && i <= |o.scores|
      invariant forall j :: 0 <= j < i ==> o.scores[j] >= RAW_CUTOFF
      invariant i <= RowsWritten(o)
      invariant detections[..] == seq(MAX_ROWS, j requires 0 <= j < MAX_ROWS => if j < i then RowAt(o, j) else ZERO_ROW)
    {
      if i >= |o.scores| {
        assert FirstBelow(o.scores, RAW_CUTOFF) == |o.scores|;
        return Err(IndexError);
      }
      if o.scores[i] < RAW_CUTOFF || i == MAX_ROWS {
        assert RowsWritten(o) <= i;
        break;
      }
      detections[i] := RowAt(o, i);
      i := i + 1;
    }
    assert i == RowsWritten(o);
    assert !RawIndexError(o);
    return Ok(detections[..]);
  }

  /** The table `detect_raw` returns has 20 rows; rows before the cut are the tensors' rows, the rest stay zero. */
  lemma RawRowsShape(o: RawOutput, i: nat)
    requires Shaped(o) && RawRows(o).Ok? && i < MAX_ROWS
    ensures |RawRows(o).value| == MAX_ROWS
    ensures i < RowsWritten(o) ==> RawRows(o).value[i] == RowAt(o, i) && RowAt(o, i).score >= RAW_CUTOFF
    ensures i >= RowsWritten(o) ==> RawRows(o).value[i] == ZERO_ROW
  {
  }

  /** `detect_raw` never raises when the count does not exceed the number of score slots. */
  lemma RawRowsTotal(o: RawOutput)
    requires Shaped(o) && TruncToInt(o.count) <= |o.scores|
    ensures RawRows(o).Ok?
  {
  }

  // ---------------------------------------------------------------------------
  // The threshold filter of `detect`

  function Scores(rows: seq<Row>): (s: seq<real>)
    ensures |s| == |rows| && forall i :: 0 <= i < |rows| ==> s[i] == rows[i].score
  {
    seq(|rows|, i requires 0 <= i < |rows| => rows[i].score)
  }

  /** `(labels[int(d[0])], float(d[1]), (d[2], d[3], d[4], d[5]))`, or the KeyError of a missing label. */
  function Labelled(d: Row, labels: map<int, string>): (r: Result<Detection, Fault>)
    ensures r.Ok? <==> TruncToInt(d.classId) in labels
    ensures r.Ok? ==> r.value == Detection(labels[TruncToInt(d.classId)], d.score, (d.y1, d.x1, d.y2, d.x2))
    ensures r.Err? ==> r.error == KeyError(TruncToInt(d.classId))
  {
    var key := TruncToInt(d.classId);
    if key in labels then Ok(Detection(labels[key], d.score, (d.y1, d.x1, d.y2, d.x2)))
    else Err(KeyError(key))
  }

  /** Reference meaning of the `for d in rows: if d[1] < threshold: break; append(...)` loop. */
  function FilterRows(rows: seq<Row>, threshold: real, labels: map<int, string>): (r: Result<seq<Detection>, Fault>)
    ensures r.Ok? ==> |r.value| <= |rows| && forall d :: d in r.value ==> d.score >= threshold
    ensures r.Err? ==> r.error.KeyError?
    decreases |rows|
  {
    if rows == [] || rows[0].score < threshold then Ok([])
    else
      match Labelled(rows[0], labels)
      case Err(e) => Err(e)
      case Ok(d) =>
        match FilterRows(rows[1..], threshold, labels)
        case Err(e) => Err(e)
        case Ok(ds) => Ok([d] + ds)
  }

  /** Prefix property: the filter keeps exactly the rows before the first below-threshold row, in order, each labelled. */
  lemma {:induction false} FilterRowsPrefix(rows: seq<Row>, threshold: real, labels: map<int, string>)
    requires FilterRows(rows, threshold, labels).Ok?
    ensures var ds := FilterRows(rows, threshold, labels).value;
      && |ds| == FirstBelow(Scores(rows), threshold) <= |rows|
      && forall i :: 0 <= i < |ds| ==> Labelled(rows[i], labels) == Ok(ds[i]) && ds[i].score >= threshold
    decreases |rows|
  {
    if rows != [] && rows[0].score >= threshold {
      assert Scores(rows)[1..] == Scores(rows[1..]);
      FilterRowsPrefix(rows[1..], threshold, labels);
    }
  }

  /** The filter raises exactly when a row it would keep has a class id missing from the label table. */
  lemma {:induction false} FilterRowsFails(rows: seq<Row>, threshold: real, labels: map<int, string>)
    ensures FilterRows(rows, threshold, labels).Err? <==>
      exists i :: 0 <= i < FirstBelow(Scores(rows), threshold) && TruncToInt(rows[i].classId) !in labels
    ensures FilterRows(rows, threshold, labels).Err? ==> FilterRows(rows, threshold, labels).error.KeyError?
    decreases |rows|
  {
    if rows != [] && rows[0].score >= threshold {
      assert Scores(rows)[1..] == Scores(rows[1..]);
      FilterRowsFails(rows[1..], threshold, labels);
      var k := FirstBelow(Scores(rows), threshold);
      if exists i :: 0 <= i < k && TruncToInt(rows[i].classId) !in labels {
        var i :| 0 <= i < k && TruncToInt(rows[i].classId) !in labels;
        if i > 0 {
          assert TruncToInt(rows[1..][i - 1].classId) !in labels;
        }
      }
      if exists i :: 0 <= i < k - 1 && TruncToInt(rows[1..][i].classId) !in labels {
        var i :| 0 <= i < k - 1 && TruncToInt(rows[1..][i].classId) !in labels;
        assert TruncToInt(rows[i + 1].classId) !in labels;
      }
    }
  }

  /** Wraps the rest of a filter result behind the detections already appended. */
  function Behind(done: seq<Detection>, rest: Result<seq<Detection>, Fault>): Result<seq<Detection>, Fault>
  {
    match rest
    case Err(e) => Err(e)
    case Ok(ds) => Ok(done + ds)
  }

  /** The filter loop shared by `LocalObjectDetector.detect` and `RemoteObjectDetector.detect`. */
  method FilterLoop(rows: seq<Row>, threshold: real, labels: map<int, string>) returns (r: Result<seq<Detection>, Fault>)
    ensures r == FilterRows(rows, threshold, labels)
  {
    var detections: seq<Detection> := [];
    var i := 0;
    assert rows[0..] == rows;
    match FilterRows(rows, threshold, labels) {
      case Ok(ds) => assert [] + ds == ds;
      case Err(_) =>
    }
    while i < |rows|
      invariant 0 <= i <= |rows|
      invariant FilterRows(rows, threshold, labels) == Behind(detections, FilterRows(rows[i..], threshold, labels))
    {
      var d := rows[i];
      assert rows[i..][0] == d && rows[i..][1..] == rows[i + 1..];
      if d.score < threshold {
        assert detections + [] == detections;
        break;
      }
      var labelled := Labelled(d, labels);
      if labelled.Err? {
        return Err(labelled.error);
      }
      ghost var rest := FilterRows(rows[i + 1..], threshold, labels);
      match rest {
        case Ok(ds) => assert detections + ([labelled.value] + ds) == (detections + [labelled.value]) + ds;
        case Err(_) =>
      }
      detections := detections + [labelled.value];
      i := i + 1;
    }
    assert i == |rows| ==> rows[i..] == [];
    assert detections + [] == detections;
    return Ok(detections);
  }

  /** `LocalObjectDetector.detect`: `detect_raw`, then the threshold filter over its table. */
  method Detect(det: LocalObjectDetector, o: RawOutput, threshold: real) returns (r: Result<seq<Detection>, Fault>)
    requires Shaped(o)
    ensures RawRows(o).Err? ==> r == Err(IndexError)
    ensures RawRows(o).Ok? ==> r == FilterRows(RawRows(o).value, threshold, det.labels)
  {
    var raw := DetectRaw(o);
    if raw.Err? {
      return Err(raw.error);
    }
    r := FilterLoop(raw.value, threshold, det.labels);
  }

  /**
   * The 0.4 cut-off of `detect_raw` holds whatever positive threshold the
   * caller uses: every detection `detect` returns scores at least 0.4 and at
   * least the threshold, and there are at most 20 of them.
   */
  lemma DetectScores(o: RawOutput, threshold: real, labels: map<int, string>)
    requires Shaped(o) && RawRows(o).Ok? && threshold > 0.0
    requires FilterRows(RawRows(o).value, threshold, labels).Ok?
    ensures var ds := FilterRows(RawRows(o).value, threshold, labels).value;
      |ds| <= RowsWritten(o) && forall d :: d in ds ==> d.score >= RAW_CUTOFF && d.score >= threshold
  {
    var t := RawRows(o).value;
    var ds := FilterRows(t, threshold, labels).value;
    FilterRowsPrefix(t, threshold, labels);
    if |ds| > RowsWritten(o) {
      RawRowsShape(o, RowsWritten(o));
    }
    forall i | 0 <= i < |ds|
      ensures ds[i].score >= RAW_CUTOFF
    {
      RawRowsShape(o, i);
    }
  }

  /** With a threshold of zero or less the zero rows pass the filter: an empty raw output yields 20 labelled detections of score 0. */
  lemma NonPositiveThresholdKeepsZeroRows(threshold: real, labels: map<int, string>)
    requires threshold <= 0.0 && 0 in labels
    ensures var o := RawOutput([], [], [], 0.0);
      RawRows(o).Ok? && RawRows(o).value == seq(MAX_ROWS, _ => ZERO_ROW) &&
      FilterRows(RawRows(o).value, threshold, labels) == Ok(seq(MAX_ROWS, _ => Detection(labels[0], 0.0, (0.0, 0.0, 0.0, 0.0))))
  {
    var o := RawOutput([], [], [], 0.0);
    var zeros: Table := seq(MAX_ROWS, _ => ZERO_ROW);
    assert TableOf(o, 0) == zeros;
    ZeroRowsPass(zeros, threshold, labels);
  }

  /** At a threshold of zero or less every zero row passes and becomes a detection of label 0. */
  lemma {:induction false} ZeroRowsPass(rows: seq<Row>, threshold: real, labels: map<int, string>)
    requires threshold <= 0.0 && 0 in labels && forall i :: 0 <= i < |rows| ==> rows[i] == ZERO_ROW
    ensures FilterRows(rows, threshold, labels) == Ok(seq(|rows|, _ => Detection(labels[0], 0.0, (0.0, 0.0, 0.0, 0.0))))
    decreases |rows|
  {
    var d := Detection(labels[0], 0.0, (0.0, 0.0, 0.0, 0.0));
    if rows == [] {
      assert seq(|rows|, _ => d) == [];
    } else {
      assert rows[0] == ZERO_ROW;
      assert TruncToInt(0.0) == 0;
      assert Labelled(rows[0], labels) == Ok(d);
      ZeroRowsPass(rows[1..], threshold, labels);
      assert [d] + seq(|rows| - 1, _ => d) == seq(|rows|, _ => d);
    }
  }

  /** A detector built without a label file raises KeyError on the first row that passes the threshold. */
  lemma UnlabelledDetectorRaises(rows: seq<Row>, threshold: real)
    requires rows != [] && rows[0].score >= threshold
    ensures FilterRows(rows, threshold, map[]) == Err(KeyError(TruncToInt(rows[0].classId)))
  {
  }

  /** The scores 0.9, 0.7, 0.3, 0, ... at threshold 0.4 keep exactly the first two rows, in order. */
  lemma FilterExample(labels: map<int, string>)
    requires 1 in labels && 2 in labels
    ensures var rows := [Row(1.0, 0.9, 0.1, 0.1, 0.5, 0.5), Row(2.0, 0.7, 0.2, 0.2, 0.6, 0.6), Row(1.0, 0.3, 0.0, 0.0, 1.0, 1.0)]
                        + seq(17, _ => ZERO_ROW);
      FilterRows(rows, DEFAULT_THRESHOLD, labels)
        == Ok([Detection(labels[1], 0.9, (0.1, 0.1, 0.5, 0.5)), Detection(labels[2], 0.7, (0.2, 0.2, 0.6, 0.6))])
  {
    var rows := [Row(1.0, 0.9, 0.1, 0.1, 0.5, 0.5), Row(2.0, 0.7, 0.2, 0.2, 0.6, 0.6), Row(1.0, 0.3, 0.0, 0.0, 1.0, 1.0)]
                + seq(17, _ => ZERO_ROW);
    assert TruncToInt(1.0) == 1 && TruncToInt(2.0) == 2;
    var d1 := Detection(labels[1], 0.9, (0.1, 0.1, 0.5, 0.5));
    var d2 := Detection(labels[2], 0.7, (0.2, 0.2, 0.6, 0.6));
    assert rows[2..][0].score < DEFAULT_THRESHOLD;
    assert FilterRows(rows[2..], DEFAULT_THRESHOLD, labels) == Ok([]);
    assert rows[1..][0] == rows[1] && rows[1..][1..] == rows[2..];
    assert Labelled(rows[1], labels) == Ok(d2);
    assert [d2] + [] == [d2];
    assert FilterRows(rows[1..], DEFAULT_THRESHOLD, labels) == Ok([d2]);
    assert Labelled(rows[0], labels) == Ok(d1);
    assert rows != [] && rows[0].score >= DEFAULT_THRESHOLD;
    assert [d1] + [d2] == [d1, d2];
  }
}
