/**
 * Loading moving emitters from a CSV file whose lines read
 * `emitter, frame, x, y`. Consecutive lines with the same emitter number
 * make one trajectory; frame numbers must grow within a trajectory, and a
 * gap between two frames is filled by points evenly spaced on the segment
 * between the two positions. Each trajectory starts at frame 1: a first
 * frame f > 1 repeats the first position f times.
 */
module MovingCsv {
  import opened Wrappers
  import opened Text
  import opened Csv
  import opened Emitters

  /** The four columns of a data line. */
  datatype DataLine = DataLine(emitter: int, frame: int, x: real, y: real)

  function ReadDataLine(line: string, lineNo: nat, parseInt: string -> Option<int>, parseDouble: string -> Option<real>)
    : Result<DataLine, CsvError>
  {
    var entries := JavaSplit(line, ',');
    var emitter :- Column(entries, 0, lineNo, parseInt);
    var frame :- Column(entries, 1, lineNo, parseInt);
    var x :- Column(entries, 2, lineNo, parseDouble);
    var y :- Column(entries, 3, lineNo, parseDouble);
    Success(DataLine(emitter, frame, x, y))
  }

  /**
   * A data line is read exactly when split gives at least four fields, the
   * first two integers and the next two doubles; extra fields are ignored.
   */
  lemma ReadDataLineIff(line: string, lineNo: nat, parseInt: string -> Option<int>, parseDouble: string -> Option<real>)
    ensures var e := JavaSplit(line, ',');
      ReadDataLine(line, lineNo, parseInt, parseDouble).Success? <==>
        |e| >= 4 && parseInt(e[0]).Some? && parseInt(e[1]).Some? && parseDouble(e[2]).Some? && parseDouble(e[3]).Some?
    ensures var e := JavaSplit(line, ',');
      ReadDataLine(line, lineNo, parseInt, parseDouble).Success? ==>
        ReadDataLine(line, lineNo, parseInt, parseDouble).value ==
          DataLine(parseInt(e[0]).value, parseInt(e[1]).value, parseDouble(e[2]).value, parseDouble(e[3]).value)
    ensures |JavaSplit(line, ',')| < 4 ==> ReadDataLine(line, lineNo, parseInt, parseDouble).Failure?
  {
  }

  /**
   * The parser's variables between two lines: the emitter number of the
   * trajectory being built (-1 before the first data line), the frame number
   * expected next, the trajectory so far, the last position read, and the
   * emitters already closed.
   */
  datatype Tracker = Tracker(
    trajectoryNo: int,
    expectedFrame: int,
    current: seq<Point>,
    lastX: real,
    lastY: real,
    movers: seq<MovingFluorophore>)

  const Start := Tracker(-1, 1, [], 0.0, 0.0, [])

  // ---------------------------------------------------------------- gaps

  /** Point i of a gap of `gap` frames: the weighted average (i x + (gap - i) px) / gap. */
  function Interpolate(i: int, gap: int, x: real, px: real): real
    requires gap > 0
  {
    (i as real * x + (gap - i) as real * px) / gap as real
  }

  /** The gap - 1 points strictly between the previous position (px, py) and the new one (x, y). */
  function GapPoints(gap: int, x: real, y: real, px: real, py: real): (ps: seq<Point>)
    requires gap >= 1
    ensures |ps| == gap - 1
  {
    seq(gap - 1, k requires 0 <= k < gap - 1 => Point(Interpolate(k + 1, gap, x, px), Interpolate(k + 1, gap, y, py)))
  }

  lemma Lerp(i: real, g: real, x: real, px: real)
    requires g > 0.0
    ensures (i * x + (g - i) * px) / g == px + i * ((x - px) / g)
  {
    var d := (x - px) / g;
    assert x - px == g * d;
    assert i * x + (g - i) * px == g * (px + i * d);
  }

  /**
   * The interpolation is linear: point i lies i / gap of the way from the
   * previous position to the new one, so successive gap points, the previous
   * position (i = 0) and the new one (i = gap) are evenly spaced.
   */
  lemma InterpolateIsLinear(i: int, gap: int, x: real, px: real)
    requires gap > 0
    ensures Interpolate(i, gap, x, px) == px + i as real * ((x - px) / gap as real)
    ensures Interpolate(0, gap, x, px) == px && Interpolate(gap, gap, x, px) == x
    ensures Interpolate(i + 1, gap, x, px) - Interpolate(i, gap, x, px) == (x - px) / gap as real
  {
    var d := (x - px) / gap as real;
    Lerp(i as real, gap as real, x, px);
    Lerp((i + 1) as real, gap as real, x, px);
    Lerp(0.0, gap as real, x, px);
    Lerp(gap as real, gap as real, x, px);
    assert (i + 1) as real * d - i as real * d == d;
    assert gap as real * d == x - px;
  }

  // ---------------------------------------------------------------- one line

  /** Closing a trajectory reads its first point, which fails on an empty one. */
  function StartMoving(trajectory: seq<Point>): (r: Result<MovingFluorophore, CsvError>)
  {
    if |trajectory| == 0 then Failure(EmptyTrajectory)
    else Success(MovingFluorophore(trajectory[0].x, trajectory[0].y, trajectory))
  }

  /** The first data line sets the emitter number, the last position and frame 1 as the expected one. */
  function Adopt(t: Tracker, d: DataLine): Tracker
  {
    if t.trajectoryNo == -1
    then t.(trajectoryNo := d.emitter, lastX := d.x, lastY := d.y, expectedFrame := 1)
    else t
  }

  /** A new emitter number closes the trajectory and starts an empty one at frame 1. */
  function Switch(t: Tracker, d: DataLine): Result<Tracker, CsvError>
  {
    if d.emitter != t.trajectoryNo
    then
      var closed :- StartMoving(t.current);
      Success(Tracker(d.emitter, 1, [], d.x, d.y, t.movers + [closed]))
    else Success(t)
  }

  /** A frame below the expected one is rejected; otherwise the gap is filled and the position added. */
  function Place(t: Tracker, d: DataLine, lineNo: nat): Result<Tracker, CsvError>
  {
    if d.frame < t.expectedFrame then Failure(FrameOutOfOrder(lineNo))
    else
      var gap := d.frame - t.expectedFrame + 1;
      Success(t.(current := t.current + GapPoints(gap, d.x, d.y, t.lastX, t.lastY) + [Point(d.x, d.y)],
                 lastX := d.x, lastY := d.y, expectedFrame := d.frame + 1))
  }

  lemma PlaceValue(t: Tracker, d: DataLine, lineNo: nat)
    requires d.frame >= t.expectedFrame
    ensures Place(t, d, lineNo) == Success(Tracker(t.trajectoryNo, d.frame + 1,
      t.current + GapPoints(d.frame - t.expectedFrame + 1, d.x, d.y, t.lastX, t.lastY) + [Point(d.x, d.y)],
      d.x, d.y, t.movers))
  {
  }

  /** One data line. */
  function Accept(t: Tracker, d: DataLine, lineNo: nat): Result<Tracker, CsvError>
  {
    var t2 :- Switch(Adopt(t, d), d);
    Place(t2, d, lineNo)
  }

  function Step(t: Tracker, line: string, lineNo: nat, parseInt: string -> Option<int>, parseDouble: string -> Option<real>)
    : Result<Tracker, CsvError>
  {
    if IsComment(line) then Success(t)
    else
      var d :- ReadDataLine(line, lineNo, parseInt, parseDouble);
      Accept(t, d, lineNo)
  }

  // ---------------------------------------------------------------- whole file

  /** The parser's variables after the lines, or the error of the first line it rejects. */
  function Track(lines: seq<string>, parseInt: string -> Option<int>, parseDouble: string -> Option<real>)
    : Result<Tracker, CsvError>
  {
    if |lines| == 0 then Success(Start)
    else
      var t :- Track(lines[..|lines| - 1], parseInt, parseDouble);
      Step(t, lines[|lines| - 1], |lines| - 1, parseInt, parseDouble)
  }

  /** The closed emitters followed by the last trajectory's one. */
  function ParseMoving(lines: seq<string>, parseInt: string -> Option<int>, parseDouble: string -> Option<real>)
    : Result<seq<MovingFluorophore>, CsvError>
  {
    var t :- Track(lines, parseInt, parseDouble);
    var last :- StartMoving(t.current);
    Success(t.movers + [last])
  }

  lemma {:induction false} TrackFailureSticks(lines: seq<string>, n: nat, parseInt: string -> Option<int>, parseDouble: string -> Option<real>)
    requires n <= |lines| && Track(lines[..n], parseInt, parseDouble).Failure?
    ensures Track(lines, parseInt, parseDouble) == Track(lines[..n], parseInt, parseDouble)
  {
    if n == |lines| {
      assert lines[..n] == lines;
    } else {
      var m := |lines| - 1;
      assert lines[..m][..n] == lines[..n];
      TrackFailureSticks(lines[..m], n, parseInt, parseDouble);
    }
  }

  /** The gap loop `for (i = 1; i < gap; i++)`, appending to `current`. */
  method FillGap(current: seq<Point>, gap: int, x: real, y: real, px: real, py: real) returns (c: seq<Point>)
    requires gap >= 1
    ensures c == current + GapPoints(gap, x, y, px, py)
  {
    c := current;
    var i := 1;
    while i < gap
      invariant 1 <= i <= gap
      invariant |c| == |current| + i - 1
      invariant c[..|current|] == current
      invariant forall k :: |current| <= k < |c| ==>
        c[k] == Point(Interpolate(k - |current| + 1, gap, x, px), Interpolate(k - |current| + 1, gap, y, py))
    {
      c := c + [Point(Interpolate(i, gap, x, px), Interpolate(i, gap, y, py))];
      i := i + 1;
    }
    var spec := current + GapPoints(gap, x, y, px, py);
    assert |spec| == |c| && forall k :: 0 <= k < |c| ==> spec[k] == c[k];
  }

  /** The loop body for one data line, on the parser's variables as they stand before it. */
  method AcceptDataLine(t: Tracker, d: DataLine, n: nat) returns (r: Result<Tracker, CsvError>)
    ensures r == Accept(t, d, n)
  {
    var trajectoryNo, expectedFrame, current := t.trajectoryNo, t.expectedFrame, t.current;
    var initialX, initialY, result := t.lastX, t.lastY, t.movers;
    var newTrajectoryNo, newFrameNo, x, y := d.emitter, d.frame, d.x, d.y;
    if trajectoryNo == -1 {
      trajectoryNo := newTrajectoryNo;
      initialX, initialY := x, y;
      expectedFrame := 1;
    }
    ghost var adopted := Tracker(trajectoryNo, expectedFrame, current, initialX, initialY, result);
    assert adopted == Adopt(t, d);
    if newTrajectoryNo != trajectoryNo {
      trajectoryNo := newTrajectoryNo;
      if |current| == 0 {
        return Failure(EmptyTrajectory);
      }
      result := result + [MovingFluorophore(current[0].x, current[0].y, current)];
      current := [];
      initialX, initialY := x, y;
      expectedFrame := 1;
    }
    ghost var switched := Tracker(trajectoryNo, expectedFrame, current, initialX, initialY, result);
    assert Switch(adopted, d) == Success(switched);
    if newFrameNo < expectedFrame {
      return Failure(FrameOutOfOrder(n));
    } else if newFrameNo == expectedFrame {
      assert GapPoints(1, x, y, initialX, initialY) == [];
      current := current + [Point(x, y)];
      assert current == switched.current + GapPoints(1, x, y, initialX, initialY) + [Point(x, y)];
    } else {
      var gapSize := newFrameNo - expectedFrame + 1;
      current := FillGap(current, gapSize, x, y, initialX, initialY);
      current := current + [Point(x, y)];
    }
    PlaceValue(switched, d, n);
    initialX, initialY := x, y;
    expectedFrame := newFrameNo + 1;
    r := Success(Tracker(trajectoryNo, expectedFrame, current, initialX, initialY, result));
  }

  /**
   * The read loop; it stops at the first line it rejects, and finally closes
   * the last trajectory.
   */
  method ParseMovingCsv(lines: seq<string>, parseInt: string -> Option<int>, parseDouble: string -> Option<real>)
    returns (r: Result<seq<MovingFluorophore>, CsvError>)
    ensures r == ParseMoving(lines, parseInt, parseDouble)
  {
    var state := Start;
    var n := 0;
    while n < |lines|
      invariant 0 <= n <= |lines|
      invariant Track(lines[..n], parseInt, parseDouble) == Success(state)
    {
      assert lines[..n + 1][..n] == lines[..n];
      var line := lines[n];
      if IsComment(line) {
        n := n + 1;
        continue;
      }
      var parsed := ReadDataLine(line, n, parseInt, parseDouble);
      if parsed.Failure? {
        TrackFailureSticks(lines, n + 1, parseInt, parseDouble);
        return Failure(parsed.error);
      }
      var next := AcceptDataLine(state, parsed.value, n);
      if next.Failure? {
        TrackFailureSticks(lines, n + 1, parseInt, parseDouble);
        return Failure(next.error);
      }
      state := next.value;
      n := n + 1;
    }
    assert lines[..n] == lines;
    if |state.current| == 0 {
      return Failure(EmptyTrajectory);
    }
    r := Success(state.movers + [MovingFluorophore(state.current[0].x, state.current[0].y, state.current)]);
  }

  // ---------------------------------------------------------------- properties

  /**
   * The frame invariant: the next expected frame is one past the trajectory's
   * length, and a trajectory is being built exactly when an emitter number
   * has been taken.
   */
  predicate Aligned(t: Tracker) {
    t.expectedFrame == |t.current| + 1 && (t.trajectoryNo == -1 <==> |t.current| == 0)
  }

  /**
   * Accepting a line keeps the invariant and leaves a trajectory of exactly f
   * points after frame f; it rejects the frame exactly when it is not above the
   * previous frame of the same trajectory, or below 1 at a trajectory's start.
   */
  lemma AcceptAligned(t: Tracker, d: DataLine, lineNo: nat)
    requires Aligned(t) && d.emitter != -1
    ensures Accept(t, d, lineNo).Failure? <==>
      (if t.trajectoryNo == d.emitter then d.frame <= |t.current| else d.frame < 1)
    ensures Accept(t, d, lineNo).Failure? ==> Accept(t, d, lineNo) == Failure(FrameOutOfOrder(lineNo))
    ensures Accept(t, d, lineNo).Success? ==>
      var u := Accept(t, d, lineNo).value;
      Aligned(u) && |u.current| == d.frame && u.trajectoryNo == d.emitter
  {
  }

  /** Point f of a trajectory (f >= 1) is the position read at frame f, gaps filled in between. */
  lemma AcceptPlacesFrame(t: Tracker, d: DataLine, lineNo: nat)
    requires Aligned(t) && d.emitter != -1 && Accept(t, d, lineNo).Success?
    ensures var u := Accept(t, d, lineNo).value;
      |u.current| == d.frame && u.current[d.frame - 1] == Point(d.x, d.y) &&
      (t.trajectoryNo == d.emitter ==> u.current[..|t.current|] == t.current)
  {
    AcceptAligned(t, d, lineNo);
  }

  /** No data line reads as emitter -1, the parser's "no trajectory yet" value. */
  predicate NoSentinelEmitter(lines: seq<string>, parseInt: string -> Option<int>, parseDouble: string -> Option<real>) {
    forall k :: 0 <= k < |lines| && !IsComment(lines[k]) && ReadDataLine(lines[k], k, parseInt, parseDouble).Success? ==>
      ReadDataLine(lines[k], k, parseInt, parseDouble).value.emitter != -1
  }

  /** The emitter numbers of the data lines that can be read, in file order. */
  function DataIds(lines: seq<string>, parseInt: string -> Option<int>, parseDouble: string -> Option<real>): seq<int>
  {
    if |lines| == 0 then []
    else
      var n := |lines| - 1;
      DataIds(lines[..n], parseInt, parseDouble) + LineIds(lines[n], n, parseInt, parseDouble)
  }

  /** The emitter number of one line, if it is a data line that can be read. */
  function LineIds(line: string, lineNo: nat, parseInt: string -> Option<int>, parseDouble: string -> Option<real>): seq<int>
  {
    var d := ReadDataLine(line, lineNo, parseInt, parseDouble);
    if !IsComment(line) && d.Success? then [d.value.emitter] else []
  }

  /** How many times a sequence of numbers changes value from one element to the next. */
  function Changes(ids: seq<int>): nat
  {
    if |ids| <= 1 then 0
    else Changes(ids[..|ids| - 1]) + (if ids[|ids| - 1] != ids[|ids| - 2] then 1 else 0)
  }

  /** A closed emitter starts at its trajectory's first point. */
  predicate StartsAtFirstPoint(m: MovingFluorophore) {
    |m.trajectory| >= 1 && m.x == m.trajectory[0].x && m.y == m.trajectory[0].y
  }

  lemma StartMovingIsFirstPoint(trajectory: seq<Point>)
    ensures StartMoving(trajectory).Success? <==> |trajectory| >= 1
    ensures StartMoving(trajectory).Success? ==> StartsAtFirstPoint(StartMoving(trajectory).value)
  {
  }

  /**
   * Without emitter number -1, the parser's variables after any prefix keep
   * the frame invariant, and the trajectory being built belongs to the last
   * emitter number read.
   */
  lemma {:induction false} TrackAligned(lines: seq<string>, parseInt: string -> Option<int>, parseDouble: string -> Option<real>)
    requires NoSentinelEmitter(lines, parseInt, parseDouble)
    requires Track(lines, parseInt, parseDouble).Success?
    ensures Aligned(Track(lines, parseInt, parseDouble).value)
    ensures var t, ids := Track(lines, parseInt, parseDouble).value, DataIds(lines, parseInt, parseDouble);
      (|ids| == 0 <==> t.trajectoryNo == -1) && (|ids| > 0 ==> t.trajectoryNo == ids[|ids| - 1])
  {
    if |lines| > 0 {
      var n := |lines| - 1;
      var pre := lines[..n];
      TrackSnoc(lines, parseInt, parseDouble);
      TrackAligned(pre, parseInt, parseDouble);
      var t := Track(pre, parseInt, parseDouble).value;
      StepAligned(t, lines[n], n, parseInt, parseDouble);
      var before, ids := DataIds(pre, parseInt, parseDouble), LineIds(lines[n], n, parseInt, parseDouble);
      if |ids| == 1 {
        assert (before + ids)[|before + ids| - 1] == ids[0];
      } else {
        assert before + ids == before;
      }
    }
  }

  /** The last line of a file that is read: the state before it, its step and its emitter number. */
  lemma TrackSnoc(lines: seq<string>, parseInt: string -> Option<int>, parseDouble: string -> Option<real>)
    requires |lines| > 0 && Track(lines, parseInt, parseDouble).Success?
    ensures var n := |lines| - 1;
      Track(lines[..n], parseInt, parseDouble).Success? &&
      Track(lines, parseInt, parseDouble) == Step(Track(lines[..n], parseInt, parseDouble).value, lines[n], n, parseInt, parseDouble) &&
      DataIds(lines, parseInt, parseDouble) == DataIds(lines[..n], parseInt, parseDouble) + LineIds(lines[n], n, parseInt, parseDouble)
    ensures var n := |lines| - 1;
      NoSentinelEmitter(lines, parseInt, parseDouble) ==>
        NoSentinelEmitter(lines[..n], parseInt, parseDouble) &&
        (|LineIds(lines[n], n, parseInt, parseDouble)| == 0 || LineIds(lines[n], n, parseInt, parseDouble)[0] != -1)
  {
    var n := |lines| - 1;
    var pre := lines[..n];
    assert forall k :: 0 <= k < n ==> pre[k] == lines[k];
  }

  /** One line keeps the frame invariant and leaves the trajectory with the line's emitter number. */
  lemma StepAligned(t: Tracker, line: string, lineNo: nat, parseInt: string -> Option<int>, parseDouble: string -> Option<real>)
    requires Aligned(t) && Step(t, line, lineNo, parseInt, parseDouble).Success?
    requires var ids := LineIds(line, lineNo, parseInt, parseDouble); |ids| == 0 || ids[0] != -1
    ensures var u, ids := Step(t, line, lineNo, parseInt, parseDouble).value, LineIds(line, lineNo, parseInt, parseDouble);
      Aligned(u) && |ids| <= 1 && (|ids| == 0 ==> u == t) && (|ids| == 1 ==> u.trajectoryNo == ids[0])
  {
    if !IsComment(line) {
      AcceptAligned(t, ReadDataLine(line, lineNo, parseInt, parseDouble).value, lineNo);
    }
  }

  /** Without emitter number -1, the emitters closed after any prefix number the changes of emitter number so far. */
  lemma {:induction false} TrackMoversCount(lines: seq<string>, parseInt: string -> Option<int>, parseDouble: string -> Option<real>)
    requires NoSentinelEmitter(lines, parseInt, parseDouble)
    requires Track(lines, parseInt, parseDouble).Success?
    ensures |Track(lines, parseInt, parseDouble).value.movers| == Changes(DataIds(lines, parseInt, parseDouble))
  {
    if |lines| > 0 {
      var n := |lines| - 1;
      var pre := lines[..n];
      assert forall k :: 0 <= k < n ==> pre[k] == lines[k];
      assert Track(pre, parseInt, parseDouble).Success?;
      TrackMoversCount(pre, parseInt, parseDouble);
      TrackAligned(pre, parseInt, parseDouble);
      var t := Track(pre, parseInt, parseDouble).value;
      assert Track(lines, parseInt, parseDouble) == Step(t, lines[n], n, parseInt, parseDouble);
      StepMovers(t, lines[n], n, parseInt, parseDouble);
      var ids, e := DataIds(pre, parseInt, parseDouble), LineIds(lines[n], n, parseInt, parseDouble);
      assert DataIds(lines, parseInt, parseDouble) == ids + e;
      if |e| > 0 {
        assert e == [e[0]];
        ChangesSnoc(ids, e[0]);
      } else {
        assert ids + e == ids;
      }
    }
  }

  /** Every emitter closed after any prefix starts at its trajectory's first point. */
  lemma {:induction false} TrackMoversStart(lines: seq<string>, parseInt: string -> Option<int>, parseDouble: string -> Option<real>)
    requires Track(lines, parseInt, parseDouble).Success?
    ensures forall m :: m in Track(lines, parseInt, parseDouble).value.movers ==> StartsAtFirstPoint(m)
  {
    if |lines| > 0 {
      var n := |lines| - 1;
      var pre := lines[..n];
      assert Track(pre, parseInt, parseDouble).Success?;
      TrackMoversStart(pre, parseInt, parseDouble);
      var t := Track(pre, parseInt, parseDouble).value;
      assert Track(lines, parseInt, parseDouble) == Step(t, lines[n], n, parseInt, parseDouble);
      StepMovers(t, lines[n], n, parseInt, parseDouble);
    }
  }

  /** One line closes the open trajectory, which starts at its first point, exactly when it changes the emitter number. */
  lemma StepMovers(t: Tracker, line: string, lineNo: nat, parseInt: string -> Option<int>, parseDouble: string -> Option<real>)
    requires Step(t, line, lineNo, parseInt, parseDouble).Success?
    ensures var u, ids := Step(t, line, lineNo, parseInt, parseDouble).value, LineIds(line, lineNo, parseInt, parseDouble);
      |ids| <= 1 &&
      if |ids| == 1 && t.trajectoryNo != -1 && t.trajectoryNo != ids[0]
      then u.movers == t.movers + [StartMoving(t.current).value] && StartsAtFirstPoint(StartMoving(t.current).value)
      else u.movers == t.movers
  {
    if !IsComment(line) {
      AcceptMovers(t, ReadDataLine(line, lineNo, parseInt, parseDouble).value, lineNo);
    }
  }

  /** Appending a number adds one change exactly when it differs from the last one. */
  lemma ChangesSnoc(ids: seq<int>, e: int)
    ensures Changes(ids + [e]) == Changes(ids) + (if |ids| > 0 && ids[|ids| - 1] != e then 1 else 0)
  {
    var all := ids + [e];
    assert all[..|all| - 1] == ids;
  }

  /** A data line closes the open trajectory, which starts at its first point, exactly when the emitter number changes. */
  lemma AcceptMovers(t: Tracker, d: DataLine, lineNo: nat)
    requires Accept(t, d, lineNo).Success?
    ensures var u := Accept(t, d, lineNo).value;
      if t.trajectoryNo != -1 && t.trajectoryNo != d.emitter
      then u.movers == t.movers + [StartMoving(t.current).value] && StartsAtFirstPoint(StartMoving(t.current).value)
      else u.movers == t.movers
  {
  }

  /**
   * Without emitter number -1, a successful parse yields one emitter more than
   * there are changes of emitter number, and each starts at its first point.
   */
  lemma ParseMovingCount(lines: seq<string>, parseInt: string -> Option<int>, parseDouble: string -> Option<real>)
    requires NoSentinelEmitter(lines, parseInt, parseDouble)
    requires ParseMoving(lines, parseInt, parseDouble).Success?
    ensures var ms := ParseMoving(lines, parseInt, parseDouble).value;
      |ms| == Changes(DataIds(lines, parseInt, parseDouble)) + 1 &&
      forall m :: m in ms ==> StartsAtFirstPoint(m)
  {
    TrackMoversCount(lines, parseInt, parseDouble);
    TrackMoversStart(lines, parseInt, parseDouble);
    var t := Track(lines, parseInt, parseDouble).value;
    StartMovingIsFirstPoint(t.current);
  }

  /** Every state the parser reaches has points once it has taken an emitter number. */
  predicate Reachable(t: Tracker) {
    |t.current| == 0 ==> t.trajectoryNo == -1
  }

  lemma AcceptFromReachable(t: Tracker, d: DataLine, lineNo: nat)
    requires Reachable(t)
    ensures Accept(t, d, lineNo) != Failure(EmptyTrajectory)
    ensures Accept(t, d, lineNo).Success? ==> |Accept(t, d, lineNo).value.current| >= 1
  {
  }

  /** Every state the parser reaches has points once it has taken an emitter number, so closing never fails. */
  lemma {:induction false} TrackReachable(lines: seq<string>, parseInt: string -> Option<int>, parseDouble: string -> Option<real>)
    ensures Track(lines, parseInt, parseDouble) != Failure(EmptyTrajectory)
    ensures Track(lines, parseInt, parseDouble).Success? ==> Reachable(Track(lines, parseInt, parseDouble).value)
  {
    if |lines| > 0 {
      var n := |lines| - 1;
      var pre := lines[..n];
      TrackReachable(pre, parseInt, parseDouble);
      if Track(pre, parseInt, parseDouble).Success? {
        var t := Track(pre, parseInt, parseDouble).value;
        assert Track(lines, parseInt, parseDouble) == Step(t, lines[n], n, parseInt, parseDouble);
        StepFromReachable(t, lines[n], n, parseInt, parseDouble);
      } else {
        assert Track(lines, parseInt, parseDouble) == Track(pre, parseInt, parseDouble);
      }
    }
  }

  lemma StepFromReachable(t: Tracker, line: string, lineNo: nat, parseInt: string -> Option<int>, parseDouble: string -> Option<real>)
    requires Reachable(t)
    ensures Step(t, line, lineNo, parseInt, parseDouble) != Failure(EmptyTrajectory)
    ensures Step(t, line, lineNo, parseInt, parseDouble).Success? ==> Reachable(Step(t, line, lineNo, parseInt, parseDouble).value)
  {
    if !IsComment(line) {
      var parsed := ReadDataLine(line, lineNo, parseInt, parseDouble);
      if parsed.Success? {
        AcceptFromReachable(t, parsed.value, lineNo);
      } else {
        assert parsed.error != EmptyTrajectory;
      }
    }
  }

  /** After the lines, the trajectory is empty exactly when every line was a comment. */
  lemma {:induction false} TrackEmptyIffComments(lines: seq<string>, parseInt: string -> Option<int>, parseDouble: string -> Option<real>)
    requires Track(lines, parseInt, parseDouble).Success?
    ensures |Track(lines, parseInt, parseDouble).value.current| == 0 <==> forall k :: 0 <= k < |lines| ==> IsComment(lines[k])
  {
    if |lines| > 0 {
      var n := |lines| - 1;
      var pre := lines[..n];
      assert forall k :: 0 <= k < n ==> pre[k] == lines[k];
      TrackEmptyIffComments(pre, parseInt, parseDouble);
      var t := Track(pre, parseInt, parseDouble).value;
      if !IsComment(lines[n]) {
        var d := ReadDataLine(lines[n], n, parseInt, parseDouble).value;
        TrackReachable(pre, parseInt, parseDouble);
        AcceptFromReachable(t, d, n);
      } else {
        assert Track(lines, parseInt, parseDouble).value == t;
      }
    }
  }

  /** A file with no data line fails when the last trajectory is closed; any other file does not fail that way. */
  lemma ParseMovingEmptyIff(lines: seq<string>, parseInt: string -> Option<int>, parseDouble: string -> Option<real>)
    ensures ParseMoving(lines, parseInt, parseDouble) == Failure(EmptyTrajectory) <==>
      forall k :: 0 <= k < |lines| ==> IsComment(lines[k])
  {
    TrackReachable(lines, parseInt, parseDouble);
    if Track(lines, parseInt, parseDouble).Success? {
      TrackEmptyIffComments(lines, parseInt, parseDouble);
    }
    if forall k :: 0 <= k < |lines| ==> IsComment(lines[k]) {
      if Track(lines, parseInt, parseDouble).Failure? {
        TrackFirstFailureIsData(lines, parseInt, parseDouble);
      }
    }
  }

  /** Comment lines never fail, so a failing parse has a data line. */
  lemma {:induction false} TrackFirstFailureIsData(lines: seq<string>, parseInt: string -> Option<int>, parseDouble: string -> Option<real>)
    requires Track(lines, parseInt, parseDouble).Failure?
    ensures exists k :: 0 <= k < |lines| && !IsComment(lines[k])
  {
    var n := |lines| - 1;
    var pre := lines[..n];
    if Track(pre, parseInt, parseDouble).Failure? {
      TrackFirstFailureIsData(pre, parseInt, parseDouble);
      var k :| 0 <= k < |pre| && !IsComment(pre[k]);
      assert lines[k] == pre[k];
    } else {
      assert !IsComment(lines[n]);
    }
  }

  /**
   * Emitter number -1 collides with the "no trajectory yet" value: a line of
   * emitter -1 followed by one of emitter 3 gives a single trajectory holding
   * both points, and the frame count restarts at 1 for the second line.
   */
  lemma SentinelMergesTrajectories(x0: real, y0: real, x1: real, y1: real)
    ensures Accept(Start, DataLine(-1, 1, x0, y0), 0).Success?
    ensures var t := Accept(Start, DataLine(-1, 1, x0, y0), 0).value;
      Accept(t, DataLine(3, 1, x1, y1), 1) ==
        Success(Tracker(3, 2, [Point(x0, y0), Point(x1, y1)], x1, y1, []))
  {
    var t := Accept(Start, DataLine(-1, 1, x0, y0), 0).value;
    assert GapPoints(1, x0, y0, x0, y0) == [];
    assert t == Tracker(-1, 2, [Point(x0, y0)], x0, y0, []);
    assert GapPoints(1, x1, y1, x1, y1) == [];
    var a := Adopt(t, DataLine(3, 1, x1, y1));
    assert a == Tracker(3, 1, [Point(x0, y0)], x1, y1, []);
    assert Switch(a, DataLine(3, 1, x1, y1)) == Success(a);
    assert [Point(x0, y0)] + GapPoints(1, x1, y1, x1, y1) + [Point(x1, y1)] == [Point(x0, y0), Point(x1, y1)];
  }
}
