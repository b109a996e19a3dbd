/**
 * Loading static emitter positions from a CSV file: every line that is not a
 * comment holds x and y (mandatory) and z (optional); entries with a negative
 * x or y are ignored, the others are shifted by half a pixel; the list is then
 * either cropped to the camera frame or rescaled to the frame width.
 */
module StaticCsv {
  import opened Wrappers
  import opened Text
  import opened Csv
  import opened Emitters

  // ---------------------------------------------------------------- one line

  /**
   * What line number `lineNo` contributes: nothing (a comment, or a negative
   * position), one emitter, or the error that aborts the whole load. Only a
   * missing third column falls back to z = 0; an unreadable one is an error.
   */
  function ReadLine(line: string, lineNo: nat, parseDouble: string -> Option<real>): Result<Option<Fluorophore>, CsvError>
  {
    if IsComment(line) then Success(None)
    else
      var entries := JavaSplit(line, ',');
      var x :- Column(entries, 0, lineNo, parseDouble);
      var y :- Column(entries, 1, lineNo, parseDouble);
      var z :- if |entries| <= 2 then Success(0.0) else Column(entries, 2, lineNo, parseDouble);
      if x >= 0.0 && y >= 0.0 then Success(Some(Fluorophore(x - 0.5, y - 0.5, z))) else Success(None)
  }

  function Contribution(one: Option<Fluorophore>): (r: seq<Fluorophore>)
  {
    match one
    case None => []
    case Some(f) => [f]
  }

  /**
   * A line whose text fields are x, y and then only empty fields ("1.5,2.5" or
   * "1.5,2.5,,") gets depth 0, because Java's split drops the empty trailing
   * fields; an emitter is stored exactly when x and y are not negative.
   */
  lemma ReadLineWithoutDepth(line: string, lineNo: nat, parseDouble: string -> Option<real>, x: real, y: real)
    requires !IsComment(line)
    requires |Fields(line, ',')| >= 2 && Fields(line, ',')[1] != ""
    requires forall k :: 2 <= k < |Fields(line, ',')| ==> Fields(line, ',')[k] == ""
    requires parseDouble(Fields(line, ',')[0]) == Some(x) && parseDouble(Fields(line, ',')[1]) == Some(y)
    ensures ReadLine(line, lineNo, parseDouble) ==
      Success(if x >= 0.0 && y >= 0.0 then Some(Fluorophore(x - 0.5, y - 0.5, 0.0)) else None)
  {
    var fs := Fields(line, ',');
    if ',' !in line {
      FieldsWithoutSeparator(line, ',');
      assert false;
    }
    JavaSplitFields(line, ',');
    var e := JavaSplit(line, ',');
    assert e == DropTrailingEmpty(fs);
    assert |e| == 2;
    assert e[0] == fs[0] && e[1] == fs[1];
  }

  /** A line with three or more fields takes its depth from the third one; further fields are ignored. */
  lemma ReadLineWithDepth(line: string, lineNo: nat, parseDouble: string -> Option<real>, x: real, y: real, z: real)
    requires !IsComment(line)
    requires |JavaSplit(line, ',')| >= 3
    requires parseDouble(JavaSplit(line, ',')[0]) == Some(x)
    requires parseDouble(JavaSplit(line, ',')[1]) == Some(y)
    requires parseDouble(JavaSplit(line, ',')[2]) == Some(z)
    ensures ReadLine(line, lineNo, parseDouble) ==
      Success(if x >= 0.0 && y >= 0.0 then Some(Fluorophore(x - 0.5, y - 0.5, z)) else None)
  {
  }

  /** A third field that is present but not a number aborts the load; it does not default to 0. */
  lemma ReadLineBadDepth(line: string, lineNo: nat, parseDouble: string -> Option<real>)
    requires !IsComment(line)
    requires |JavaSplit(line, ',')| >= 3
    requires parseDouble(JavaSplit(line, ',')[0]).Some? && parseDouble(JavaSplit(line, ',')[1]).Some?
    requires parseDouble(JavaSplit(line, ',')[2]).None?
    ensures ReadLine(line, lineNo, parseDouble) == Failure(NotANumber(lineNo, 2))
  {
  }

  // ---------------------------------------------------------------- whole file

  /** The emitters of a file, or the error of its first bad line. */
  function StaticEntries(lines: seq<string>, parseDouble: string -> Option<real>): Result<seq<Fluorophore>, CsvError>
  {
    if |lines| == 0 then Success([])
    else
      var before :- StaticEntries(lines[..|lines| - 1], parseDouble);
      var one :- ReadLine(lines[|lines| - 1], |lines| - 1, parseDouble);
      Success(before + Contribution(one))
  }

  /** Loading succeeds exactly when every line can be read. */
  lemma {:induction false} StaticEntriesSucceedsIff(lines: seq<string>, parseDouble: string -> Option<real>)
    ensures StaticEntries(lines, parseDouble).Success? <==>
      forall k :: 0 <= k < |lines| ==> ReadLine(lines[k], k, parseDouble).Success?
  {
    if |lines| > 0 {
      var n := |lines| - 1;
      StaticEntriesSucceedsIff(lines[..n], parseDouble);
      assert forall k :: 0 <= k < n ==> lines[..n][k] == lines[k];
    }
  }

  /** A failed load reports the error of the first line that cannot be read. */
  lemma {:induction false} StaticEntriesFirstError(lines: seq<string>, parseDouble: string -> Option<real>)
    requires StaticEntries(lines, parseDouble).Failure?
    ensures exists k ::
              0 <= k < |lines| &&
              ReadLine(lines[k], k, parseDouble) == Failure(StaticEntries(lines, parseDouble).error) &&
              (forall j :: 0 <= j < k ==> ReadLine(lines[j], j, parseDouble).Success?)
  {
    var n := |lines| - 1;
    var pre := lines[..n];
    assert forall k :: 0 <= k < n ==> pre[k] == lines[k];
    if StaticEntries(pre, parseDouble).Failure? {
      StaticEntriesFirstError(pre, parseDouble);
      var k :| 0 <= k < |pre| &&
        ReadLine(pre[k], k, parseDouble) == Failure(StaticEntries(pre, parseDouble).error) &&
        (forall j :: 0 <= j < k ==> ReadLine(pre[j], j, parseDouble).Success?);
      assert ReadLine(lines[k], k, parseDouble) == Failure(StaticEntries(lines, parseDouble).error);
    } else {
      StaticEntriesSucceedsIff(pre, parseDouble);
      assert ReadLine(lines[n], n, parseDouble) == Failure(StaticEntries(lines, parseDouble).error);
    }
  }

  /** Once the first n lines fail, the load fails with the same error whatever follows. */
  lemma {:induction false} StaticFailureSticks(lines: seq<string>, n: nat, parseDouble: string -> Option<real>)
    requires n <= |lines| && StaticEntries(lines[..n], parseDouble).Failure?
    ensures StaticEntries(lines, parseDouble) == StaticEntries(lines[..n], parseDouble)
  {
    if n == |lines| {
      assert lines[..n] == lines;
    } else {
      var m := |lines| - 1;
      assert lines[..m][..n] == lines[..n];
      StaticFailureSticks(lines[..m], n, parseDouble);
    }
  }

  /** The emitters of the first n lines come first, in the same order. */
  lemma {:induction false} StaticEntriesPrefix(lines: seq<string>, n: nat, parseDouble: string -> Option<real>)
    requires n <= |lines| && StaticEntries(lines, parseDouble).Success?
    ensures StaticEntries(lines[..n], parseDouble).Success?
    ensures StaticEntries(lines[..n], parseDouble).value <= StaticEntries(lines, parseDouble).value
  {
    if n == |lines| {
      assert lines[..n] == lines;
    } else {
      var m := |lines| - 1;
      assert lines[..m][..n] == lines[..n];
      StaticEntriesPrefix(lines[..m], n, parseDouble);
    }
  }

  /**
   * Input order is kept: what line k contributes sits in the result right
   * after everything the lines before it contribute.
   */
  lemma StaticEntriesLine(lines: seq<string>, k: nat, parseDouble: string -> Option<real>)
    requires k < |lines| && StaticEntries(lines, parseDouble).Success?
    ensures StaticEntries(lines[..k], parseDouble).Success? && ReadLine(lines[k], k, parseDouble).Success?
    ensures var before, all := StaticEntries(lines[..k], parseDouble).value, StaticEntries(lines, parseDouble).value;
      var mine := Contribution(ReadLine(lines[k], k, parseDouble).value);
      |before| + |mine| <= |all| && all[|before|..|before| + |mine|] == mine
  {
    StaticEntriesPrefix(lines, k + 1, parseDouble);
    var upTo := lines[..k + 1];
    assert upTo[..k] == lines[..k] && upTo[k] == lines[k];
    var before := StaticEntries(lines[..k], parseDouble).value;
    var one := ReadLine(lines[k], k, parseDouble).value;
    assert StaticEntries(upTo, parseDouble).value == before + Contribution(one);
    var all := StaticEntries(lines, parseDouble).value;
    assert before + Contribution(one) <= all;
  }

  /** A file of comments only yields no emitter. */
  lemma {:induction false} CommentsOnly(lines: seq<string>, parseDouble: string -> Option<real>)
    requires forall k :: 0 <= k < |lines| ==> IsComment(lines[k])
    ensures StaticEntries(lines, parseDouble) == Success([])
  {
    if |lines| > 0 {
      var n := |lines| - 1;
      assert forall k :: 0 <= k < n ==> lines[..n][k] == lines[k];
      CommentsOnly(lines[..n], parseDouble);
      assert ReadLine(lines[n], n, parseDouble) == Success(None);
      assert StaticEntries(lines, parseDouble) == Success([] + Contribution(None));
      assert [] + Contribution(None) == [];
    }
  }

  /** The read loop, stopping at the first line that cannot be read. */
  method ReadStaticCsv(lines: seq<string>, parseDouble: string -> Option<real>) returns (r: Result<seq<Fluorophore>, CsvError>)
    ensures r == StaticEntries(lines, parseDouble)
  {
    var result := [];
    var n := 0;
    while n < |lines|
      invariant 0 <= n <= |lines|
      invariant StaticEntries(lines[..n], parseDouble) == Success(result)
    {
      assert lines[..n + 1][..n] == lines[..n];
      var one := ReadLine(lines[n], n, parseDouble);
      if one.Failure? {
        assert StaticEntries(lines[..n + 1], parseDouble) == Failure(one.error);
        StaticFailureSticks(lines, n + 1, parseDouble);
        return Failure(one.error);
      }
      assert StaticEntries(lines[..n + 1], parseDouble) == Success(result + Contribution(one.value));
      result := result + Contribution(one.value);
      n := n + 1;
    }
    assert lines[..n] == lines;
    r := Success(result);
  }

  // ---------------------------------------------------------------- crop

  predicate InCameraFrame(f: Fluorophore, resX: int, resY: int) {
    f.x < resX as real && f.y < resY as real
  }

  /** The entries with x < resX and y < resY, in their order. */
  function Cropped(fs: seq<Fluorophore>, resX: int, resY: int): (r: seq<Fluorophore>)
  {
    if |fs| == 0 then []
    else
      var last := fs[|fs| - 1];
      Cropped(fs[..|fs| - 1], resX, resY) + (if InCameraFrame(last, resX, resY) then [last] else [])
  }

  method Crop(fs: seq<Fluorophore>, resX: int, resY: int) returns (r: seq<Fluorophore>)
    ensures r == Cropped(fs, resX, resY)
  {
    r := [];
    var n := 0;
    while n < |fs|
      invariant 0 <= n <= |fs|
      invariant r == Cropped(fs[..n], resX, resY)
    {
      assert fs[..n + 1][..n] == fs[..n];
      if fs[n].x < resX as real && fs[n].y < resY as real {
        r := r + [fs[n]];
      }
      n := n + 1;
    }
    assert fs[..n] == fs;
  }

  /** Cropping works entry by entry: it distributes over concatenation. */
  lemma {:induction false} CroppedConcat(a: seq<Fluorophore>, b: seq<Fluorophore>, resX: int, resY: int)
    ensures Cropped(a + b, resX, resY) == Cropped(a, resX, resY) + Cropped(b, resX, resY)
  {
    if |b| == 0 {
      assert a + b == a;
    } else {
      var n := |b| - 1;
      assert (a + b)[..|a + b| - 1] == a + b[..n];
      CroppedConcat(a, b[..n], resX, resY);
    }
  }

  /** An emitter survives cropping exactly when it was loaded and lies in the frame. */
  lemma {:induction false} CroppedMembers(fs: seq<Fluorophore>, resX: int, resY: int, f: Fluorophore)
    ensures f in Cropped(fs, resX, resY) <==> f in fs && InCameraFrame(f, resX, resY)
  {
    if |fs| > 0 {
      var n := |fs| - 1;
      CroppedMembers(fs[..n], resX, resY, f);
      assert fs == fs[..n] + [fs[n]];
    }
  }

  /** Cropping drops only: the result is never longer, and a second crop changes nothing. */
  lemma {:induction false} CroppedIdempotent(fs: seq<Fluorophore>, resX: int, resY: int)
    ensures |Cropped(fs, resX, resY)| <= |fs|
    ensures Cropped(Cropped(fs, resX, resY), resX, resY) == Cropped(fs, resX, resY)
  {
    if |fs| > 0 {
      var n := |fs| - 1;
      var last := fs[n];
      CroppedIdempotent(fs[..n], resX, resY);
      var tail := if InCameraFrame(last, resX, resY) then [last] else [];
      CroppedConcat(Cropped(fs[..n], resX, resY), tail, resX, resY);
      assert Cropped(tail, resX, resY) == tail by {
        if |tail| == 1 {
          assert tail[..0] == [];
        }
      }
    }
  }

  // ---------------------------------------------------------------- rescale

  /** The largest x, starting from 0.0, as the loop over the loaded entries finds it. */
  function MaxX(fs: seq<Fluorophore>): real
  {
    if |fs| == 0 then 0.0
    else
      var m := MaxX(fs[..|fs| - 1]);
      if fs[|fs| - 1].x > m then fs[|fs| - 1].x else m
  }

  /** MaxX is at least 0, bounds every x, and is 0 or the x of some entry. */
  lemma {:induction false} MaxXIsMaximum(fs: seq<Fluorophore>)
    ensures MaxX(fs) >= 0.0
    ensures forall k :: 0 <= k < |fs| ==> fs[k].x <= MaxX(fs)
    ensures MaxX(fs) == 0.0 || exists k :: 0 <= k < |fs| && fs[k].x == MaxX(fs)
  {
    if |fs| > 0 {
      var n := |fs| - 1;
      MaxXIsMaximum(fs[..n]);
      assert forall k :: 0 <= k < n ==> fs[..n][k] == fs[k];
      if MaxX(fs) != 0.0 && MaxX(fs) != fs[n].x {
        var k :| 0 <= k < n && fs[..n][k].x == MaxX(fs[..n]);
        assert fs[k].x == MaxX(fs);
      }
    }
  }

  function RescaleFactor(fs: seq<Fluorophore>, resX: int): real
    requires MaxX(fs) > 0.0
  {
    resX as real / MaxX(fs)
  }

  /** Every entry with x and y multiplied by `factor`, z unchanged. */
  function Rescaled(fs: seq<Fluorophore>, factor: real): (r: seq<Fluorophore>)
  {
    seq(|fs|, k requires 0 <= k < |fs| => Fluorophore(fs[k].x * factor, fs[k].y * factor, fs[k].z))
  }

  /** The loop that finds the largest x, starting from 0.0. */
  method FindMaxX(fs: seq<Fluorophore>) returns (maxX: real)
    ensures maxX == MaxX(fs)
  {
    maxX := 0.0;
    var n := 0;
    while n < |fs|
      invariant 0 <= n <= |fs|
      invariant maxX == MaxX(fs[..n])
    {
      assert fs[..n + 1][..n] == fs[..n];
      if fs[n].x > maxX {
        maxX := fs[n].x;
      }
      n := n + 1;
    }
    assert fs[..n] == fs;
  }

  /** The loop that multiplies every x and y by `factor`. */
  method ScaleAll(fs: seq<Fluorophore>, factor: real) returns (r: seq<Fluorophore>)
    ensures r == Rescaled(fs, factor)
  {
    r := [];
    var n := 0;
    while n < |fs|
      invariant 0 <= n <= |fs|
      invariant |r| == n
      invariant forall k :: 0 <= k < n ==> r[k] == Fluorophore(fs[k].x * factor, fs[k].y * factor, fs[k].z)
    {
      r := r + [Fluorophore(fs[n].x * factor, fs[n].y * factor, fs[n].z)];
      n := n + 1;
    }
    var spec := Rescaled(fs, factor);
    assert |spec| == |r| && forall k :: 0 <= k < |r| ==> spec[k] == r[k];
  }

  /** Rescaling: x and y multiplied by resX / (largest x). */
  method Rescale(fs: seq<Fluorophore>, resX: int) returns (r: seq<Fluorophore>)
    requires |fs| > 0 ==> MaxX(fs) > 0.0
    ensures |fs| > 0 ==> r == Rescaled(fs, RescaleFactor(fs, resX))
    ensures |fs| == 0 ==> r == []
  {
    var maxX := FindMaxX(fs);
    r := [];
    if |fs| > 0 {
      var factor := resX as real / maxX;
      r := ScaleAll(fs, factor);
    }
  }

  lemma ScaleBelow(x: real, m: real, factor: real)
    requires x <= m && factor >= 0.0
    ensures x * factor <= m * factor
  {
  }

  lemma ScaleToWidth(m: real, w: real)
    requires m > 0.0
    ensures m * (w / m) == w
  {
  }

  /** An x up to the largest one, scaled by width / largest, stays within the width. */
  lemma ScaledWithinWidth(x: real, m: real, w: real)
    requires x <= m && m > 0.0 && w >= 0.0
    ensures x * (w / m) <= w
  {
    var f := w / m;
    assert m * f == w by { ScaleToWidth(m, w); }
    assert f >= 0.0;
    ScaleBelow(x, m, f);
  }

  /** Scaling by w / m keeps every x bounded by m within w, and every z. */
  lemma ScaledBounds(fs: seq<Fluorophore>, m: real, w: real)
    requires m > 0.0 && w >= 0.0
    requires forall k :: 0 <= k < |fs| ==> fs[k].x <= m
    ensures var r := Rescaled(fs, w / m);
      forall k :: 0 <= k < |r| ==> r[k].x <= w && r[k].z == fs[k].z
  {
    var r := Rescaled(fs, w / m);
    forall k | 0 <= k < |r|
      ensures r[k].x <= w && r[k].z == fs[k].z
    {
      ScaledWithinWidth(fs[k].x, m, w);
    }
  }

  /** Scaling by w / m takes an x equal to m to w. */
  lemma ScaledHits(fs: seq<Fluorophore>, m: real, w: real, k: nat)
    requires m > 0.0 && k < |fs| && fs[k].x == m
    ensures Rescaled(fs, w / m)[k].x == w
  {
    ScaleToWidth(m, w);
  }

  /**
   * After rescaling with a non-negative width, no x exceeds the width and the
   * entry with the largest x lands exactly on it; the count and every z are kept.
   */
  lemma RescaledFitsWidth(fs: seq<Fluorophore>, resX: int)
    requires MaxX(fs) > 0.0 && resX >= 0
    ensures var r := Rescaled(fs, RescaleFactor(fs, resX));
      |r| == |fs| &&
      (forall k :: 0 <= k < |r| ==> r[k].x <= resX as real && r[k].z == fs[k].z) &&
      exists k :: 0 <= k < |r| && r[k].x == resX as real
  {
    MaxXIsMaximum(fs);
    var m, w := MaxX(fs), resX as real;
    assert RescaleFactor(fs, resX) == w / m;
    ScaledBounds(fs, m, w);
    var k :| 0 <= k < |fs| && fs[k].x == m;
    ScaledHits(fs, m, w, k);
  }

  /** Rescaling maps onto the frame width only: y can end up outside the frame, and nothing is cropped. */
  lemma RescaleLeavesFrameExample()
    ensures MaxX([Fluorophore(1.0, 3.0, 0.0)]) == 1.0
    ensures Rescaled([Fluorophore(1.0, 3.0, 0.0)], RescaleFactor([Fluorophore(1.0, 3.0, 0.0)], 10)) ==
      [Fluorophore(10.0, 30.0, 0.0)]
  {
    var fs := [Fluorophore(1.0, 3.0, 0.0)];
    assert fs[..0] == [];
    assert MaxX(fs) == 1.0;
  }

  // ---------------------------------------------------------------- the generator

  /** The loaded emitters, then cropped to the frame, or rescaled to its width when `rescale` is set. */
  method GenerateFromCsv(lines: seq<string>, resX: int, resY: int, rescale: bool, parseDouble: string -> Option<real>)
    returns (r: Result<seq<Fluorophore>, CsvError>)
    requires rescale && StaticEntries(lines, parseDouble).Success? && |StaticEntries(lines, parseDouble).value| > 0
      ==> MaxX(StaticEntries(lines, parseDouble).value) > 0.0
    ensures StaticEntries(lines, parseDouble).Failure? ==> r == StaticEntries(lines, parseDouble)
    ensures StaticEntries(lines, parseDouble).Success? && !rescale ==>
      r == Success(Cropped(StaticEntries(lines, parseDouble).value, resX, resY))
    ensures StaticEntries(lines, parseDouble).Success? && rescale ==>
      var fs := StaticEntries(lines, parseDouble).value;
      r == Success(if |fs| == 0 then [] else Rescaled(fs, RescaleFactor(fs, resX)))
  {
    var loaded := ReadStaticCsv(lines, parseDouble);
    if loaded.Failure? {
      return loaded;
    }
    var result;
    if rescale {
      result := Rescale(loaded.value, resX);
    } else {
      result := Crop(loaded.value, resX, resY);
    }
    r := Success(result);
  }
}
