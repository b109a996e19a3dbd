/**
 * The per-frame position logger: a filename, a logging flag and six parallel
 * lists (frame, emitter id, x, y, z, time on), one entry per logged call.
 * Saving writes a header line and one comma-separated row per entry.
 * Choosing a file name that already exists picks the first free
 * `stem_k.ext`, k = 1, 2, ...; the names on disk are passed in as a set.
 */
module FrameLog {
  import opened Wrappers
  import opened Text

  // ---------------------------------------------------------------- unique names

  /** The position of the last '.' after the last '/', if any: where the extension starts. */
  function ExtensionStart(name: string): (i: Option<nat>)
    ensures i.Some? ==> (i.value < |name| && name[i.value] == '.' &&
                         forall k :: i.value < k < |name| ==> name[k] != '.' && name[k] != '/')
    ensures i.None? ==> forall k :: 0 <= k < |name| && name[k] == '.' ==> exists j :: k < j < |name| && name[j] == '/'
  {
    if |name| == 0 then None
    else if name[|name| - 1] == '/' then None
    else if name[|name| - 1] == '.' then Some(|name| - 1)
    else
      var rest := ExtensionStart(name[..|name| - 1]);
      assert forall k :: 0 <= k < |name| - 1 ==> name[..|name| - 1][k] == name[k];
      rest
  }

  /** The name up to its extension, and the extension with its '.'. */
  function Stem(name: string): string {
    var i := ExtensionStart(name);
    if i.None? then name else name[..i.value]
  }

  function Extension(name: string): string {
    var i := ExtensionStart(name);
    if i.None? then "" else name[i.value..]
  }

  lemma StemAndExtension(name: string)
    ensures Stem(name) + Extension(name) == name
  {
  }

  /** The k-th alternative to a taken name: `stem_k.ext`. */
  function Candidate(stem: string, ext: string, k: nat): string {
    stem + "_" + NatToString(k) + ext
  }

  /** The number in a candidate name reads back, so distinct numbers give distinct names. */
  lemma CandidateDigits(stem: string, ext: string, k: nat)
    ensures var c := Candidate(stem, ext, k);
      |c| == |stem| + 1 + |NatToString(k)| + |ext| && c[|stem| + 1..|c| - |ext|] == NatToString(k)
  {
    var c := Candidate(stem, ext, k);
    assert c == stem + "_" + NatToString(k) + ext;
  }

  lemma CandidateInjective(stem: string, ext: string, j: nat, k: nat)
    requires Candidate(stem, ext, j) == Candidate(stem, ext, k)
    ensures j == k
  {
    CandidateDigits(stem, ext, j);
    CandidateDigits(stem, ext, k);
    NatToStringRoundTrip(j);
    NatToStringRoundTrip(k);
  }

  /** The candidates 1 .. k - 1. */
  ghost function Taken(stem: string, ext: string, k: nat): set<string> {
    set j | 1 <= j < k :: Candidate(stem, ext, j)
  }

  lemma TakenStep(stem: string, ext: string, k: nat)
    requires k >= 1
    ensures Taken(stem, ext, k + 1) == Taken(stem, ext, k) + {Candidate(stem, ext, k)}
    ensures Candidate(stem, ext, k) !in Taken(stem, ext, k)
  {
    if Candidate(stem, ext, k) in Taken(stem, ext, k) {
      var j :| 1 <= j < k && Candidate(stem, ext, j) == Candidate(stem, ext, k);
      CandidateInjective(stem, ext, j, k);
    }
  }

  /** The first k >= from whose candidate is free, when the candidates below it are all taken. */
  function FirstFree(stem: string, ext: string, existing: set<string>, from: nat): (k: nat)
    requires from >= 1 && Taken(stem, ext, from) <= existing
    ensures k >= from && Candidate(stem, ext, k) !in existing
    ensures forall j :: from <= j < k ==> Candidate(stem, ext, j) in existing
    decreases existing - Taken(stem, ext, from)
  {
    if Candidate(stem, ext, from) !in existing then from
    else
      TakenStep(stem, ext, from);
      FirstFree(stem, ext, existing, from + 1)
  }

  /** The name setFilename keeps: the name itself when free, else the first free `stem_k.ext`. */
  function FreshName(name: string, existing: set<string>): string {
    if name !in existing then name
    else Candidate(Stem(name), Extension(name), FirstFree(Stem(name), Extension(name), existing, 1))
  }

  /**
   * The chosen name is never one that exists; a free name is kept verbatim,
   * and a taken one becomes `stem_k.ext` for the least k that is free.
   */
  lemma {:induction false} FreshNameIsFree(name: string, existing: set<string>)
    ensures FreshName(name, existing) !in existing
    ensures name !in existing ==> FreshName(name, existing) == name
    ensures name in existing ==>
      exists k: nat ::
        k >= 1 && FreshName(name, existing) == Candidate(Stem(name), Extension(name), k) &&
        forall j :: 1 <= j < k ==> Candidate(Stem(name), Extension(name), j) in existing
  {
    if name in existing {
      var stem, ext := Stem(name), Extension(name);
      assert Taken(stem, ext, 1) == {};
      var k := FirstFree(stem, ext, existing, 1);
      assert FreshName(name, existing) == Candidate(stem, ext, k);
    }
  }

  // ---------------------------------------------------------------- the log file

  const Header := "frame,id,x,y,z,time_on"

  /** One row; `format` writes a double (four decimals in the logger). */
  function Row(frame: int, id: int, x: real, y: real, z: real, timeOn: real, format: real -> string): string {
    Join([IntToString(frame), IntToString(id), format(x), format(y), format(z), format(timeOn)], ',')
  }

  /** A row splits back into its six fields, and the two integers read back, when no number is written with a comma. */
  lemma RowRoundTrip(frame: int, id: int, x: real, y: real, z: real, timeOn: real, format: real -> string)
    requires forall v :: ',' !in format(v)
    ensures var fs := Fields(Row(frame, id, x, y, z, timeOn, format), ',');
      fs == [IntToString(frame), IntToString(id), format(x), format(y), format(z), format(timeOn)] &&
      IntValue(fs[0]) == Some(frame) && IntValue(fs[1]) == Some(id)
  {
    var parts := [IntToString(frame), IntToString(id), format(x), format(y), format(z), format(timeOn)];
    NoCommaInInt(frame);
    NoCommaInInt(id);
    FieldsOfJoin(parts, ',');
    IntToStringRoundTrip(frame);
    IntToStringRoundTrip(id);
  }

  /** A row is the six values with a comma between each two. */
  lemma RowText(frame: int, id: int, x: real, y: real, z: real, timeOn: real, format: real -> string)
    ensures Row(frame, id, x, y, z, timeOn, format) ==
      IntToString(frame) + "," + IntToString(id) + "," + format(x) + "," + format(y) + "," + format(z) + "," + format(timeOn)
  {
    JoinSix(IntToString(frame), IntToString(id), format(x), format(y), format(z), format(timeOn), ',');
  }

  lemma JoinSix(a: string, b: string, c: string, d: string, e: string, f: string, sep: char)
    ensures Join([a, b, c, d, e, f], sep) == a + [sep] + b + [sep] + c + [sep] + d + [sep] + e + [sep] + f
  {
    var p := [a, b, c, d, e, f];
    assert p[1..] == [b, c, d, e, f];
    assert [b, c, d, e, f][1..] == [c, d, e, f];
    assert [c, d, e, f][1..] == [d, e, f];
    assert [d, e, f][1..] == [e, f];
    assert [e, f][1..] == [f];
    assert Join([e, f], sep) == e + [sep] + f;
    assert Join([d, e, f], sep) == d + [sep] + (e + [sep] + f);
    assert Join([c, d, e, f], sep) == c + [sep] + (d + [sep] + (e + [sep] + f));
    assert Join([b, c, d, e, f], sep) == b + [sep] + (c + [sep] + (d + [sep] + (e + [sep] + f)));
  }

  lemma NoCommaInInt(i: int)
    ensures ',' !in IntToString(i)
  {
    var s := if i < 0 then NatToString(-i) else NatToString(i);
    assert IsDigits(s);
    assert forall k :: 0 <= k < |s| ==> s[k] != ',';
    if i < 0 {
      assert IntToString(i) == "-" + s;
      assert forall k :: 0 <= k < |IntToString(i)| ==> IntToString(i)[k] != ',';
    }
  }

  // ---------------------------------------------------------------- the logger

  class FrameLogger {
    var filename: string
    var performLogging: bool
    var frame: seq<int>
    var id: seq<int>
    var x: seq<real>
    var y: seq<real>
    var z: seq<real>
    var timeOn: seq<real>

    /** The six lists are parallel: entry k of each comes from the k-th logged call. */
    ghost predicate Valid()
      reads this
    {
      |id| == |frame| && |x| == |frame| && |y| == |frame| && |z| == |frame| && |timeOn| == |frame|
    }

    constructor ()
      ensures Valid() && filename == "" && !performLogging
      ensures frame == [] && id == [] && x == [] && y == [] && z == [] && timeOn == []
    {
      filename := "";
      performLogging := false;
      frame, id, x, y, z, timeOn := [], [], [], [], [], [];
    }

    /** Appends one entry to the six lists while logging is on; does nothing otherwise. */
    method LogFrame(f: int, emitter: int, px: real, py: real, pz: real, t: real)
      requires Valid()
      modifies this
      ensures Valid() && filename == old(filename) && performLogging == old(performLogging)
      ensures old(performLogging) ==>
        frame == old(frame) + [f] && id == old(id) + [emitter] && x == old(x) + [px] &&
        y == old(y) + [py] && z == old(z) + [pz] && timeOn == old(timeOn) + [t]
      ensures !old(performLogging) ==>
        frame == old(frame) && id == old(id) && x == old(x) && y == old(y) && z == old(z) && timeOn == old(timeOn)
    {
      if performLogging {
        frame, id := frame + [f], id + [emitter];
        x, y, z, timeOn := x + [px], y + [py], z + [pz], timeOn + [t];
      }
    }

    /** Back to the initial state: no file name, logging off, nothing logged. */
    method Reset()
      modifies this
      ensures Valid() && filename == "" && !performLogging
      ensures frame == [] && id == [] && x == [] && y == [] && z == [] && timeOn == []
    {
      filename := "";
      performLogging := false;
      frame, id, x, y, z, timeOn := [], [], [], [], [], [];
    }

    method SetPerformLogging(b: bool)
      modifies this`performLogging
      ensures performLogging == b
    {
      performLogging := b;
    }

    /** Keeps the name if no file has it, otherwise the first free `stem_k.ext`. */
    method SetFilename(name: string, existing: set<string>)
      modifies this`filename
      ensures filename == FreshName(name, existing)
    {
      if name !in existing {
        filename := name;
        return;
      }
      var stem, ext := Stem(name), Extension(name);
      var k := 1;
      assert Taken(stem, ext, 1) == {};
      while Candidate(stem, ext, k) in existing
        invariant k >= 1 && Taken(stem, ext, k) <= existing
        invariant FirstFree(stem, ext, existing, k) == FirstFree(stem, ext, existing, 1)
        decreases existing - Taken(stem, ext, k)
      {
        TakenStep(stem, ext, k);
        k := k + 1;
      }
      filename := Candidate(stem, ext, k);
    }

    /** The lines of the saved file: the header, then one row per entry in call order. */
    method SaveLogFile(format: real -> string) returns (lines: seq<string>)
      requires Valid()
      ensures |lines| == |frame| + 1 && lines[0] == Header
      ensures forall k :: 0 <= k < |frame| ==>
        lines[k + 1] == Row(frame[k], id[k], x[k], y[k], z[k], timeOn[k], format)
    {
      lines := [Header];
      var k := 0;
      while k < |frame|
        invariant 0 <= k <= |frame| && |lines| == k + 1 && lines[0] == Header
        invariant forall j :: 0 <= j < k ==> lines[j + 1] == Row(frame[j], id[j], x[j], y[j], z[j], timeOn[j], format)
      {
        lines := lines + [Row(frame[k], id[k], x[k], y[k], z[k], timeOn[k], format)];
        k := k + 1;
      }
    }
  }

  // ---------------------------------------------------------------- the logger's unit tests, as contracts

  /** A logged entry reads back unchanged from each of the six lists. */
  method LogFrameReadsBack() returns (f: int, emitter: int, px: real, py: real, pz: real, t: real)
    ensures f == 4 && emitter == 1 && px == 2.3 && py == 2.5 && pz == 0.7 && t == 0.8
  {
    var logger := new FrameLogger();
    logger.SetPerformLogging(true);
    logger.LogFrame(4, 1, 2.3, 2.5, 0.7, 0.8);
    f, emitter, px, py, pz, t := logger.frame[0], logger.id[0], logger.x[0], logger.y[0], logger.z[0], logger.timeOn[0];
  }

  /** A free name is kept; reset then clears the name, the flag and the six lists. */
  method ResetClears() returns (nameBefore: string, loggingBefore: bool, nameAfter: string, loggingAfter: bool, sizes: seq<nat>)
    ensures nameBefore == "textLogFile.txt" && loggingBefore
    ensures nameAfter == "" && !loggingAfter && sizes == [0, 0, 0, 0, 0, 0]
  {
    var logger := new FrameLogger();
    logger.SetFilename("textLogFile.txt", {});
    logger.SetPerformLogging(true);
    logger.LogFrame(1, 1, 10.0, 0.4, 0.8, 0.9);
    nameBefore, loggingBefore := logger.filename, logger.performLogging;
    logger.Reset();
    nameAfter, loggingAfter := logger.filename, logger.performLogging;
    sizes := [|logger.frame|, |logger.id|, |logger.x|, |logger.y|, |logger.z|, |logger.timeOn|];
  }

  /** The logger of the save test, after its two frames are logged. */
  method LogTwoFrames() returns (logger: FrameLogger)
    ensures fresh(logger) && logger.Valid()
    ensures logger.frame == [1, 2] && logger.id == [1, 5] && logger.x == [10.0, 20.0]
    ensures logger.y == [5.0, 5.0] && logger.z == [1.0, 1.1] && logger.timeOn == [0.8, 0.6]
  {
    logger := new FrameLogger();
    logger.SetFilename("testLogFile.txt", {"testLogFile.txt"});
    logger.SetPerformLogging(true);
    logger.LogFrame(1, 1, 10.0, 5.0, 1.0, 0.8);
    logger.LogFrame(2, 5, 20.0, 5.0, 1.1, 0.6);
  }

  /** Two logged entries give the header and their two rows, in call order. */
  method SavedRows(format: real -> string) returns (lines: seq<string>)
    ensures lines == [Header, Row(1, 1, 10.0, 5.0, 1.0, 0.8, format), Row(2, 5, 20.0, 5.0, 1.1, 0.6, format)]
  {
    var logger := LogTwoFrames();
    lines := logger.SaveLogFile(format);
    assert |lines| == 3 && lines[0] == Header;
    assert lines[0 + 1] == Row(logger.frame[0], logger.id[0], logger.x[0], logger.y[0], logger.z[0], logger.timeOn[0], format);
    assert lines[1 + 1] == Row(logger.frame[1], logger.id[1], logger.x[1], logger.y[1], logger.z[1], logger.timeOn[1], format);
    assert lines[1] == Row(1, 1, 10.0, 5.0, 1.0, 0.8, format);
    assert lines[2] == Row(2, 5, 20.0, 5.0, 1.1, 0.6, format);
  }

  /** The two rows' text, the doubles written with four decimals. */
  lemma FirstRowText(format: real -> string)
    requires format(10.0) == "10.0000" && format(5.0) == "5.0000" && format(1.0) == "1.0000" && format(0.8) == "0.8000"
    ensures Row(1, 1, 10.0, 5.0, 1.0, 0.8, format) == "1,1,10.0000,5.0000,1.0000,0.8000"
  {
    RowText(1, 1, 10.0, 5.0, 1.0, 0.8, format);
    assert IntToString(1) == "1";
    assert "1" + "," + "1" + "," == "1,1,";
    assert "1,1," + "10.0000" + "," == "1,1,10.0000,";
    assert "1,1,10.0000," + "5.0000" + "," == "1,1,10.0000,5.0000,";
    assert "1,1,10.0000,5.0000," + "1.0000" + "," == "1,1,10.0000,5.0000,1.0000,";
    assert "1,1,10.0000,5.0000,1.0000," + "0.8000" == "1,1,10.0000,5.0000,1.0000,0.8000";
  }

  lemma SecondRowText(format: real -> string)
    requires format(20.0) == "20.0000" && format(5.0) == "5.0000" && format(1.1) == "1.1000" && format(0.6) == "0.6000"
    ensures Row(2, 5, 20.0, 5.0, 1.1, 0.6, format) == "2,5,20.0000,5.0000,1.1000,0.6000"
  {
    RowText(2, 5, 20.0, 5.0, 1.1, 0.6, format);
    assert IntToString(2) == "2" && IntToString(5) == "5";
    assert "2" + "," + "5" + "," == "2,5,";
    assert "2,5," + "20.0000" + "," == "2,5,20.0000,";
    assert "2,5,20.0000," + "5.0000" + "," == "2,5,20.0000,5.0000,";
    assert "2,5,20.0000,5.0000," + "1.1000" + "," == "2,5,20.0000,5.0000,1.1000,";
    assert "2,5,20.0000,5.0000,1.1000," + "0.6000" == "2,5,20.0000,5.0000,1.1000,0.6000";
  }

  /** The test's file name splits at its last dot. */
  lemma TestNameSplits()
    ensures Stem("tmp/testLogFile.txt") == "tmp/testLogFile" && Extension("tmp/testLogFile.txt") == ".txt"
  {
    var name := "tmp/testLogFile.txt";
    assert ExtensionStart("tmp/testLogFile.") == Some(15);
    assert "tmp/testLogFile.t"[..16] == "tmp/testLogFile.";
    assert ExtensionStart("tmp/testLogFile.t") == Some(15);
    assert "tmp/testLogFile.tx"[..17] == "tmp/testLogFile.t";
    assert ExtensionStart("tmp/testLogFile.tx") == Some(15);
    assert name[..18] == "tmp/testLogFile.tx";
    assert ExtensionStart(name) == Some(15);
  }

  /** The first two numbered candidates for the test's file name. */
  lemma TestCandidates()
    ensures Candidate("tmp/testLogFile", ".txt", 1) == "tmp/testLogFile_1.txt"
    ensures Candidate("tmp/testLogFile", ".txt", 2) == "tmp/testLogFile_2.txt"
  {
    assert NatToString(1) == "1" && NatToString(2) == "2";
    assert "tmp/testLogFile" + "_" + "1" == "tmp/testLogFile_1";
    assert "tmp/testLogFile" + "_" + "2" == "tmp/testLogFile_2";
  }

  /** A taken name becomes `stem_1.ext`, and once that exists too, `stem_2.ext`. */
  method UniqueNames() returns (first: string, second: string)
    ensures first == "tmp/testLogFile_1.txt" && second == "tmp/testLogFile_2.txt"
  {
    var name := "tmp/testLogFile.txt";
    TestNameSplits();
    TestCandidates();
    var logger := new FrameLogger();
    assert "tmp/testLogFile_1.txt" != name && "tmp/testLogFile_2.txt" != name;
    assert "tmp/testLogFile_2.txt" != "tmp/testLogFile_1.txt";
    assert FirstFree("tmp/testLogFile", ".txt", {name}, 1) == 1;
    logger.SetFilename("tmp/testLogFile.txt", {"tmp/testLogFile.txt"});
    first := logger.filename;
    TakenStep("tmp/testLogFile", ".txt", 1);
    assert Taken("tmp/testLogFile", ".txt", 1) == {};
    assert FirstFree("tmp/testLogFile", ".txt", {name, first}, 2) == 2;
    assert FirstFree("tmp/testLogFile", ".txt", {name, first}, 1) == 2;
    logger.SetFilename("tmp/testLogFile.txt", {"tmp/testLogFile.txt", first});
    second := logger.filename;
  }
}
