# A verified model of the SASS emitter generators, GUI model and frame logger

This project models in Dafny three parts of SASS, a simulator of single-molecule
localization microscopy:

- **The fluorophore generator.** The static factory places emitters in the
  camera's field of view, in one of five ways. Two draw positions at random
  (`Random2D`, `Random3D`). Two put them on a square grid (`Grid2D`, and
  `Grid3D`, which steps z from `zLow` towards `zHigh`). The fifth reads them
  from a CSV file: comment lines are skipped, x and y are shifted by half a
  pixel, entries with negative x or y are ignored, and the list is then cropped
  to the frame or rescaled to the frame width. A second CSV reader builds moving
  emitters. Lines `emitter,frame,x,y` with the same emitter number form one
  trajectory. A frame below the expected one is an error, and a gap between
  frames is filled by evenly spaced interpolated points.
- **The GUI's `Model`.** This is a record of 66 settings, each with a getter and
  a setter. Its `build()` turns the settings into the builders of a microscope:
  camera, laser, objective, stage, photophysics, fiducials, and the emitter,
  background and PSF builders picked by the current selection labels.
- **The frame logger.** It is a singleton that collects one row per logged
  emitter and frame, in six parallel lists. It picks a unique file name
  (`name_1.ext`, `name_2.ext`, ...) when the requested one exists, and saves a
  CSV with the header `frame,id,x,y,z,time_on`. Its source is not part of this
  model. Its contract is the one its unit test states.

Each loop of the generator is a Dafny `method` with loop invariants. The grid,
CSV and trajectory loops are proved equal to a specification function
(`GridColumns`, `Stacked`, `StaticEntries`, `Cropped`, `Rescaled`, `Track`), and
lemmas about those functions carry the properties. The two random layouts are
specified point by point instead: emitter k is built from draws 2k and 2k + 1
(2D) or 3k to 3k + 2 (3D) of the sequence of random numbers they are given. `Model` is a class holding a `Settings` value.
Each setter replaces one field. `Build` is a pure function that returns either
the microscope description or the null dereference on which `build()` would
throw. The logger is a class with `modifies` clauses. The unit test's four
scenarios are methods whose `ensures` clauses are the test's assertions.

Things outside the model are parameters:

- the uniform random draws, as `seq<real>` with every value in [0, 1);
- `Double.parseDouble` and `Integer.parseInt`, as functions from text to
  `Option`;
- the number format of the logger's doubles, as a function from `real` to text;
- the files that already exist, as a set of names;
- the contents of a CSV file, as a sequence of lines.

Modules:

- `Wrappers`: `Option` and `Result`.
- `Text`: Java's `String.split` on one character, and decimal text for integers.
- `Emitters`: the emitter records.
- `Csv`: the reader errors and the column access.
- `Layouts`: the random and grid generators.
- `StaticCsv`: the static CSV loader.
- `MovingCsv`: the trajectory reader.
- `SimulationModel`: `Model` and `build()`.
- `FrameLog`: the logger.

Two results about the source stand out:

- `build()` can never select the 3D grid. Its fourth emitter condition repeats
  the second one (grid label and *no* 3D), so the grid label with the 3D box
  ticked selects no emitter builder at all.
- `generateFluorophoresGrid3D` divides the z range by an area formula for the
  emitter count. The formula is the real count when both resolutions are
  multiples of the spacing, and then, with two or more grid points, the emitters
  end at `zHigh`. When the
  formula lies between 1 and the real count, and zLow < zHigh, the last emitter
  ends up above `zHigh` (`Layouts.Grid3DOvershoots`; a 105 x 105 camera with
  spacing 10 is one such case). When the formula is below 1 on a camera with
  two or more emitters, the step is negative and every emitter after the first
  lies below `zLow` (`Layouts.Grid3DUndershoots`; a 15 x 25 camera with spacing
  10 is one such case).

Both are listed under "Findings", each with a corrected definition next to the
one that follows the source.

The trajectory reader uses -1 both as its "no trajectory yet" value and as a
possible emitter number. A first line with emitter -1 is therefore merged into
the next trajectory (`MovingCsv.SentinelMergesTrajectories`). The invariants of
the reader are proved for files in which no data line has emitter number -1.

## Model

Helpers without a row of their own (`Layouts.Column`, `FrameLog.Candidate`,
`FrameLog.Stem`, `FrameLog.Extension`, `Text.IntToString`, `Text.NatToString`)
are covered by the rows of the members that use them: `Layouts.ColumnAt`,
`FrameLog.CandidateDigits`, `FrameLog.StemAndExtension` and the two round trips
of `Text`.

| member | source | states |
|---|---|---|
| Text.Fields | src/ch/epfl/leb/sass/simulator/generators/realtime/FluorophoreGenerator.java:343 | the fields between separators: there is at least one, and none contains the separator |
| Text.DropTrailingEmpty | src/ch/epfl/leb/sass/simulator/generators/realtime/FluorophoreGenerator.java:343 | removes exactly the empty fields at the end: the result is a prefix, everything after it is empty, and its own last field is not empty |
| Text.FieldsWithoutSeparator | src/ch/epfl/leb/sass/simulator/generators/realtime/FluorophoreGenerator.java:343 | a line without a comma is a single field |
| Text.JavaSplitFields | src/ch/epfl/leb/sass/simulator/generators/realtime/FluorophoreGenerator.java:343 | Java's split keeps every leading field unchanged and drops only empty ones at the end |
| Text.JavaSplit | src/ch/epfl/leb/sass/simulator/generators/realtime/FluorophoreGenerator.java:343 | Java's `line.split(",")`: a line without a comma is returned whole ("" gives [""]); otherwise the fields between commas less the trailing empty ones, so ",," gives no field |
| Text.FieldsOfJoin | src/ch/epfl/leb/sass/simulator/generators/realtime/FluorophoreGenerator.java:343 | splitting parts joined by a separator none of them contains gives the parts back |
| Text.NatToStringRoundTrip | test/ch/epfl/leb/sass/simulator/loggers/FrameLoggerTest.java:137-138 | the decimal digits of a natural number read back as that number |
| Text.IntToStringRoundTrip | test/ch/epfl/leb/sass/simulator/loggers/FrameLoggerTest.java:137-138 | the decimal text of any integer, negative ones with a minus sign, reads back as that integer |
| Layouts.ScaleInFrame | src/ch/epfl/leb/sass/simulator/generators/realtime/FluorophoreGenerator.java:88-89 | a coordinate res * u with u in [0, 1) lies in [0, res) |
| Layouts.DepthInRange | src/ch/epfl/leb/sass/simulator/generators/realtime/FluorophoreGenerator.java:121 | a depth (zHigh - zLow) * u + zLow lies in [zLow, zHigh) when zLow < zHigh |
| Layouts.DepthFlat | src/ch/epfl/leb/sass/simulator/generators/realtime/FluorophoreGenerator.java:121 | with zLow == zHigh every depth is zLow |
| Layouts.Random2D | src/ch/epfl/leb/sass/simulator/generators/realtime/FluorophoreGenerator.java:82-92 | makes max(numFluors, 0) emitters; emitter k is at (res_x * u_2k, res_y * u_2k+1, 0), so all lie in the camera frame |
| Layouts.Random3D | src/ch/epfl/leb/sass/simulator/generators/realtime/FluorophoreGenerator.java:113-124 | makes max(numFluors, 0) emitters from three draws each, all in the frame, with z in [zLow, zHigh), or exactly zLow when the bounds are equal |
| Layouts.GridSteps | src/ch/epfl/leb/sass/simulator/generators/realtime/FluorophoreGenerator.java:168-169 | the number of iterations n of `for (i = spacing; i < limit; i += spacing)`: n = 0 or n * spacing < limit, and (n + 1) * spacing >= limit |
| Layouts.GridStepsCount | src/ch/epfl/leb/sass/simulator/generators/realtime/FluorophoreGenerator.java:168-169 | the loop visits m * spacing exactly when m * spacing < limit, for every m >= 1 |
| Layouts.ColumnAt | src/ch/epfl/leb/sass/simulator/generators/realtime/FluorophoreGenerator.java:169-171 | the inner loop gives ny emitters, emitter b at y = (b + 1) * spacing in the column's x, at z = 0 |
| Layouts.GridColumnsLength | src/ch/epfl/leb/sass/simulator/generators/realtime/FluorophoreGenerator.java:168-172 | the 2D grid holds nx * ny emitters |
| Layouts.GridColumnsPoint | src/ch/epfl/leb/sass/simulator/generators/realtime/FluorophoreGenerator.java:168-172 | emitter k of the grid is grid point k, columns (fixed x) one after the other |
| Layouts.GridColumn2D | src/ch/epfl/leb/sass/simulator/generators/realtime/FluorophoreGenerator.java:169-171 | the inner loop's result equals the column function for GridSteps(res_y) rows |
| Layouts.GridColumns | src/ch/epfl/leb/sass/simulator/generators/realtime/FluorophoreGenerator.java:168-172 | the emitters of the nested loops: nx columns, column n at x = n * spacing holding the points y = spacing, ..., ny * spacing in order |
| Layouts.Grid2D | src/ch/epfl/leb/sass/simulator/generators/realtime/FluorophoreGenerator.java:163-173 | the nested loops' result equals the column-by-column grid of GridSteps(res_x) by GridSteps(res_y) points |
| Layouts.GridPointsOrdered | src/ch/epfl/leb/sass/simulator/generators/realtime/FluorophoreGenerator.java:168-172 | emitters come in strictly increasing (x, then y) order |
| Layouts.GridPointInFrame | src/ch/epfl/leb/sass/simulator/generators/realtime/FluorophoreGenerator.java:168-170 | every grid point has spacing <= x < res_x and spacing <= y < res_y |
| Layouts.GridExample | src/ch/epfl/leb/sass/simulator/generators/realtime/FluorophoreGenerator.java:163-173 | a 100 x 100 camera with spacing 10 gets 81 emitters, from (10, 10) to (90, 90) |
| Layouts.AdvanceClosedForm | src/ch/epfl/leb/sass/simulator/generators/realtime/FluorophoreGenerator.java:226 | after n steps of `z += zSpacing`, z is z0 + n * zSpacing |
| Layouts.AdvanceAdd | src/ch/epfl/leb/sass/simulator/generators/realtime/FluorophoreGenerator.java:226 | m steps then n steps of `z += zSpacing` equal m + n steps |
| Layouts.StackedAt | src/ch/epfl/leb/sass/simulator/generators/realtime/FluorophoreGenerator.java:225-226 | emitter k keeps its (x, y) and gets the depth after k increments |
| Layouts.Stacked | src/ch/epfl/leb/sass/simulator/generators/realtime/FluorophoreGenerator.java:220-226 | the emitters in creation order, the first at depth z0 and each next one `dz` deeper, as `z += zSpacing` after every `add` gives them |
| Layouts.StackedConcat | src/ch/epfl/leb/sass/simulator/generators/realtime/FluorophoreGenerator.java:223-228 | giving depths to two runs of emitters one after the other is giving depths to the concatenation, the second run starting where the first ended |
| Layouts.GridColumn3D | src/ch/epfl/leb/sass/simulator/generators/realtime/FluorophoreGenerator.java:224-227 | the inner loop of the 3D grid gives the column with consecutive depths, and returns the depth the next column starts from |
| Layouts.StackedGrid | src/ch/epfl/leb/sass/simulator/generators/realtime/FluorophoreGenerator.java:220-228 | the nested loops of the 3D grid give the 2D grid's points with depths zLow, zLow + dz, ... in creation order |
| Layouts.FormulaCount | src/ch/epfl/leb/sass/simulator/generators/realtime/FluorophoreGenerator.java:218 | numFluors, the emitter count the 3D grid assumes: (res_x - spacing)(res_y - spacing) / spacing / spacing |
| Layouts.ZSpacing | src/ch/epfl/leb/sass/simulator/generators/realtime/FluorophoreGenerator.java:219 | zSpacing = (zHigh - zLow) / (numFluors - 1), defined when the formula is not exactly 1 |
| Layouts.Grid3DStep | src/ch/epfl/leb/sass/simulator/generators/realtime/FluorophoreGenerator.java:219 | the step the 3D grid uses: ZSpacing, or 0 when the formula is exactly 1 and the camera holds at most one grid point, whose depth does not depend on the step |
| Layouts.Grid3D | src/ch/epfl/leb/sass/simulator/generators/realtime/FluorophoreGenerator.java:216-229 | the 3D grid is the 2D grid with depths stepped by (zHigh - zLow) / (numFluors - 1), numFluors being the area formula; when the formula is exactly 1 the camera holds at most one emitter, at zLow |
| Layouts.StackedIgnoresStep | src/ch/epfl/leb/sass/simulator/generators/realtime/FluorophoreGenerator.java:223-226 | on at most one emitter the step is never added: the single emitter keeps its (x, y) at depth z0 whatever the step |
| Layouts.Grid3DSinglePointExample | src/ch/epfl/leb/sass/simulator/generators/realtime/FluorophoreGenerator.java:216-229 | a 20 x 20 camera with spacing 10 makes the formula exactly 1 and still gets its single emitter (10, 10) at zLow |
| Layouts.FormulaOneWithTwoPointsExample | src/ch/epfl/leb/sass/simulator/generators/realtime/FluorophoreGenerator.java:218-219 | a 30 x 15 camera with spacing 10 makes the formula exactly 1 with two grid points, the case Grid3D excludes |
| Layouts.Grid3DPoint | src/ch/epfl/leb/sass/simulator/generators/realtime/FluorophoreGenerator.java:223-228 | emitter k of the 3D grid is grid point k at depth zLow + k * dz |
| Layouts.FormulaCountIs | src/ch/epfl/leb/sass/simulator/generators/realtime/FluorophoreGenerator.java:218 | when res - spacing is a * spacing and b * spacing on the two axes, the area formula equals a * b |
| Layouts.Grid3DReachesZHigh | src/ch/epfl/leb/sass/simulator/generators/realtime/FluorophoreGenerator.java:218-219 | when both resolutions are multiples of the spacing and there are two or more grid points, the formula is the real count nx * ny, and zLow + (count - 1) * zSpacing is zHigh |
| Layouts.StepsOfMultiple | src/ch/epfl/leb/sass/simulator/generators/realtime/FluorophoreGenerator.java:168 | for a limit that is a multiple of the spacing, the loop runs limit / spacing - 1 times |
| Layouts.StackedEnds | src/ch/epfl/leb/sass/simulator/generators/realtime/FluorophoreGenerator.java:220-226 | the first emitter is at zLow, and the last at zLow + (n - 1) * dz |
| Layouts.Grid3DEndsAtZHigh | src/ch/epfl/leb/sass/simulator/generators/realtime/FluorophoreGenerator.java:218-228 | on a camera whose resolutions are multiples of the spacing and which has two or more grid points, the first emitter is at zLow and the last one at zHigh |
| Layouts.Grid3DOvershootExample | src/ch/epfl/leb/sass/simulator/generators/realtime/FluorophoreGenerator.java:218-228 | on a 105 x 105 camera with spacing 10 there are 100 emitters, the formula gives 90.25, and emitter 100 lies above zHigh |
| Layouts.Grid3DOvershoots | src/ch/epfl/leb/sass/simulator/generators/realtime/FluorophoreGenerator.java:218-228 | whenever the formula lies strictly between 1 and the real emitter count and zLow < zHigh, the last emitter lies above zHigh |
| Layouts.Grid3DUndershoots | src/ch/epfl/leb/sass/simulator/generators/realtime/FluorophoreGenerator.java:218-228 | for every camera with formula below 1, two or more grid points and zLow < zHigh, the step is negative and every emitter after the first lies below zLow |
| Layouts.Grid3DUndershootExample | src/ch/epfl/leb/sass/simulator/generators/realtime/FluorophoreGenerator.java:218-228 | on a 15 x 25 camera with spacing 10 the formula is 0.75, the step is negative, and the second of the two emitters lies below zLow |
| Layouts.Grid3DCounted | src/ch/epfl/leb/sass/simulator/generators/realtime/FluorophoreGenerator.java:216-229 | the corrected 3D grid: the same positions, with the z step taken from the real emitter count |
| Layouts.CountedGrid3DEndsAtZHigh | src/ch/epfl/leb/sass/simulator/generators/realtime/FluorophoreGenerator.java:219 | with the counted step the first emitter is at zLow and the last at zHigh on every camera with at least two grid points |
| StaticCsv.ReadLineWithoutDepth | src/ch/epfl/leb/sass/simulator/generators/realtime/FluorophoreGenerator.java:343-358 | a line of x, y and only empty fields after them gets z = 0 (the ArrayIndexOutOfBounds fallback); it is stored, shifted by half a pixel, exactly when x >= 0 and y >= 0 |
| StaticCsv.ReadLine | src/ch/epfl/leb/sass/simulator/generators/realtime/FluorophoreGenerator.java:338-358 | one line of the loader: a comment contributes nothing; otherwise x, y and z (0 when there is no third field) are parsed, an unreadable one aborting, and the emitter (x - 0.5, y - 0.5, z) is kept when x >= 0 and y >= 0 |
| StaticCsv.ReadLineWithDepth | src/ch/epfl/leb/sass/simulator/generators/realtime/FluorophoreGenerator.java:343-358 | a line with a third field gives (x - 0.5, y - 0.5, z), or nothing when x or y is negative |
| StaticCsv.ReadLineBadDepth | src/ch/epfl/leb/sass/simulator/generators/realtime/FluorophoreGenerator.java:347-349 | an unreadable third field is an error, not z = 0 (only the missing field is caught) |
| StaticCsv.StaticEntriesSucceedsIff | src/ch/epfl/leb/sass/simulator/generators/realtime/FluorophoreGenerator.java:336-359 | the load succeeds exactly when every line reads |
| StaticCsv.StaticEntries | src/ch/epfl/leb/sass/simulator/generators/realtime/FluorophoreGenerator.java:336-359 | the read loop: the emitters of the lines in file order, or the error of the first line that throws |
| StaticCsv.StaticEntriesFirstError | src/ch/epfl/leb/sass/simulator/generators/realtime/FluorophoreGenerator.java:336-359 | a failed load reports the error of the first line that fails, every earlier line having read |
| StaticCsv.StaticFailureSticks | src/ch/epfl/leb/sass/simulator/generators/realtime/FluorophoreGenerator.java:336-359 | once a prefix fails, the rest of the file does not change the result |
| StaticCsv.StaticEntriesPrefix | src/ch/epfl/leb/sass/simulator/generators/realtime/FluorophoreGenerator.java:336-359 | the emitters of a prefix of the file are a prefix of the file's emitters |
| StaticCsv.StaticEntriesLine | src/ch/epfl/leb/sass/simulator/generators/realtime/FluorophoreGenerator.java:357-358 | each line's emitter, if any, sits in the result at the position after those of the lines before it |
| StaticCsv.CommentsOnly | src/ch/epfl/leb/sass/simulator/generators/realtime/FluorophoreGenerator.java:338-340 | a file of comments gives no emitters |
| StaticCsv.ReadStaticCsv | src/ch/epfl/leb/sass/simulator/generators/realtime/FluorophoreGenerator.java:336-359 | the read loop returns the specification's list of emitters or its first error |
| StaticCsv.Crop | src/ch/epfl/leb/sass/simulator/generators/realtime/FluorophoreGenerator.java:377-383 | the crop loop returns the emitters with x < res_x and y < res_y, in order |
| StaticCsv.Cropped | src/ch/epfl/leb/sass/simulator/generators/realtime/FluorophoreGenerator.java:377-383 | the emitters with x < res_x and y < res_y, in their order |
| StaticCsv.CroppedConcat | src/ch/epfl/leb/sass/simulator/generators/realtime/FluorophoreGenerator.java:378-382 | cropping distributes over concatenation |
| StaticCsv.CroppedMembers | src/ch/epfl/leb/sass/simulator/generators/realtime/FluorophoreGenerator.java:379 | an emitter is kept exactly when it is in the list and inside the frame |
| StaticCsv.CroppedIdempotent | src/ch/epfl/leb/sass/simulator/generators/realtime/FluorophoreGenerator.java:377-383 | cropping never adds emitters, and cropping twice is cropping once |
| StaticCsv.MaxXIsMaximum | src/ch/epfl/leb/sass/simulator/generators/realtime/FluorophoreGenerator.java:364-368 | the maximum starts at 0: it is >= 0, >= every x, and either 0 or some emitter's x |
| StaticCsv.MaxX | src/ch/epfl/leb/sass/simulator/generators/realtime/FluorophoreGenerator.java:364-368 | the largest x as the loop finds it, starting from 0.0 and replaced by every larger x |
| StaticCsv.FindMaxX | src/ch/epfl/leb/sass/simulator/generators/realtime/FluorophoreGenerator.java:364-368 | the loop returns that maximum |
| StaticCsv.ScaleAll | src/ch/epfl/leb/sass/simulator/generators/realtime/FluorophoreGenerator.java:370-373 | the loop multiplies x and y by the factor and keeps z |
| StaticCsv.Rescaled | src/ch/epfl/leb/sass/simulator/generators/realtime/FluorophoreGenerator.java:370-373 | every emitter with x and y multiplied by the factor and z kept, in order |
| StaticCsv.Rescale | src/ch/epfl/leb/sass/simulator/generators/realtime/FluorophoreGenerator.java:363-374 | rescaling multiplies by res_x / max x, and an empty list stays empty |
| StaticCsv.RescaledFitsWidth | src/ch/epfl/leb/sass/simulator/generators/realtime/FluorophoreGenerator.java:364-373 | after rescaling every x is <= res_x, some x is exactly res_x, z is unchanged, and no emitter is lost |
| StaticCsv.RescaleLeavesFrameExample | src/ch/epfl/leb/sass/simulator/generators/realtime/FluorophoreGenerator.java:369-372 | y is scaled by the x factor, so an emitter at (1, 3) on a 10-pixel-wide camera goes to (10, 30), outside a square frame |
| StaticCsv.GenerateFromCsv | src/ch/epfl/leb/sass/simulator/generators/realtime/FluorophoreGenerator.java:316-385 | the loader returns the read error, or the cropped list, or the rescaled list, as the flag says |
| MovingCsv.ReadDataLineIff | src/ch/epfl/leb/sass/simulator/generators/realtime/FluorophoreGenerator.java:426-430 | a data line is read exactly when split gives at least four fields, two integers then two doubles, and gives those four values |
| MovingCsv.ReadDataLine | src/ch/epfl/leb/sass/simulator/generators/realtime/FluorophoreGenerator.java:426-430 | a data line split at commas: the emitter and frame numbers as integers, then x and y as doubles, or the error of the first column missing or unreadable |
| MovingCsv.GapPoints | src/ch/epfl/leb/sass/simulator/generators/realtime/FluorophoreGenerator.java:460-464 | a gap of frame_gap_size frames is filled with frame_gap_size - 1 points |
| MovingCsv.StartMoving | src/ch/epfl/leb/sass/simulator/generators/realtime/FluorophoreGenerator.java:444 | closing a trajectory makes the moving emitter at its first point, and fails (`get(0)` on an empty list) when it has none |
| MovingCsv.Adopt | src/ch/epfl/leb/sass/simulator/generators/realtime/FluorophoreGenerator.java:433-438 | while the emitter number is still -1 a line sets it, the last position and expected frame 1; otherwise nothing changes |
| MovingCsv.Switch | src/ch/epfl/leb/sass/simulator/generators/realtime/FluorophoreGenerator.java:442-449 | a new emitter number closes the current trajectory, appends its emitter, and starts an empty trajectory at frame 1 from the line's position |
| MovingCsv.Place | src/ch/epfl/leb/sass/simulator/generators/realtime/FluorophoreGenerator.java:451-470 | a frame below the expected one is an error; otherwise the gap points and the position are appended, the position becomes the last one and the next frame is expected |
| MovingCsv.Accept | src/ch/epfl/leb/sass/simulator/generators/realtime/FluorophoreGenerator.java:432-470 | one data line: adopt, switch, then place, in that order |
| MovingCsv.Step | src/ch/epfl/leb/sass/simulator/generators/realtime/FluorophoreGenerator.java:419-470 | one line of the loop: a comment changes nothing, another line is read and accepted |
| MovingCsv.Track | src/ch/epfl/leb/sass/simulator/generators/realtime/FluorophoreGenerator.java:412-471 | the loop's variables after the lines, from emitter -1, expected frame 1 and empty lists, or the error of the first line that throws |
| MovingCsv.ParseMoving | src/ch/epfl/leb/sass/simulator/generators/realtime/FluorophoreGenerator.java:400-475 | the closed emitters followed by the emitter of the last trajectory, which fails on a file without data lines |
| MovingCsv.InterpolateIsLinear | src/ch/epfl/leb/sass/simulator/generators/realtime/FluorophoreGenerator.java:462-463 | gap point i is i / gap of the way from the previous position to the new one, so the points are evenly spaced from the old position (i = 0) to the new (i = gap) |
| MovingCsv.PlaceValue | src/ch/epfl/leb/sass/simulator/generators/realtime/FluorophoreGenerator.java:451-470 | a frame at or above the expected one appends the gap points and the new point, and expects the next frame |
| MovingCsv.TrackFailureSticks | src/ch/epfl/leb/sass/simulator/generators/realtime/FluorophoreGenerator.java:419-452 | the first error of a prefix is the error of the whole file |
| MovingCsv.FillGap | src/ch/epfl/leb/sass/simulator/generators/realtime/FluorophoreGenerator.java:460-464 | the gap loop appends exactly the interpolated points |
| MovingCsv.AcceptDataLine | src/ch/epfl/leb/sass/simulator/generators/realtime/FluorophoreGenerator.java:432-470 | the body of the read loop equals the specification's step on one data line |
| MovingCsv.ParseMovingCsv | src/ch/epfl/leb/sass/simulator/generators/realtime/FluorophoreGenerator.java:412-474 | the whole reader equals the specification: the trajectories closed by emitter changes and the last one, or the first error |
| MovingCsv.AcceptAligned | src/ch/epfl/leb/sass/simulator/generators/realtime/FluorophoreGenerator.java:433-470 | for a line whose emitter number is not -1: with the trajectory of f points expecting frame f + 1, a line is rejected exactly when its frame is not above the last one, or is below 1 on a new emitter; the error is FrameOutOfOrder; otherwise the trajectory holds exactly `frame` points |
| MovingCsv.AcceptPlacesFrame | src/ch/epfl/leb/sass/simulator/generators/realtime/FluorophoreGenerator.java:451-467 | after a line of frame f, for an emitter number other than -1, the trajectory's point f is the line's position, and the points before it are kept |
| MovingCsv.StartMovingIsFirstPoint | src/ch/epfl/leb/sass/simulator/generators/realtime/FluorophoreGenerator.java:444 | closing a trajectory succeeds exactly when it has a point, and starts the emitter at its first point |
| MovingCsv.TrackAligned | src/ch/epfl/leb/sass/simulator/generators/realtime/FluorophoreGenerator.java:419-471 | after any prefix, the trajectory holds one point per frame read, and belongs to the last emitter number read (none before the first data line) |
| MovingCsv.StepAligned | src/ch/epfl/leb/sass/simulator/generators/realtime/FluorophoreGenerator.java:420-470 | one line whose emitter number is not -1 keeps that invariant |
| MovingCsv.TrackMoversCount | src/ch/epfl/leb/sass/simulator/generators/realtime/FluorophoreGenerator.java:442-445 | the closed emitters are as many as the emitter-number changes |
| MovingCsv.TrackMoversStart | src/ch/epfl/leb/sass/simulator/generators/realtime/FluorophoreGenerator.java:444 | every closed emitter starts at its trajectory's first point |
| MovingCsv.StepMovers | src/ch/epfl/leb/sass/simulator/generators/realtime/FluorophoreGenerator.java:442-445 | one line closes a trajectory exactly when its emitter number differs from the current one |
| MovingCsv.ChangesSnoc | src/ch/epfl/leb/sass/simulator/generators/realtime/FluorophoreGenerator.java:442 | appending an emitter number adds one change exactly when it differs from the last |
| MovingCsv.AcceptMovers | src/ch/epfl/leb/sass/simulator/generators/realtime/FluorophoreGenerator.java:442-449 | a data line closes the current trajectory exactly when it has a new emitter number |
| MovingCsv.ParseMovingCount | src/ch/epfl/leb/sass/simulator/generators/realtime/FluorophoreGenerator.java:419-474 | a successful read returns one emitter per emitter-number change plus the last, each starting at its first point |
| MovingCsv.AcceptFromReachable | src/ch/epfl/leb/sass/simulator/generators/realtime/FluorophoreGenerator.java:433-467 | once a data line has been read the trajectory is never empty, so closing it cannot fail |
| MovingCsv.TrackReachable | src/ch/epfl/leb/sass/simulator/generators/realtime/FluorophoreGenerator.java:419-471 | no line in the loop fails on an empty trajectory |
| MovingCsv.StepFromReachable | src/ch/epfl/leb/sass/simulator/generators/realtime/FluorophoreGenerator.java:420-470 | one line keeps that invariant |
| MovingCsv.TrackEmptyIffComments | src/ch/epfl/leb/sass/simulator/generators/realtime/FluorophoreGenerator.java:419-471 | the trajectory is empty after the loop exactly when every line is a comment |
| MovingCsv.ParseMovingEmptyIff | src/ch/epfl/leb/sass/simulator/generators/realtime/FluorophoreGenerator.java:473 | the final get(0) fails exactly for a file of comments only |
| MovingCsv.TrackFirstFailureIsData | src/ch/epfl/leb/sass/simulator/generators/realtime/FluorophoreGenerator.java:421-452 | only data lines can fail |
| MovingCsv.SentinelMergesTrajectories | src/ch/epfl/leb/sass/simulator/generators/realtime/FluorophoreGenerator.java:412-449 | a first line with emitter -1 is taken as "no trajectory yet", so its point joins the next emitter's trajectory |
| SimulationModel.Model.constructor | src/ch/epfl/leb/sass/ijplugin/Model.java:47-120 | a new model holds `Defaults`, the Java defaults of its 66 fields: 0, 0.0, false and null |
| SimulationModel.Model.SetCameraNX | src/ch/epfl/leb/sass/ijplugin/Model.java:223 | sets `cameraNX` to the argument and leaves every other field as it was, so the getter of `cameraNX` then returns the value set |
| SimulationModel.Model.SetCameraNY | src/ch/epfl/leb/sass/ijplugin/Model.java:224 | sets `cameraNY` to the argument and leaves every other field as it was, so the getter of `cameraNY` then returns the value set |
| SimulationModel.Model.SetCameraReadoutNoise | src/ch/epfl/leb/sass/ijplugin/Model.java:225-227 | sets `cameraReadoutNoise` to the argument and leaves every other field as it was, so the getter of `cameraReadoutNoise` then returns the value set |
| SimulationModel.Model.SetCameraDarkCurrent | src/ch/epfl/leb/sass/ijplugin/Model.java:228-230 | sets `cameraDarkCurrent` to the argument and leaves every other field as it was, so the getter of `cameraDarkCurrent` then returns the value set |
| SimulationModel.Model.SetCameraQuantumEfficiency | src/ch/epfl/leb/sass/ijplugin/Model.java:231-233 | sets `cameraQuantumEfficiency` to the argument and leaves every other field as it was, so the getter of `cameraQuantumEfficiency` then returns the value set |
| SimulationModel.Model.SetCameraAduPerElectron | src/ch/epfl/leb/sass/ijplugin/Model.java:234-236 | sets `cameraAduPerElectron` to the argument and leaves every other field as it was, so the getter of `cameraAduPerElectron` then returns the value set |
| SimulationModel.Model.SetCameraEmGain | src/ch/epfl/leb/sass/ijplugin/Model.java:237 | sets `cameraEmGain` to the argument and leaves every other field as it was, so the getter of `cameraEmGain` then returns the value set |
| SimulationModel.Model.SetCameraBaseline | src/ch/epfl/leb/sass/ijplugin/Model.java:238 | sets `cameraBaseline` to the argument and leaves every other field as it was, so the getter of `cameraBaseline` then returns the value set |
| SimulationModel.Model.SetCameraPixelSize | src/ch/epfl/leb/sass/ijplugin/Model.java:239-241 | sets `cameraPixelSize` to the argument and leaves every other field as it was, so the getter of `cameraPixelSize` then returns the value set |
| SimulationModel.Model.SetCameraThermalNoise | src/ch/epfl/leb/sass/ijplugin/Model.java:242-244 | sets `cameraThermalNoise` to the argument and leaves every other field as it was, so the getter of `cameraThermalNoise` then returns the value set |
| SimulationModel.Model.SetObjectiveNa | src/ch/epfl/leb/sass/ijplugin/Model.java:246 | sets `objectiveNa` to the argument and leaves every other field as it was, so the getter of `objectiveNa` then returns the value set |
| SimulationModel.Model.SetObjectiveMag | src/ch/epfl/leb/sass/ijplugin/Model.java:247 | sets `objectiveMag` to the argument and leaves every other field as it was, so the getter of `objectiveMag` then returns the value set |
| SimulationModel.Model.SetFluorophoreSignal | src/ch/epfl/leb/sass/ijplugin/Model.java:249-251 | sets `fluorophoreSignal` to the argument and leaves every other field as it was, so the getter of `fluorophoreSignal` then returns the value set |
| SimulationModel.Model.SetFluorophoreWavelength | src/ch/epfl/leb/sass/ijplugin/Model.java:252-254 | sets `fluorophoreWavelength` to the argument and leaves every other field as it was, so the getter of `fluorophoreWavelength` then returns the value set |
| SimulationModel.Model.SetFluorophoreTOn | src/ch/epfl/leb/sass/ijplugin/Model.java:255 | sets `fluorophoreTOn` to the argument and leaves every other field as it was, so the getter of `fluorophoreTOn` then returns the value set |
| SimulationModel.Model.SetFluorophoreTOff | src/ch/epfl/leb/sass/ijplugin/Model.java:256 | sets `fluorophoreTOff` to the argument and leaves every other field as it was, so the getter of `fluorophoreTOff` then returns the value set |
| SimulationModel.Model.SetFluorophoreTBl | src/ch/epfl/leb/sass/ijplugin/Model.java:257 | sets `fluorophoreTBl` to the argument and leaves every other field as it was, so the getter of `fluorophoreTBl` then returns the value set |
| SimulationModel.Model.SetLaserMinPower | src/ch/epfl/leb/sass/ijplugin/Model.java:259 | sets `laserMinPower` to the argument and leaves every other field as it was, so the getter of `laserMinPower` then returns the value set |
| SimulationModel.Model.SetLaserMaxPower | src/ch/epfl/leb/sass/ijplugin/Model.java:260 | sets `laserMaxPower` to the argument and leaves every other field as it was, so the getter of `laserMaxPower` then returns the value set |
| SimulationModel.Model.SetLaserCurrentPower | src/ch/epfl/leb/sass/ijplugin/Model.java:261-263 | sets `laserCurrentPower` to the argument and leaves every other field as it was, so the getter of `laserCurrentPower` then returns the value set |
| SimulationModel.Model.SetStageX | src/ch/epfl/leb/sass/ijplugin/Model.java:265 | sets `stageX` to the argument and leaves every other field as it was, so the getter of `stageX` then returns the value set |
| SimulationModel.Model.SetStageY | src/ch/epfl/leb/sass/ijplugin/Model.java:266 | sets `stageY` to the argument and leaves every other field as it was, so the getter of `stageY` then returns the value set |
| SimulationModel.Model.SetStageZ | src/ch/epfl/leb/sass/ijplugin/Model.java:267 | sets `stageZ` to the argument and leaves every other field as it was, so the getter of `stageZ` then returns the value set |
| SimulationModel.Model.SetEmittersCurrentSelection | src/ch/epfl/leb/sass/ijplugin/Model.java:269-271 | sets `emittersCurrentSelection` to the argument and leaves every other field as it was, so the getter of `emittersCurrentSelection` then returns the value set |
| SimulationModel.Model.SetEmittersRandomNumber | src/ch/epfl/leb/sass/ijplugin/Model.java:272-274 | sets `emittersRandomNumber` to the argument and leaves every other field as it was, so the getter of `emittersRandomNumber` then returns the value set |
| SimulationModel.Model.SetEmittersGridSpacing | src/ch/epfl/leb/sass/ijplugin/Model.java:275-277 | sets `emittersGridSpacing` to the argument and leaves every other field as it was, so the getter of `emittersGridSpacing` then returns the value set |
| SimulationModel.Model.SetEmittersCsvFile | src/ch/epfl/leb/sass/ijplugin/Model.java:278-280 | sets `emittersCsvFile` to the argument and leaves every other field as it was, so the getter of `emittersCsvFile` then returns the value set |
| SimulationModel.Model.SetEmittersRandomButtonText | src/ch/epfl/leb/sass/ijplugin/Model.java:281-283 | sets `emittersRandomButtonText` to the argument and leaves every other field as it was, so the getter of `emittersRandomButtonText` then returns the value set |
| SimulationModel.Model.SetEmittersGridButtonText | src/ch/epfl/leb/sass/ijplugin/Model.java:284-286 | sets `emittersGridButtonText` to the argument and leaves every other field as it was, so the getter of `emittersGridButtonText` then returns the value set |
| SimulationModel.Model.SetEmittersCsvFileButtonText | src/ch/epfl/leb/sass/ijplugin/Model.java:287-289 | sets `emittersCsvFileButtonText` to the argument and leaves every other field as it was, so the getter of `emittersCsvFileButtonText` then returns the value set |
| SimulationModel.Model.SetEmitters3DCheckBoxEnabled | src/ch/epfl/leb/sass/ijplugin/Model.java:290-292 | sets `emitters3DCheckBoxEnabled` to the argument and leaves every other field as it was, so the getter of `emitters3DCheckBoxEnabled` then returns the value set |
| SimulationModel.Model.SetEmitters3DMinZ | src/ch/epfl/leb/sass/ijplugin/Model.java:293-295 | sets `emitters3DMinZ` to the argument and leaves every other field as it was, so the getter of `emitters3DMinZ` then returns the value set |
| SimulationModel.Model.SetEmitters3DMaxZ | src/ch/epfl/leb/sass/ijplugin/Model.java:296-298 | sets `emitters3DMaxZ` to the argument and leaves every other field as it was, so the getter of `emitters3DMaxZ` then returns the value set |
| SimulationModel.Model.SetFiducialsNumber | src/ch/epfl/leb/sass/ijplugin/Model.java:300-302 | sets `fiducialsNumber` to the argument and leaves every other field as it was, so the getter of `fiducialsNumber` then returns the value set |
| SimulationModel.Model.SetFiducialsSignal | src/ch/epfl/leb/sass/ijplugin/Model.java:303-304 | sets `fiducialsSignal` to the argument and leaves every other field as it was, so the getter of `fiducialsSignal` then returns the value set |
| SimulationModel.Model.SetBackgroundCurrentSelection | src/ch/epfl/leb/sass/ijplugin/Model.java:306-308 | sets `backgroundCurrentSelection` to the argument and leaves every other field as it was, so the getter of `backgroundCurrentSelection` then returns the value set |
| SimulationModel.Model.SetBackgroundUniformSignal | src/ch/epfl/leb/sass/ijplugin/Model.java:309-311 | sets `backgroundUniformSignal` to the argument and leaves every other field as it was, so the getter of `backgroundUniformSignal` then returns the value set |
| SimulationModel.Model.SetBackgroundRandomFeatureSize | src/ch/epfl/leb/sass/ijplugin/Model.java:315-317 | sets `backgroundRandomFeatureSize` to the argument and leaves every other field as it was, so the getter of `backgroundRandomFeatureSize` then returns the value set |
| SimulationModel.Model.SetBackgroundRandomMinValue | src/ch/epfl/leb/sass/ijplugin/Model.java:318-320 | sets `backgroundRandomMinValue` to the argument and leaves every other field as it was, so the getter of `backgroundRandomMinValue` then returns the value set |
| SimulationModel.Model.SetBackgroundRandomMaxValue | src/ch/epfl/leb/sass/ijplugin/Model.java:321-323 | sets `backgroundRandomMaxValue` to the argument and leaves every other field as it was, so the getter of `backgroundRandomMaxValue` then returns the value set |
| SimulationModel.Model.SetBackgroundRandomSeed | src/ch/epfl/leb/sass/ijplugin/Model.java:324-326 | sets `backgroundRandomSeed` to the argument and leaves every other field as it was, so the getter of `backgroundRandomSeed` then returns the value set |
| SimulationModel.Model.SetBackgroundTifFile | src/ch/epfl/leb/sass/ijplugin/Model.java:330-332 | sets `backgroundTifFile` to the argument and leaves every other field as it was, so the getter of `backgroundTifFile` then returns the value set |
| SimulationModel.Model.SetBackgroundRandomButtonText | src/ch/epfl/leb/sass/ijplugin/Model.java:327-329 | sets `backgroundRandomButtonText` to the argument and leaves every other field as it was, so the getter of `backgroundRandomButtonText` then returns the value set |
| SimulationModel.Model.SetBackgroundUniformButtonText | src/ch/epfl/leb/sass/ijplugin/Model.java:312-314 | sets `backgroundUniformButtonText` to the argument and leaves every other field as it was, so the getter of `backgroundUniformButtonText` then returns the value set |
| SimulationModel.Model.SetBackgroundTifFileButtonText | src/ch/epfl/leb/sass/ijplugin/Model.java:333-335 | sets `backgroundTifFileButtonText` to the argument and leaves every other field as it was, so the getter of `backgroundTifFileButtonText` then returns the value set |
| SimulationModel.Model.SetPsfCurrentSelection | src/ch/epfl/leb/sass/ijplugin/Model.java:336-338 | sets `psfCurrentSelection` to the argument and leaves every other field as it was, so the getter of `psfCurrentSelection` then returns the value set |
| SimulationModel.Model.SetPsfGaussian2dText | src/ch/epfl/leb/sass/ijplugin/Model.java:339-341 | sets `psfGaussian2dText` to the argument and leaves every other field as it was, so the getter of `psfGaussian2dText` then returns the value set |
| SimulationModel.Model.SetPsfGaussian3dText | src/ch/epfl/leb/sass/ijplugin/Model.java:342-344 | sets `psfGaussian3dText` to the argument and leaves every other field as it was, so the getter of `psfGaussian3dText` then returns the value set |
| SimulationModel.Model.SetPsfGibsonLanniNumBasis | src/ch/epfl/leb/sass/ijplugin/Model.java:345-347 | sets `psfGibsonLanniNumBasis` to the argument and leaves every other field as it was, so the getter of `psfGibsonLanniNumBasis` then returns the value set |
| SimulationModel.Model.SetPsfGibsonLanniNumSamples | src/ch/epfl/leb/sass/ijplugin/Model.java:348-350 | sets `psfGibsonLanniNumSamples` to the argument and leaves every other field as it was, so the getter of `psfGibsonLanniNumSamples` then returns the value set |
| SimulationModel.Model.SetPsfGibsonLanniOversampling | src/ch/epfl/leb/sass/ijplugin/Model.java:351-352 | sets `psfGibsonLanniOversampling` to the argument and leaves every other field as it was, so the getter of `psfGibsonLanniOversampling` then returns the value set |
| SimulationModel.Model.SetPsfGibsonLanniSizeX | src/ch/epfl/leb/sass/ijplugin/Model.java:353 | sets `psfGibsonLanniSizeX` to the argument and leaves every other field as it was, so the getter of `psfGibsonLanniSizeX` then returns the value set |
| SimulationModel.Model.SetPsfGibsonLanniSizeY | src/ch/epfl/leb/sass/ijplugin/Model.java:354 | sets `psfGibsonLanniSizeY` to the argument and leaves every other field as it was, so the getter of `psfGibsonLanniSizeY` then returns the value set |
| SimulationModel.Model.SetPsfGibsonLanniNs | src/ch/epfl/leb/sass/ijplugin/Model.java:355 | sets `psfGibsonLanniNs` to the argument and leaves every other field as it was, so the getter of `psfGibsonLanniNs` then returns the value set |
| SimulationModel.Model.SetPsfGibsonLanniNg0 | src/ch/epfl/leb/sass/ijplugin/Model.java:356 | sets `psfGibsonLanniNg0` to the argument and leaves every other field as it was, so the getter of `psfGibsonLanniNg0` then returns the value set |
| SimulationModel.Model.SetPsfGibsonLanniNg | src/ch/epfl/leb/sass/ijplugin/Model.java:357 | sets `psfGibsonLanniNg` to the argument and leaves every other field as it was, so the getter of `psfGibsonLanniNg` then returns the value set |
| SimulationModel.Model.SetPsfGibsonLanniNi0 | src/ch/epfl/leb/sass/ijplugin/Model.java:358 | sets `psfGibsonLanniNi0` to the argument and leaves every other field as it was, so the getter of `psfGibsonLanniNi0` then returns the value set |
| SimulationModel.Model.SetPsfGibsonLanniNi | src/ch/epfl/leb/sass/ijplugin/Model.java:359 | sets `psfGibsonLanniNi` to the argument and leaves every other field as it was, so the getter of `psfGibsonLanniNi` then returns the value set |
| SimulationModel.Model.SetPsfGibsonLanniTi0 | src/ch/epfl/leb/sass/ijplugin/Model.java:360 | sets `psfGibsonLanniTi0` to the argument and leaves every other field as it was, so the getter of `psfGibsonLanniTi0` then returns the value set |
| SimulationModel.Model.SetPsfGibsonLanniTg0 | src/ch/epfl/leb/sass/ijplugin/Model.java:361 | sets `psfGibsonLanniTg0` to the argument and leaves every other field as it was, so the getter of `psfGibsonLanniTg0` then returns the value set |
| SimulationModel.Model.SetPsfGibsonLanniTg | src/ch/epfl/leb/sass/ijplugin/Model.java:362 | sets `psfGibsonLanniTg` to the argument and leaves every other field as it was, so the getter of `psfGibsonLanniTg` then returns the value set |
| SimulationModel.Model.SetPsfGibsonLanniResPsf | src/ch/epfl/leb/sass/ijplugin/Model.java:363-365 | sets `psfGibsonLanniResPsf` to the argument and leaves every other field as it was, so the getter of `psfGibsonLanniResPsf` then returns the value set |
| SimulationModel.Model.SetPsfGibsonLanniResPsfAxial | src/ch/epfl/leb/sass/ijplugin/Model.java:366-368 | sets `psfGibsonLanniResPsfAxial` to the argument and leaves every other field as it was, so the getter of `psfGibsonLanniResPsfAxial` then returns the value set |
| SimulationModel.Model.SetPsfGibsonLanniSolver | src/ch/epfl/leb/sass/ijplugin/Model.java:369-371 | sets `psfGibsonLanniSolver` to the argument and leaves every other field as it was, so the getter of `psfGibsonLanniSolver` then returns the value set |
| SimulationModel.Model.SetPsfGibsonLanniMaxRadius | src/ch/epfl/leb/sass/ijplugin/Model.java:372-374 | sets `psfGibsonLanniMaxRadius` to the argument and leaves every other field as it was, so the getter of `psfGibsonLanniMaxRadius` then returns the value set |
| SimulationModel.Model.SetPsfGibsonLanniText | src/ch/epfl/leb/sass/ijplugin/Model.java:375-377 | sets `psfGibsonLanniText` to the argument and leaves every other field as it was, so the getter of `psfGibsonLanniText` then returns the value set |
| SimulationModel.Build | src/ch/epfl/leb/sass/ijplugin/Model.java:383-546 | build() never makes the 3D grid builder, and the stage is always at x = y = 0 |
| SimulationModel.BuildFailsIff | src/ch/epfl/leb/sass/ijplugin/Model.java:425-508 | build()'s own statements, before the Microscope constructor, throw exactly when one of the three selections is null, or when the CSV branch is reached with a null file name |
| SimulationModel.DefaultsDoNotBuild | src/ch/epfl/leb/sass/ijplugin/Model.java:425 | a model with default settings fails on the null emitter selection |
| SimulationModel.StageIgnoresXY | src/ch/epfl/leb/sass/ijplugin/Model.java:408-410 | stage x and y never reach the stage; z is stageZ |
| SimulationModel.CameraForwarding | src/ch/epfl/leb/sass/ijplugin/Model.java:395-403 | the camera gets nine camera fields unchanged; the thermal noise is never passed on |
| SimulationModel.ComponentForwarding | src/ch/epfl/leb/sass/ijplugin/Model.java:405-423 | the laser, objective, photophysics and fiducials get their fields unchanged |
| SimulationModel.EmitterDispatch | src/ch/epfl/leb/sass/ijplugin/Model.java:425-471 | the emitter builder for each label, the first condition that holds winning |
| SimulationModel.EmitterBranch | src/ch/epfl/leb/sass/ijplugin/Model.java:425-471 | the five emitter conditions in order, the fourth repeating the second; the CSV branch throws on a null file name |
| SimulationModel.EmittersSetIff | src/ch/epfl/leb/sass/ijplugin/Model.java:425-471 | an emitter builder is chosen exactly for the random label, the CSV label, or the grid label without 3D |
| SimulationModel.GridWith3DLeavesEmittersUnset | src/ch/epfl/leb/sass/ijplugin/Model.java:434-464 | with distinct labels, the grid label with 3D enabled leaves the emitter builder unset |
| SimulationModel.IntendedEmitterBranch | src/ch/epfl/leb/sass/ijplugin/Model.java:454-464 | the corrected branch makes the 3D grid builder for the grid label with 3D enabled |
| SimulationModel.IntendedDiffersOnlyOnGrid3D | src/ch/epfl/leb/sass/ijplugin/Model.java:425-471 | the corrected branch differs from the written one only for the grid label with 3D enabled |
| SimulationModel.BackgroundDispatch | src/ch/epfl/leb/sass/ijplugin/Model.java:473-506 | the background builder for each label; a null TIF name is caught and leaves the builder unset, as does an unknown label |
| SimulationModel.BackgroundBranch | src/ch/epfl/leb/sass/ijplugin/Model.java:473-506 | the three background conditions in order; a null TIF name throws inside the try block and leaves the background unset |
| SimulationModel.PsfDispatch | src/ch/epfl/leb/sass/ijplugin/Model.java:508-533 | the PSF builder for each label, the Gibson-Lanni one carrying all seventeen of its settings; an unknown label leaves it unset |
| SimulationModel.PsfBranch | src/ch/epfl/leb/sass/ijplugin/Model.java:508-533 | the three PSF conditions in order, Gibson-Lanni taking its seventeen settings |
| FrameLog.ExtensionStart | test/ch/epfl/leb/sass/simulator/loggers/FrameLoggerTest.java:158-166 | the extension starts at the last '.' that no '/' follows; there is none exactly when every '.' is followed by a '/' |
| FrameLog.StemAndExtension | test/ch/epfl/leb/sass/simulator/loggers/FrameLoggerTest.java:158-166 | the stem and the extension together are the name |
| FrameLog.CandidateDigits | test/ch/epfl/leb/sass/simulator/loggers/FrameLoggerTest.java:165 | the number in `stem_k.ext` sits between the underscore and the extension |
| FrameLog.CandidateInjective | test/ch/epfl/leb/sass/simulator/loggers/FrameLoggerTest.java:172-177 | distinct numbers give distinct candidate names |
| FrameLog.TakenStep | test/ch/epfl/leb/sass/simulator/loggers/FrameLoggerTest.java:172-177 | the candidates below k + 1 are those below k plus number k, which is new |
| FrameLog.FirstFree | test/ch/epfl/leb/sass/simulator/loggers/FrameLoggerTest.java:158-178 | the search returns the least number from `from` on whose candidate does not exist |
| FrameLog.FreshNameIsFree | test/ch/epfl/leb/sass/simulator/loggers/FrameLoggerTest.java:152-178 | the chosen name never exists: a free name is kept, and a taken one becomes `stem_k.ext` for the least free k |
| FrameLog.FreshName | test/ch/epfl/leb/sass/simulator/loggers/FrameLoggerTest.java:152-178 | the name `setFilename` keeps: the name itself when no file has it, else `stem_k.ext` for the first free k from 1 |
| FrameLog.RowRoundTrip | test/ch/epfl/leb/sass/simulator/loggers/FrameLoggerTest.java:136-138 | a saved row splits back into its six fields, and frame and id read back, when no number is written with a comma |
| FrameLog.RowText | test/ch/epfl/leb/sass/simulator/loggers/FrameLoggerTest.java:137-138 | a row is the six values separated by commas |
| FrameLog.Row | test/ch/epfl/leb/sass/simulator/loggers/FrameLoggerTest.java:136-138 | one saved row: frame and id as decimal integers, then x, y, z and time_on in the number format, separated by commas |
| FrameLog.NoCommaInInt | test/ch/epfl/leb/sass/simulator/loggers/FrameLoggerTest.java:137-138 | the text of an integer has no comma |
| FrameLog.FrameLogger.constructor | test/ch/epfl/leb/sass/simulator/loggers/FrameLoggerTest.java:49 | a new logger has an empty name, logging off, and six empty lists |
| FrameLog.FrameLogger.LogFrame | test/ch/epfl/leb/sass/simulator/loggers/FrameLoggerTest.java:64-81 | with logging on, the six values are appended to the six lists; with logging off nothing changes |
| FrameLog.FrameLogger.Reset | test/ch/epfl/leb/sass/simulator/loggers/FrameLoggerTest.java:98-108 | reset empties the name and the six lists and turns logging off |
| FrameLog.FrameLogger.SetPerformLogging | test/ch/epfl/leb/sass/simulator/loggers/FrameLoggerTest.java:64 | sets the logging flag and nothing else |
| FrameLog.FrameLogger.SetFilename | test/ch/epfl/leb/sass/simulator/loggers/FrameLoggerTest.java:152-178 | the search loop sets the name to the fresh name for the existing files, and changes nothing else |
| FrameLog.FrameLogger.SaveLogFile | test/ch/epfl/leb/sass/simulator/loggers/FrameLoggerTest.java:126-138 | the saved lines are `Header` (`frame,id,x,y,z,time_on`) and then one row per logged entry, in order |
| FrameLog.LogFrameReadsBack | test/ch/epfl/leb/sass/simulator/loggers/FrameLoggerTest.java:56-81 | an entry logged with logging on reads back unchanged from each list |
| FrameLog.ResetClears | test/ch/epfl/leb/sass/simulator/loggers/FrameLoggerTest.java:88-108 | a free name is kept and logging is on; after reset the name is "", logging is off and all six lists are empty |
| FrameLog.LogTwoFrames | test/ch/epfl/leb/sass/simulator/loggers/FrameLoggerTest.java:117-123 | after the two logFrame calls the six lists hold the two entries |
| FrameLog.SavedRows | test/ch/epfl/leb/sass/simulator/loggers/FrameLoggerTest.java:116-138 | the saved file holds the header and the two rows, in order |
| FrameLog.FirstRowText | test/ch/epfl/leb/sass/simulator/loggers/FrameLoggerTest.java:137 | with four-decimal numbers the first row reads `1,1,10.0000,5.0000,1.0000,0.8000` |
| FrameLog.SecondRowText | test/ch/epfl/leb/sass/simulator/loggers/FrameLoggerTest.java:138 | the second row reads `2,5,20.0000,5.0000,1.1000,0.6000` |
| FrameLog.TestNameSplits | test/ch/epfl/leb/sass/simulator/loggers/FrameLoggerTest.java:153-166 | `tmp/testLogFile.txt` has stem `tmp/testLogFile` and extension `.txt` |
| FrameLog.TestCandidates | test/ch/epfl/leb/sass/simulator/loggers/FrameLoggerTest.java:165-177 | its first two candidates are `tmp/testLogFile_1.txt` and `tmp/testLogFile_2.txt` |
| FrameLog.UniqueNames | test/ch/epfl/leb/sass/simulator/loggers/FrameLoggerTest.java:152-178 | an existing name becomes `..._1.txt`, and once that exists too, `..._2.txt` |

## Left out

- Randomness: `RNG.getUniformGenerator()` is the `draws` parameter, a sequence of values in [0, 1) consumed in the order the loops call `nextDouble()`.
- File I/O: a CSV file is its sequence of lines, and `getFileFromDialog` (the file chooser used for a null file) is not modelled. The logger's file system is the set of names that exist, and `saveLogFile` returns the lines it would write.
- Number parsing and formatting: `Double.parseDouble`, `Integer.parseInt` and the logger's four-decimal format of doubles are parameters.
- Floating point: Java's `double` and `float` are exact reals. Rounding, infinities and NaN are not modelled, and neither is the accumulated rounding of `z += zSpacing` in the 3D grid.
- Java's 32-bit `int` is an unbounded integer. The wrap-around of `new_frame_no + 1` at the largest int is not modelled. Neither is the wrap-around of `i += spacing` and `j += spacing` in the grid loops (FluorophoreGenerator.java:168-169 and 223-224): when a resolution is within `spacing` of 2^31 - 1, the Java counter wraps to a negative value, so the loop goes on at negative coordinates and may never end, whereas the model's loop stops.
- The simulator's foreign constructors (`newFluorophore`, `createMovingFluorophore` and the builders of `build()`) are records that keep the values they are given. The PSF builder, camera and photophysics they take are dropped.
- The `Microscope` constructor of Model.java:535-545 is not part of this model. It is modelled as a record that accepts null emitter, background and PSF builders and never fails. Java passes it null builders for an unmatched label, for the grid label with 3D ticked, and for a null TIF name caught on the background branch; whether it then throws is not modelled.
- The deprecated generators `generateFluorophoresRandom`, `generateFluorophoresGrid`, `generate3DFluorophoresGrid` and `parseFluorophoresFromCsv` are not modelled, because newer versions replace them.
- `Model.write`, `Model.read` and the getters are not modelled as members: the getters are the fields of the `Settings` record.
- `IJ.showMessage` in the handlers of `build()` is not modelled: a caught exception only leaves a builder unset.
- A null `String` of `Model` is `None`. The logger's name is taken to start as "", since the logger source, which would fix it, is not part of this model.
- FrameLogger: its source is not part of this model, so the unit test is its contract. The singleton `getInstance`, with the state it shares between tests, is not modelled. `logFrame` with logging off is taken to change nothing. A unique name is taken to be `stem_k.ext`, with the extension from the last '.' that no '/' follows, and k the least free number from 1.
- Layouts.Grid3D: requires the area formula not to be exactly 1 on cameras with two or more grid points (a 30 x 15 camera with spacing 10, say). There Java divides by zero, and the second and later emitters get infinite or NaN depths. With at most one grid point the formula may be 1: the single emitter, if any, is at zLow.
- StaticCsv.Rescale: requires a positive largest x when the list is not empty, where Java's factor `res_x / 0` is infinite. The same precondition is on StaticCsv.GenerateFromCsv when it rescales.
- Layouts.Grid2D, Layouts.Grid3D and the other grid members: require a positive spacing. With a spacing of 0 or less the Java loops do not end short of int overflow.
- MovingCsv.TrackAligned: proved only for files in which no data line has emitter number -1. For such a line see MovingCsv.SentinelMergesTrajectories.
- MovingCsv.TrackMoversCount: proved only without emitter number -1, for the same reason. The same holds for MovingCsv.ParseMovingCount.
- MovingCsv.AcceptAligned: requires a line whose emitter number is not -1. A first line with -1 goes through the adopt branch and leaves the trajectory number at -1 with one point, which is not the aligned state; MovingCsv.SentinelMergesTrajectories covers that case.
- MovingCsv.AcceptPlacesFrame: requires a line whose emitter number is not -1, for the same reason.
- MovingCsv.StepAligned: requires a line whose emitter number is not -1, for the same reason.
- The Javadoc says that emitter numbers must increase. The code does not check this, and neither does the model: a later line may go back to an earlier emitter number, which starts a new trajectory.

## Findings

| source | as written | input that shows it | evidently intended | confidence | as-written member | corrected member |
|---|---|---|---|---|---|---|
| src/ch/epfl/leb/sass/ijplugin/Model.java:454 | the fourth emitter condition repeats the second one, `grid & !3D`, so the 3D grid branch can never run | grid label selected, 3D box ticked, labels distinct: no emitter builder is set | `grid & 3D` selects the 3D grid builder | high, not executed | SimulationModel.GridWith3DLeavesEmittersUnset | SimulationModel.IntendedEmitterBranch |
| src/ch/epfl/leb/sass/simulator/generators/realtime/FluorophoreGenerator.java:218-219 | the z step divides by the area formula (res_x - s)(res_y - s)/s/s minus 1, which is not the emitter count when a resolution is not a multiple of the spacing | 105 x 105 camera, spacing 10: 100 emitters, formula 90.25, so the last emitter is above zHigh | the step spreads the emitters the loops really make over [zLow, zHigh] | medium, not executed | Layouts.Grid3DOvershootExample | Layouts.CountedGrid3DEndsAtZHigh |
