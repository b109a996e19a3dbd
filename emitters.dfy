/**
 * The records the generators produce. The fluorophore and moving-fluorophore
 * constructors of the simulator also take a PSF builder, photophysical
 * properties and a camera; only the positions they are given are kept here.
 */
module Emitters {

  /** A static emitter at (x, y, z), in pixels. */
  datatype Fluorophore = Fluorophore(x: real, y: real, z: real)

  /** One point of a trajectory, in pixels. */
  datatype Point = Point(x: real, y: real)

  /** An emitter that starts at (x, y) and moves along `trajectory`, one point per frame. */
  datatype MovingFluorophore = MovingFluorophore(x: real, y: real, trajectory: seq<Point>)
}
