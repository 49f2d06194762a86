/** The two-dimensional vector value of the game (class `Vec`).
    Coordinates are exact reals; the JavaScript numbers are IEEE doubles. */
module Vectors {

  datatype Vec = Vec(x: real, y: real) {

    /** Component-wise sum (`Vec.plus`). */
    function Plus(other: Vec): Vec {
      Vec(x + other.x, y + other.y)
    }

    /** Uniform scaling (`Vec.times`). */
    function Times(factor: real): Vec {
      Vec(x * factor, y * factor)
    }
  }
}
