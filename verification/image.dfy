/** Images as immutable grids of pixels, in OpenCV's row-major, B-G-R layout. */
module Image {

  /** One 8-bit channel value (numpy `uint8`). */
  type Byte = x: int | 0 <= x < 256

  /** A pixel with its channels in OpenCV's storage order: blue, green, red. */
  datatype Pixel = Pixel(b: Byte, g: Byte, r: Byte)

  const White: Pixel := Pixel(255, 255, 255)

  /** A grid indexed as `g[row][column]`. */
  type Grid<T> = seq<seq<T>>

  /** `a` and `b` have the same number of rows and each row the same length. */
  predicate SameShape<S, T>(a: Grid<S>, b: Grid<T>) {
    |a| == |b| && forall i :: 0 <= i < |a| ==> |a[i]| == |b[i]|
  }

  /** `g` has `h` rows of `w` cells each. */
  predicate HasShape<T>(g: Grid<T>, h: nat, w: nat) {
    |g| == h && forall i :: 0 <= i < h ==> |g[i]| == w
  }

  /** An `h` by `w` grid with every cell `v` (numpy's `v * np.ones(...)`). */
  function Filled<T>(h: nat, w: nat, v: T): (g: Grid<T>)
    ensures HasShape(g, h, w)
    ensures forall i, j :: 0 <= i < h && 0 <= j < w ==> g[i][j] == v
  {
    seq(h, _ => seq(w, _ => v))
  }

  /** An integer image coordinate `(x, y)`: x is the column, y the row. */
  datatype Point = Point(x: int, y: int)

  /** A sub-pixel coordinate, such as a blob centroid. */
  datatype RealPoint = RealPoint(x: real, y: real)
}
