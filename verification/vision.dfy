/**
 * What the backend sees of images, paths and the face-recognition library.
 * Pixel content is an opaque payload: only dimensions and channel order
 * take part in the decisions modelled here.
 */
module Vision {

  /** A pixel dimension of a decoded image (OpenCV never decodes an empty one). */
  type Dim = n: int | 1 <= n witness 1

  /** A decoded camera frame: height and width in pixels, whether its channels are in RGB order
      (OpenCV decodes to BGR), and its pixels as an opaque payload. */
  datatype Frame = Frame(height: Dim, width: Dim, rgb: bool, pixels: seq<int>)

  /** `cv2.cvtColor(img, cv2.COLOR_BGR2RGB)`: the outer channels trade places. */
  function BgrToRgb(f: Frame): Frame
  {
    f.(rgb := !f.rgb)
  }

  /** `cv2.resize(img, (width, height))`; the interpolated pixels are not modelled. */
  function Resize(f: Frame, width: Dim, height: Dim): Frame
  {
    f.(width := width, height := height)
  }

  /** `os.path.join(dir, name)` on POSIX, for two components. */
  function JoinPath(dir: string, name: string): string
  {
    if |name| > 0 && name[0] == '/' then name
    else if dir == [] || dir[|dir| - 1] == '/' then dir + name
    else dir + "/" + name
  }

  /** A face embedding. */
  type Encoding = seq<real>

  /** A face location as (top, right, bottom, left). */
  type Location = (int, int, int, int)

  /**
   * The `face_recognition` library, as the backend calls it:
   * `locate` is `face_locations`, `encode` is `face_encodings`, and
   * `compare(known, candidate, tolerance)` is `compare_faces([known], candidate, tolerance)[0]`.
   */
  datatype FaceLib = FaceLib(
    locate: Frame -> seq<Location>,
    encode: (Frame, seq<Location>) -> seq<Encoding>,
    compare: (Encoding, Encoding, real) -> bool)

  /** The match tolerance used by every comparison in the backend. */
  const Tolerance: real := 0.6
}
