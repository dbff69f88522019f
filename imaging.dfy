/**
 * Images as 2-D arrays of symbolic pixels. The pixel values name where a
 * pixel came from instead of holding colours: decoding, resampling and
 * encoding are library work outside this model.
 */
module Imaging {
  import opened Layouts

  /** A decoded photo: loaded directly, or demosaiced from a raw sensor file. */
  datatype Source = JpegFile(path: string) | RawFile(path: string)

  datatype Pixel =
    | Blank                                                  // `Image.new("RGB", size)`
    | Background(file: string, x: int, y: int)               // pixel (x, y) of a template asset
    | Fitted(source: Source, size: Size, dx: int, dy: int)   // pixel (dx, dy) of `ImageOps.fit(source, size)`

  /** An image is indexed `[x, y]`, so `Length0` is its width and `Length1` its height. */
  type Canvas = array2<Pixel>

  /** `Image.open(file)` of a template asset whose dimensions are `size`. */
  method Open(file: string, size: Size) returns (img: Canvas)
    ensures fresh(img) && img.Length0 == size.w && img.Length1 == size.h
    ensures forall x, y :: 0 <= x < size.w && 0 <= y < size.h ==> img[x, y] == Background(file, x, y)
  {
    img := new Pixel[size.w, size.h]((x, y) => Background(file, x, y));
  }

  /** `Image.new("RGB", size)`. */
  method NewCanvas(size: Size) returns (img: Canvas)
    ensures fresh(img) && img.Length0 == size.w && img.Length1 == size.h
    ensures forall x, y :: 0 <= x < size.w && 0 <= y < size.h ==> img[x, y] == Blank
  {
    img := new Pixel[size.w, size.h]((x, y) => Blank);
  }

  /** `ImageOps.fit(image=source, size=size)`: fill `size` with the source, cropped to fit. */
  method Fit(source: Source, size: Size) returns (img: Canvas)
    ensures fresh(img) && img.Length0 == size.w && img.Length1 == size.h
    ensures forall x, y :: 0 <= x < size.w && 0 <= y < size.h ==> img[x, y] == Fitted(source, size, x, y)
  {
    img := new Pixel[size.w, size.h]((x, y) => Fitted(source, size, x, y));
  }

  /** `image.copy()`: a new image with the same pixels; the original is left alone. */
  method Copy(src: Canvas) returns (img: Canvas)
    ensures fresh(img) && img.Length0 == src.Length0 && img.Length1 == src.Length1
    ensures forall x, y :: 0 <= x < src.Length0 && 0 <= y < src.Length1 ==> img[x, y] == src[x, y]
  {
    img := new Pixel[src.Length0, src.Length1]((x, y) reads src =>
      if 0 <= x < src.Length0 && 0 <= y < src.Length1 then src[x, y] else Blank);
  }

  /** Pixel (x, y) lies in the rectangle of an image of `w` by `h` pasted at (px, py). */
  predicate InPaste(px: int, py: int, w: int, h: int, x: int, y: int) {
    px <= x < px + w && py <= y < py + h
  }

  /**
   * `dst.paste(src, (px, py))`: `src` is written into `dst` with its top left
   * at (px, py); whatever falls outside `dst` is clipped.
   */
  method Paste(dst: Canvas, src: Canvas, px: int, py: int)
    requires dst != src
    modifies dst
    ensures forall x, y :: 0 <= x < dst.Length0 && 0 <= y < dst.Length1 ==>
      dst[x, y] == if InPaste(px, py, src.Length0, src.Length1, x, y) then src[x - px, y - py] else old(dst[x, y])
  {
    forall x, y | 0 <= x < dst.Length0 && 0 <= y < dst.Length1 && InPaste(px, py, src.Length0, src.Length1, x, y) {
      dst[x, y] := src[x - px, y - py];
    }
  }

  /** The pixels of an image as a value: column `x`, then row `y`. */
  function Snapshot(img: Canvas): (s: seq<seq<Pixel>>)
    reads img
    ensures |s| == img.Length0
    ensures forall x :: 0 <= x < |s| ==> |s[x]| == img.Length1
    ensures forall x, y :: 0 <= x < img.Length0 && 0 <= y < img.Length1 ==> s[x][y] == img[x, y]
  {
    seq(img.Length0, x reads img => seq(img.Length1, y reads img =>
      if 0 <= x < img.Length0 && 0 <= y < img.Length1 then img[x, y] else Blank))
  }
}
