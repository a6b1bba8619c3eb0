/** Client-side image preparation (src/lib/imageUtils.ts, `compressImage`):
    the canvas size that keeps the longest side within 1500 pixels, and the
    size budget with one fallback quality. The browser's file reader, image
    decoder and JPEG encoder are not modelled: the file is what they made of
    it, and the encoder is a function from a quality to the data URI. */
module ImageUtils {
  import opened Wrappers

  const MAX_DIMENSION: nat := 1500
  /** 3 MiB. */
  const MAX_FILE_SIZE: nat := 3 * 1024 * 1024

  /** The two JPEG qualities tried: 0.8 first, then 0.6. */
  datatype Quality = Standard | Reduced

  /** What the file reader and the image decoder made of the file. */
  datatype ImageFile = Unreadable | Undecodable | Bitmap(width: nat, height: nat)

  datatype CompressError = ReadFailed | LoadFailed | NoContext | TooLarge

  datatype Dims = Dims(width: nat, height: nat)

  /** The `Error` message each rejection carries. */
  function ErrorMessage(e: CompressError): string
  {
    match e
    case ReadFailed => "Failed to read file"
    case LoadFailed => "Failed to load image"
    case NoContext => "Failed to get canvas context"
    case TooLarge => "Image is too large even after compression. Please try a smaller image."
  }

  function Max(a: int, b: int): int
  {
    if a < b then b else a
  }

  /** `r` is `Math.round(a / b)`: the integer nearest to a/b, halves rounding up. */
  predicate IsRounded(r: int, a: int, b: int)
  {
    2 * a - b < 2 * b * r <= 2 * a + b
  }

  /** `Math.round(a / b)` for non-negative `a` and positive `b`, in integers. */
  function RoundDiv(a: nat, b: nat): (r: nat)
    requires b > 0
    ensures IsRounded(r, a, b)
  {
    (2 * a + b) / (2 * b)
  }

  /** Rounding is a function: only one integer is nearest, halves up. */
  lemma RoundedUnique(r1: int, r2: int, a: int, b: int)
    requires b > 0 && IsRounded(r1, a, b) && IsRounded(r2, a, b)
    ensures r1 == r2
  {
    if r1 < r2 {
      MulMonotone(2 * b, r1 + 1, r2);
    } else if r2 < r1 {
      MulMonotone(2 * b, r2 + 1, r1);
    }
  }

  lemma MulMonotone(k: int, x: int, y: int)
    requires k > 0 && x <= y
    ensures k * x <= k * y
  {
    assert k * y - k * x == k * (y - x);
  }

  /** If `a <= b * m`, the rounded quotient a/b is at most `m`. */
  lemma RoundedAtMost(r: int, a: int, b: int, m: int)
    requires b > 0 && IsRounded(r, a, b) && a <= b * m
    ensures r <= m
  {
    if r > m {
      MulMonotone(2 * b, m + 1, r);
    }
  }

  /** `w` x `h` is the canvas size the source computes for a `width` x `height`
      image: an image whose longest side is within the limit keeps its size;
      otherwise the longest side (the height when the sides are equal) becomes
      the limit and the other side is scaled by the same factor and rounded. */
  predicate IsResize(width: nat, height: nat, w: nat, h: nat)
  {
    if Max(width, height) <= MAX_DIMENSION then w == width && h == height
    else if width > height then w == MAX_DIMENSION && IsRounded(h, height * MAX_DIMENSION, width)
    else h == MAX_DIMENSION && IsRounded(w, width * MAX_DIMENSION, height)
  }

  /** The canvas size is determined by the image size. */
  lemma ResizeUnique(width: nat, height: nat, w1: nat, h1: nat, w2: nat, h2: nat)
    requires IsResize(width, height, w1, h1) && IsResize(width, height, w2, h2)
    ensures w1 == w2 && h1 == h2
  {
    if Max(width, height) > MAX_DIMENSION {
      if width > height {
        RoundedUnique(h1, h2, height * MAX_DIMENSION, width);
      } else {
        RoundedUnique(w1, w2, width * MAX_DIMENSION, height);
      }
    }
  }

  /** Neither side of the canvas exceeds the limit; the longest side meets it
      exactly when the image exceeded it; the orientation is kept. */
  lemma ResizeBounds(width: nat, height: nat, w: nat, h: nat)
    requires IsResize(width, height, w, h)
    ensures w <= MAX_DIMENSION && h <= MAX_DIMENSION
    ensures Max(width, height) > MAX_DIMENSION <==> Max(w, h) == MAX_DIMENSION && (w, h) != (width, height)
    ensures width > height ==> w >= h
    ensures width <= height ==> w <= h
  {
    if Max(width, height) > MAX_DIMENSION {
      if width > height {
        assert height * MAX_DIMENSION <= width * MAX_DIMENSION;
        RoundedAtMost(h, height * MAX_DIMENSION, width, MAX_DIMENSION);
      } else {
        assert width * MAX_DIMENSION <= height * MAX_DIMENSION;
        RoundedAtMost(w, width * MAX_DIMENSION, height, MAX_DIMENSION);
      }
    }
  }

  /** `estimatedSize > MAX_FILE_SIZE` with `estimatedSize = (length * 3) / 4`,
      a floating-point division that is exact here, so the comparison is
      the rational one: 3 * length > 4 * MAX_FILE_SIZE. */
  predicate OverBudget(length: nat)
  {
    3 * length > 4 * MAX_FILE_SIZE
  }

  /** The decoded size `ceil(3 * length / 4)` exceeds the budget exactly when
      the estimate does: the estimate is not rounded, but the budget is an
      integer. */
  lemma OverBudgetIsCeiling(length: nat)
    ensures OverBudget(length) <==> (3 * length + 3) / 4 > MAX_FILE_SIZE
  {
  }

  /** Lines 13-25: the reassignment of `width` and `height`. */
  method ResizeToFit(width: nat, height: nat) returns (w: nat, h: nat)
    ensures IsResize(width, height, w, h)
    ensures w <= MAX_DIMENSION && h <= MAX_DIMENSION
    ensures Max(width, height) <= MAX_DIMENSION ==> w == width && h == height
    ensures Max(width, height) > MAX_DIMENSION ==> Max(w, h) == MAX_DIMENSION
  {
    w, h := width, height;
    if w > h {
      if w > MAX_DIMENSION {
        h := RoundDiv(h * MAX_DIMENSION, w);
        w := MAX_DIMENSION;
      }
    } else {
      if h > MAX_DIMENSION {
        w := RoundDiv(w * MAX_DIMENSION, h);
        h := MAX_DIMENSION;
      }
    }
    ResizeBounds(width, height, w, h);
  }

  /** `compressImage(file)`. `hasContext` says whether the canvas gave a 2D
      context; `toDataUrl` is the canvas encoder after the image was drawn at
      the `canvas` size. `attempts` lists the encodings made, in order. */
  method CompressImage(file: ImageFile, hasContext: bool, toDataUrl: Quality -> string)
    returns (result: Result<string, CompressError>, canvas: Option<Dims>, attempts: seq<Quality>)
    ensures file.Unreadable? ==> result == Failure(ReadFailed) && canvas == None && attempts == []
    ensures file.Undecodable? ==> result == Failure(LoadFailed) && canvas == None && attempts == []
    ensures file.Bitmap? <==> canvas.Some?
    ensures canvas.Some? ==> IsResize(file.width, file.height, canvas.value.width, canvas.value.height)
    ensures file.Bitmap? && !hasContext ==> result == Failure(NoContext) && attempts == []
    ensures file.Bitmap? && hasContext ==>
              && |attempts| >= 1 && attempts[0] == Standard
              && (!OverBudget(|toDataUrl(Standard)|) ==> result == Success(toDataUrl(Standard)) && attempts == [Standard])
              && (OverBudget(|toDataUrl(Standard)|) ==> attempts == [Standard, Reduced])
              && (OverBudget(|toDataUrl(Standard)|) && !OverBudget(|toDataUrl(Reduced)|)
                  ==> result == Success(toDataUrl(Reduced)))
              && (OverBudget(|toDataUrl(Standard)|) && OverBudget(|toDataUrl(Reduced)|)
                  ==> result == Failure(TooLarge))
    ensures result.Success? ==> !OverBudget(|result.value|)
  {
    match file {
      case Unreadable =>
        return Failure(ReadFailed), None, [];
      case Undecodable =>
        return Failure(LoadFailed), None, [];
      case Bitmap(width, height) =>
        var w, h := ResizeToFit(width, height);
        canvas := Some(Dims(w, h));
        if !hasContext {
          return Failure(NoContext), canvas, [];
        }
        var base64 := toDataUrl(Standard);
        attempts := [Standard];
        if OverBudget(|base64|) {
          var lowerQualityBase64 := toDataUrl(Reduced);
          attempts := attempts + [Reduced];
          if OverBudget(|lowerQualityBase64|) {
            return Failure(TooLarge), canvas, attempts;
          }
          return Success(lowerQualityBase64), canvas, attempts;
        }
        result := Success(base64);
    }
  }
}
