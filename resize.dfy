/**
 * The size arithmetic of image loading (`load_image`, app/backend/main.py)
 * and of the endpoint's preparation of the content and style images. An
 * image's size is PIL's (width, height); its tensor has spatial shape
 * (height, width). The pixel resampling itself is not modelled.
 */
module Resize {
  import opened Wrappers
  import opened Arith

  /** A PIL image size, (width, height). */
  datatype Size = Size(width: nat, height: nat)

  /** The longer side a loaded image may keep. */
  const MaxSize: nat := 512

  function Longest(s: Size): nat {
    if s.width >= s.height then s.width else s.height
  }

  function Min(a: nat, b: nat): nat {
    if a <= b then a else b
  }

  /** One side scaled by maxSize / longest and truncated: floor(side * maxSize / longest). */
  function ScaleSide(side: nat, maxSize: nat, longest: nat): nat
    requires longest > 0
  {
    side * maxSize / longest
  }

  /** The aspect-preserving downsize of an image whose longer side exceeds maxSize. */
  function ScaleToFit(s: Size, maxSize: nat): Size
    requires Longest(s) > maxSize
  {
    Size(ScaleSide(s.width, maxSize, Longest(s)), ScaleSide(s.height, maxSize, Longest(s)))
  }

  /**
   * A scaled side is the largest whole number not above side * maxSize / longest;
   * it never grows when maxSize < longest, and the longest side becomes exactly maxSize.
   */
  lemma ScaleSideSpec(side: nat, maxSize: nat, longest: nat)
    requires side <= longest && maxSize < longest
    ensures var r := ScaleSide(side, maxSize, longest);
      && longest * r <= side * maxSize < longest * r + longest
      && r <= side
      && r <= maxSize
      && (side == longest ==> r == maxSize)
  {
    var r := ScaleSide(side, maxSize, longest);
    FloorDiv(side * maxSize, longest);
    MulMono(side, maxSize, longest);
    assert side * longest == longest * side;
    MulCancelLe(longest, r, side);
    MulMono(maxSize, side, longest);
    assert maxSize * longest == longest * maxSize;
    MulCancelLe(longest, r, maxSize);
    if side == longest {
      DivMod(side * maxSize, longest, maxSize, 0);
    }
  }

  lemma MulCancelLe(k: int, a: int, b: int)
    requires k >= 1 && k * a <= k * b
    ensures a <= b
  {
    MulStep(k, b, a);
  }

  /**
   * The downsize step: when the longer side exceeds maxSize, the longer side
   * becomes maxSize, neither side grows, and each side is its exact
   * proportional value truncated; otherwise nothing changes.
   */
  lemma ScaleToFitSpec(s: Size, maxSize: nat)
    requires Longest(s) > maxSize
    ensures var r := ScaleToFit(s, maxSize);
      && Longest(r) == maxSize
      && r.width <= s.width && r.height <= s.height
      && Longest(s) * r.width <= s.width * maxSize < Longest(s) * (r.width + 1)
      && Longest(s) * r.height <= s.height * maxSize < Longest(s) * (r.height + 1)
  {
    ScaleSideSpec(s.width, maxSize, Longest(s));
    ScaleSideSpec(s.height, maxSize, Longest(s));
  }

  /** The size after the first step of loading: downsized when the longer side exceeds maxSize. */
  function Downsized(s: Size, maxSize: nat): Size {
    if Longest(s) > maxSize then ScaleToFit(s, maxSize) else s
  }

  /** The downsize keeps the longer side within maxSize and never enlarges a side. */
  lemma DownsizedSpec(s: Size, maxSize: nat)
    ensures var r := Downsized(s, maxSize);
      && Longest(r) == Min(Longest(s), maxSize)
      && r.width <= s.width && r.height <= s.height
      && (Longest(s) <= maxSize ==> r == s)
  {
    if Longest(s) > maxSize {
      ScaleToFitSpec(s, maxSize);
    }
  }

  /** A very thin image can lose a side entirely: 1025×1 becomes 512×0. */
  lemma ThinImageVanishes()
    ensures ScaleToFit(Size(1025, 1), MaxSize) == Size(512, 0)
  {
    DivMod(1025 * 512, 1025, 512, 0);
    DivMod(512, 1025, 0, 512);
  }

  /**
   * Loading an image: first the aspect-preserving downsize, then, when a
   * shape is given, the forced resize to it, whose first entry PIL reads as
   * the width.
   */
  method LoadImage(size: Size, maxSize: nat, shape: Option<(nat, nat)>) returns (r: Size)
    ensures shape.Some? ==> r == Size(shape.value.0, shape.value.1)
    ensures shape.None? ==> r == Downsized(size, maxSize)
    ensures shape.None? ==> Longest(r) == Min(Longest(size), maxSize)
    ensures shape.None? ==> r.width <= size.width && r.height <= size.height
  {
    r := size;
    if Longest(r) > maxSize {
      r := ScaleToFit(r, maxSize);
    }
    DownsizedSpec(size, maxSize);
    if shape.Some? {
      r := Size(shape.value.0, shape.value.1);
    }
  }

  /** The spatial shape (height, width) of an image's tensor. */
  function TensorShape(s: Size): (nat, nat) {
    (s.height, s.width)
  }

  /**
   * The preparation of the two images as the endpoint writes it: the style
   * image is resized to the content tensor's shape, which is (height, width),
   * but PIL reads that pair as (width, height). The style tensor therefore
   * ends up with the content's shape transposed.
   */
  method PrepareImagesAsWritten(contentSize: Size, styleSize: Size)
    returns (contentShape: (nat, nat), styleShape: (nat, nat))
    ensures contentShape == TensorShape(Downsized(contentSize, MaxSize))
    ensures styleShape == (contentShape.1, contentShape.0)
    ensures styleShape == contentShape <==> contentShape.0 == contentShape.1
  {
    var content := LoadImage(contentSize, MaxSize, None);
    contentShape := TensorShape(content);
    var style := LoadImage(styleSize, MaxSize, Some(contentShape));
    styleShape := TensorShape(style);
  }

  /**
   * The preparation with the size handed to PIL in its own (width, height)
   * order: the style tensor has exactly the content tensor's shape.
   */
  method PrepareImages(contentSize: Size, styleSize: Size)
    returns (contentShape: (nat, nat), styleShape: (nat, nat))
    ensures contentShape == TensorShape(Downsized(contentSize, MaxSize))
    ensures styleShape == contentShape
  {
    var content := LoadImage(contentSize, MaxSize, None);
    contentShape := TensorShape(content);
    var style := LoadImage(styleSize, MaxSize, Some((contentShape.1, contentShape.0)));
    styleShape := TensorShape(style);
  }

  /** A 300×200 content image gives a 200×300 content tensor and a 300×200 style tensor. */
  method TransposedExample() returns (contentShape: (nat, nat), styleShape: (nat, nat))
    ensures contentShape == (200, 300) && styleShape == (300, 200)
  {
    contentShape, styleShape := PrepareImagesAsWritten(Size(300, 200), Size(640, 480));
  }
}
