/** `resizeImageTo1280x720`: the "cover" rule that scales a source image so
    it fills a 1280x720 canvas, matching one dimension and centre-cropping
    the other, and the three ways the resize can fail.

    The geometry uses exact `real` arithmetic. The canvas, the image decoder
    and the JPEG encoder are not modelled: whether a 2D context exists, what
    the decoder reports and what the encoder returns are parameters. */
module ImageProcessing {
  import opened Outcomes

  const TargetWidth: real := 1280.0
  const TargetHeight: real := 720.0

  /** The arguments of `drawImage(img, offsetX, offsetY, drawWidth, drawHeight)`. */
  datatype DrawRect = DrawRect(offsetX: real, offsetY: real, drawWidth: real, drawHeight: real)

  /** The branch test `imageAspect > targetAspect`. */
  predicate WiderThanTarget(width: nat, height: nat)
    requires height > 0
  {
    (width as real) / (height as real) > TargetWidth / TargetHeight
  }

  /** The draw rectangle for a `width` x `height` source. */
  function CoverRect(width: nat, height: nat): (r: DrawRect)
    requires width > 0 && height > 0
    // no distortion: the rectangle has the source's aspect ratio
    ensures r.drawWidth * (height as real) == r.drawHeight * (width as real)
    // the canvas is covered
    ensures r.drawWidth >= TargetWidth && r.drawHeight >= TargetHeight
    // the rectangle is centred on the canvas and never starts inside it
    ensures 2.0 * r.offsetX + r.drawWidth == TargetWidth
    ensures 2.0 * r.offsetY + r.drawHeight == TargetHeight
    ensures r.offsetX <= 0.0 && r.offsetY <= 0.0
    // one dimension fits exactly and that axis is not shifted
    ensures WiderThanTarget(width, height) ==> r.drawHeight == TargetHeight && r.offsetY == 0.0
    ensures !WiderThanTarget(width, height) ==> r.drawWidth == TargetWidth && r.offsetX == 0.0
  {
    var w, h := width as real, height as real;
    if WiderThanTarget(width, height) then
      var drawWidth := w * (TargetHeight / h);
      DrawRect((TargetWidth - drawWidth) / 2.0, 0.0, drawWidth, TargetHeight)
    else
      var drawHeight := h * (TargetWidth / w);
      DrawRect(0.0, (TargetHeight - drawHeight) / 2.0, TargetWidth, drawHeight)
  }

  /** The ratio test is the integer comparison
      720 * width > 1280 * height. */
  lemma WiderIsIntegerTest(width: nat, height: nat)
    requires width > 0 && height > 0
    ensures WiderThanTarget(width, height) <==> 720 * width > 1280 * height
  {
    var w, h := width as real, height as real;
    var q := w / h;
    assert q * h == w;
    ScaleStrict(q, TargetWidth / TargetHeight, TargetHeight * h);
    assert q * (TargetHeight * h) == TargetHeight * w;
    assert (TargetWidth / TargetHeight) * (TargetHeight * h) == TargetWidth * h;
  }

  /** Multiplying by a positive factor keeps a strict comparison. */
  lemma ScaleStrict(a: real, b: real, c: real)
    requires c > 0.0
    ensures a > b <==> a * c > b * c
  {
  }

  /** An exact 16:9 source takes the second branch and is drawn over the
      whole canvas without cropping. */
  lemma SixteenByNine(width: nat, height: nat)
    requires width > 0 && height > 0 && 9 * width == 16 * height
    ensures CoverRect(width, height) == DrawRect(0.0, 0.0, TargetWidth, TargetHeight)
  {
  }

  /** The cover rectangle is the only one with the source's aspect ratio
      that covers the canvas, is centred on it and fits one dimension
      exactly. */
  lemma CoverRectUnique(width: nat, height: nat, d: DrawRect)
    requires width > 0 && height > 0
    requires d.drawWidth * (height as real) == d.drawHeight * (width as real)
    requires d.drawWidth >= TargetWidth && d.drawHeight >= TargetHeight
    requires 2.0 * d.offsetX + d.drawWidth == TargetWidth
    requires 2.0 * d.offsetY + d.drawHeight == TargetHeight
    requires d.drawWidth == TargetWidth || d.drawHeight == TargetHeight
    ensures d == CoverRect(width, height)
  {
  }

  // ---------------------------------------------------------------------------
  // The whole resize

  /** What the image decoder reports: `onload` with the natural size, or
      `onerror`. */
  datatype ImageLoad = Loaded(width: nat, height: nat) | LoadError

  datatype ResizeError = NoContext | LoadFailed | EncodeFailed

  function ErrorMessage(e: ResizeError): string
  {
    match e
    case NoContext => "Could not get canvas context"
    case LoadFailed => "Failed to load image"
    case EncodeFailed => "Failed to create blob"
  }

  /** The three failures carry three different messages. */
  lemma ErrorMessagesDistinct(a: ResizeError, b: ResizeError)
    ensures ErrorMessage(a) == ErrorMessage(b) <==> a == b
  {
  }

  /** A successful resize: the canvas size, the draw call and the encoded
      JPEG blob. */
  datatype Resized = Resized(canvasWidth: nat, canvasHeight: nat, draw: DrawRect, blob: seq<bv8>)

  /** `resizeImageTo1280x720`: `hasContext` says whether `getContext('2d')`
      returned a context, `image` is what the decoder reports and `encoded`
      what `toBlob` hands its callback (`None` for `null`). A decoded image
      of zero width or height is excluded: the source's ratio is then not a
      number. */
  function ResizeImageTo1280x720(hasContext: bool, image: ImageLoad, encoded: Option<seq<bv8>>): (r: Result<Resized, ResizeError>)
    requires image.Loaded? ==> image.width > 0 && image.height > 0
    ensures !hasContext ==> r == Err(NoContext)
    ensures hasContext && image.LoadError? ==> r == Err(LoadFailed)
    ensures hasContext && image.Loaded? && encoded.None? ==> r == Err(EncodeFailed)
    ensures r.Ok? <==> hasContext && image.Loaded? && encoded.Some?
    ensures r.Ok? ==>
      && r.value.canvasWidth == 1280 && r.value.canvasHeight == 720
      && r.value.draw == CoverRect(image.width, image.height)
      && r.value.blob == encoded.value
  {
    if !hasContext then Err(NoContext)
    else match image
      case LoadError => Err(LoadFailed)
      case Loaded(w, h) =>
        var draw := CoverRect(w, h);
        match encoded
        case None => Err(EncodeFailed)
        case Some(blob) => Ok(Resized(1280, 720, draw, blob))
  }
}
