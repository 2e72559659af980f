/** The format catalogue: the capture subtypes `updateProperties` records as
    surface formats, the integer frame rate it attaches, and the mapping and
    negotiation `setProperties` performs to put a requested format back on
    the capture pin. */
module FormatCatalogue {
  import opened MediaTypes

  // ------------------------------------------------- subtype <-> pixel format

  /** The if-chain of `updateProperties`: the surface format a capture subtype
      is recorded as, None for H.263, YUYV and unknown subtypes (only warned
      about). */
  function SurfaceFormatOf(s: Subtype): (r: Option<PixelFormat>)
    ensures r.None? <==> s == YUYV || s == H263 || s.OtherSubtype?
    ensures r.Some? ==> !r.value.FormatOther?
  {
    match s
    case RGB24 => Some(FormatRGB24)
    case RGB32 => Some(FormatRGB32)
    case YUY2 => Some(FormatYUYV)
    case MJPG => Some(FormatUser)
    case I420 => Some(FormatYUV420P)
    case RGB555 => Some(FormatRGB555)
    case UYVY => Some(FormatUYVY)
    case _ => None
  }

  /** The decompressor `setProperties` creates between the capture filter and
      the sample grabber (`pIntermediateFilter`). */
  datatype Decoder = NoDecoder | MjpegDecoder | AviDecoder

  /** The subtype asked of the capture pin (`in_mt`), the subtype the sample
      grabber is set to (`out_mt`), and the decoder needed between them. */
  datatype GrabberPlan = GrabberPlan(input: Subtype, output: Subtype, decoder: Decoder)

  /** The if-chain of `setProperties`. Each of the seven recorded formats maps
      back to the subtype it was recorded from; motion JPEG and I420 are
      decoded to RGB24, every other format is passed through unchanged. */
  function PlanFor(pf: PixelFormat): (r: Option<GrabberPlan>)
    ensures r.None? <==> pf.FormatOther?
    ensures r.Some? ==> SurfaceFormatOf(r.value.input) == Some(pf)
    ensures forall s :: SurfaceFormatOf(s) == Some(pf) ==> r.Some? && r.value.input == s
    ensures r.Some? ==> (r.value.decoder != NoDecoder <==> r.value.input in {MJPG, I420})
    ensures r.Some? && r.value.decoder != NoDecoder ==> r.value.output == RGB24
    ensures r.Some? && r.value.decoder == NoDecoder ==> r.value.output == r.value.input
  {
    match pf
    case FormatRGB24 => Some(GrabberPlan(RGB24, RGB24, NoDecoder))
    case FormatRGB32 => Some(GrabberPlan(RGB32, RGB32, NoDecoder))
    case FormatYUYV => Some(GrabberPlan(YUY2, YUY2, NoDecoder))
    case FormatUser => Some(GrabberPlan(MJPG, RGB24, MjpegDecoder))
    case FormatYUV420P => Some(GrabberPlan(I420, RGB24, AviDecoder))
    case FormatRGB555 => Some(GrabberPlan(RGB555, RGB555, NoDecoder))
    case FormatUYVY => Some(GrabberPlan(UYVY, UYVY, NoDecoder))
    case FormatOther(_) => None
  }

  // -------------------------------------------------------------- frame rate

  /** C++ `/` on integers of either sign: the quotient truncated toward zero,
      so that `q * b` is the multiple of `b` nearest `a` on the side of zero. */
  function CDiv(a: int, b: int): (q: int)
    requires b != 0
    ensures a >= 0 ==> q * b <= a < q * b + (if b > 0 then b else -b)
    ensures a < 0 ==> q * b - (if b > 0 then b else -b) < a <= q * b
    ensures a * b >= 0 ==> q >= 0
    ensures a * b <= 0 ==> q <= 0
  {
    if b > 0 then
      SignOfProduct(a, b);
      TruncDiv(a, b)
    else
      var t := TruncDiv(a, -b);
      NegateFactors(t, b);
      SignOfProduct(a, -b);
      -t
  }

  lemma NegateFactors(t: int, b: int)
    ensures (-t) * b == t * (-b)
  {
  }

  /** With b > 0, the product a * b has the sign of a. */
  lemma SignOfProduct(a: int, b: int)
    requires b > 0
    ensures a * b >= 0 <==> a >= 0
    ensures a * b <= 0 <==> a <= 0
  {
    if a > 0 {
      MulPositive(a, b);
    } else if a < 0 {
      MulPositive(-a, b);
    }
  }

  lemma MulPositive(a: int, b: int)
    requires a > 0 && b > 0
    ensures a * b > 0 && (-a) * b < 0
  {
  }

  /** `AvgTimePerFrame / 10000`: the frame interval in whole milliseconds,
      truncated toward zero. */
  function FrameRateDivisor(avgTimePerFrame: int): (d: int)
    ensures d == 0 <==> -10000 < avgTimePerFrame < 10000
    ensures avgTimePerFrame >= 0 ==> d * 10000 <= avgTimePerFrame < d * 10000 + 10000
    ensures avgTimePerFrame < 0 ==> d * 10000 - 10000 < avgTimePerFrame <= d * 10000
  {
    TruncDiv(avgTimePerFrame, 10000)
  }

  /** `1000 / (AvgTimePerFrame / 10000)`: frames per second, truncated toward
      zero; the divisor must not be zero. For a positive interval of d whole
      milliseconds the rate is the largest r with r * d <= 1000; a negative
      interval gives the negated rate of its magnitude. */
  function FrameRate(avgTimePerFrame: int): (rate: int)
    requires FrameRateDivisor(avgTimePerFrame) != 0
    ensures avgTimePerFrame >= 10000 ==>
              0 <= rate <= 1000
              && rate * FrameRateDivisor(avgTimePerFrame) <= 1000
              && 1000 < (rate + 1) * FrameRateDivisor(avgTimePerFrame)
    ensures avgTimePerFrame <= -10000 ==>
              -1000 <= rate <= 0
              && rate * FrameRateDivisor(avgTimePerFrame) <= 1000
              && 1000 < (rate - 1) * FrameRateDivisor(avgTimePerFrame)
  {
    var d := FrameRateDivisor(avgTimePerFrame);
    var rate := CDiv(1000, d);
    if d > 0 then
      AtMostProduct(rate, d);
      rate
    else
      AtMostProduct(-rate, -d);
      NegateFactors(-rate, d);
      rate
  }

  lemma AtMostProduct(r: int, d: int)
    requires r >= 0 && d >= 1
    ensures r <= r * d
  {
    assert r * d == r * (d - 1) + r;
    if r > 0 && d > 1 {
      MulPositive(r, d - 1);
    }
  }

  /** Common intervals: 30, 25 and 15 frames per second come out exactly. */
  lemma CommonFrameRates()
    ensures FrameRate(333333) == 30 && FrameRate(400000) == 25 && FrameRate(666666) == 15
  {
    assert FrameRateDivisor(333333) == 33;
    assert FrameRateDivisor(400000) == 40;
    assert FrameRateDivisor(666666) == 66;
  }

  /** An interval under 1 ms (over 1000 frames per second, or the 0 a
      driver reports for an unknown rate) makes the division fault. */
  lemma FrameRateUndefinedBelowOneMs(avgTimePerFrame: int)
    requires 0 <= avgTimePerFrame < 10000
    ensures FrameRateDivisor(avgTimePerFrame) == 0
  {
  }

  // ------------------------------------------------------- updateProperties

  /** Whether a capability is a video type with a VIDEOINFOHEADER (None: the
      capability could not be read). */
  predicate IsVideoInfo(cap: Option<MediaType>)
  {
    cap.Some? && cap.value.isVideo && cap.value.isVideoInfo
  }

  /** Whether `updateProperties` records a capability. */
  predicate Recorded(cap: Option<MediaType>)
  {
    IsVideoInfo(cap) && SurfaceFormatOf(cap.value.subtype).Some?
  }

  /** Whether the frame rate of every recorded capability can be computed. */
  predicate RatesDefined(caps: seq<Option<MediaType>>)
  {
    forall i | 0 <= i < |caps| :: Recorded(caps[i]) ==> FrameRateDivisor(caps[i].value.avgTimePerFrame) != 0
  }

  /** The surface format a recorded capability becomes. */
  function EntryOf(m: MediaType): (f: SurfaceFormat)
    requires SurfaceFormatOf(m.subtype).Some? && FrameRateDivisor(m.avgTimePerFrame) != 0
    ensures f.width == m.width && f.height == m.height
    ensures PlanFor(f.pixelFormat).Some? && PlanFor(f.pixelFormat).value.input == m.subtype
  {
    SurfaceFormat(m.width, m.height, SurfaceFormatOf(m.subtype).value, FrameRate(m.avgTimePerFrame))
  }

  /** The `m_formats` list `updateProperties` builds from the capabilities, in
      index order. */
  function Catalogue(caps: seq<Option<MediaType>>): (r: seq<SurfaceFormat>)
    requires RatesDefined(caps)
    ensures |r| <= |caps|
    decreases |caps|
  {
    if caps == [] then []
    else
      var last := caps[|caps| - 1];
      assert RatesDefined(caps[..|caps| - 1]);
      Catalogue(caps[..|caps| - 1]) + (if Recorded(last) then [EntryOf(last.value)] else [])
  }

  /** Every entry of the catalogue comes from a recorded capability. */
  lemma {:induction false} CatalogueSound(caps: seq<Option<MediaType>>, f: SurfaceFormat)
    requires RatesDefined(caps) && f in Catalogue(caps)
    ensures exists i | 0 <= i < |caps| :: Recorded(caps[i]) && f == EntryOf(caps[i].value)
  {
    var init := caps[..|caps| - 1];
    var last := caps[|caps| - 1];
    assert RatesDefined(init);
    if f in Catalogue(init) {
      CatalogueSound(init, f);
      var i :| 0 <= i < |init| && Recorded(init[i]) && f == EntryOf(init[i].value);
      assert caps[i] == init[i];
    } else {
      assert Recorded(last) && f == EntryOf(last.value);
    }
  }

  /** Every recorded capability has its entry in the catalogue. */
  lemma {:induction false} CatalogueComplete(caps: seq<Option<MediaType>>, i: nat)
    requires RatesDefined(caps) && i < |caps| && Recorded(caps[i])
    ensures EntryOf(caps[i].value) in Catalogue(caps)
  {
    var init := caps[..|caps| - 1];
    assert RatesDefined(init);
    if i < |caps| - 1 {
      assert init[i] == caps[i];
      CatalogueComplete(init, i);
    }
  }

  /** A format taken from the catalogue can be negotiated again: it maps back
      to the capture subtype and size of some capability. */
  lemma CatalogueRoundTrip(caps: seq<Option<MediaType>>, f: SurfaceFormat)
    requires RatesDefined(caps) && f in Catalogue(caps)
    ensures PlanFor(f.pixelFormat).Some?
    ensures exists i | 0 <= i < |caps| :: IsVideoInfo(caps[i])
              && caps[i].value.subtype == PlanFor(f.pixelFormat).value.input
              && caps[i].value.width == f.width && caps[i].value.height == f.height
  {
    CatalogueSound(caps, f);
  }

  // ------------------------------------------------ setProperties negotiation

  /** A capability `setProperties` will try: video, VIDEOINFOHEADER, and
      exactly the requested width and height (its subtype is not compared). */
  predicate SizeMatches(cap: Option<MediaType>, width: int, height: int)
  {
    IsVideoInfo(cap) && cap.value.width == width && cap.value.height == height
  }

  /** Whether the device takes capability i, given that it is tried. */
  predicate Takes(caps: seq<Option<MediaType>>, accepts: seq<bool>, width: int, height: int, i: int)
    requires |accepts| == |caps|
  {
    0 <= i < |caps| && SizeMatches(caps[i], width, height) && accepts[i]
  }

  /** The first capability from index `from` on that matches the size and
      that the device accepts. */
  function FirstAcceptedFrom(caps: seq<Option<MediaType>>, accepts: seq<bool>, width: int, height: int, from: nat): (r: Option<nat>)
    requires |accepts| == |caps|
    ensures r.Some? ==> from <= r.value < |caps| && Takes(caps, accepts, width, height, r.value)
    ensures r.Some? ==> forall j | from <= j < r.value :: !Takes(caps, accepts, width, height, j)
    ensures r.None? ==> forall j | from <= j < |caps| :: !Takes(caps, accepts, width, height, j)
    decreases |caps| - from
  {
    if from >= |caps| then None
    else if Takes(caps, accepts, width, height, from) then Some(from)
    else FirstAcceptedFrom(caps, accepts, width, height, from + 1)
  }

  function FirstAccepted(caps: seq<Option<MediaType>>, accepts: seq<bool>, width: int, height: int): (r: Option<nat>)
    requires |accepts| == |caps|
  {
    FirstAcceptedFrom(caps, accepts, width, height, 0)
  }

  /** The indices below n whose capability matches the size: the ones
      `SetFormat` is called on, in order. */
  function MatchingBelow(caps: seq<Option<MediaType>>, width: int, height: int, n: nat): (r: seq<nat>)
    requires n <= |caps|
    ensures forall k | 0 <= k < |r| :: r[k] < n && SizeMatches(caps[r[k]], width, height)
    ensures forall i | 0 <= i < n :: SizeMatches(caps[i], width, height) ==> i in r
  {
    if n == 0 then []
    else MatchingBelow(caps, width, height, n - 1) + (if SizeMatches(caps[n - 1], width, height) then [n - 1] else [])
  }

  /** The negotiation loop of `setProperties`: every capability of matching
      size is offered, with its subtype replaced by `input`, in index order
      until the device accepts one. Returns the accepted index, the media
      type the pin was set to, and the indices offered. */
  method Negotiate(caps: seq<Option<MediaType>>, accepts: seq<bool>, width: int, height: int, input: Subtype)
    returns (chosen: Option<nat>, setTo: Option<MediaType>, offered: seq<nat>)
    requires |accepts| == |caps|
    ensures chosen == FirstAccepted(caps, accepts, width, height)
    ensures chosen.Some? ==> setTo == Some(caps[chosen.value].value.(subtype := input))
    ensures chosen.None? ==> setTo.None?
    ensures offered == MatchingBelow(caps, width, height, if chosen.Some? then chosen.value + 1 else |caps|)
  {
    var setFormatOK := false;
    chosen, setTo, offered := None, None, [];
    var i := 0;
    while i < |caps|
      invariant 0 <= i <= |caps|
      invariant !setFormatOK && chosen.None? && setTo.None?
      invariant offered == MatchingBelow(caps, width, height, i)
      invariant FirstAccepted(caps, accepts, width, height) == FirstAcceptedFrom(caps, accepts, width, height, i)
      decreases |caps| - i
    {
      var cap := caps[i];
      if cap.Some? && cap.value.isVideo && cap.value.isVideoInfo {
        if cap.value.width == width && cap.value.height == height {
          var pmt := cap.value.(subtype := input);
          offered := offered + [i];
          if accepts[i] {
            setFormatOK := true;
            chosen, setTo := Some(i), Some(pmt);
            break;
          }
          i := i + 1;
          continue;
        }
      }
      i := i + 1;
    }
  }

  // ------------------------------------------------------- setProperties

  /** What `FindInterface` and `GetNumberOfCapabilities` give: either a
      failure, or the outcome of `GetStreamCaps` at every index. */
  datatype ConfigOracle = ConfigUnavailable | Capabilities(caps: seq<Option<MediaType>>)

  /** COM outcomes `setProperties` depends on: the stream configuration, the
      decoder creation, `SetFormat` acceptance at each index, and the
      sample grabber's `SetMediaType`. */
  datatype PropsOracle = PropsOracle(config: ConfigOracle, decoderOk: bool, accepts: seq<bool>, grabberTypeOk: bool)

  predicate PropsWellFormed(o: PropsOracle)
  {
    o.config.Capabilities? ==> |o.accepts| == |o.config.caps|
  }

  /** The effect of `setProperties` for a requested format: whether it
      succeeds, the decoder it leaves in `pIntermediateFilter` (None: left as
      it was), the media type the capture pin was set to, and the subtype the
      sample grabber was set to. */
  datatype PropsOutcome = PropsOutcome(ok: bool, decoder: Option<Decoder>, pinType: Option<MediaType>, grabberType: Option<Subtype>)

  function PropertiesOutcome(format: SurfaceFormat, o: PropsOracle): (r: PropsOutcome)
    requires PropsWellFormed(o)
    ensures r.ok ==> r.pinType.Some? && r.grabberType.Some?
    ensures PlanFor(format.pixelFormat).None? ==> r == PropsOutcome(false, None, None, None)
  {
    if o.config.ConfigUnavailable? then PropsOutcome(false, None, None, None)
    else
      var caps := o.config.caps;
      match PlanFor(format.pixelFormat)
      case None => PropsOutcome(false, None, None, None)
      case Some(plan) =>
        var created := if plan.decoder == NoDecoder then None
                       else if o.decoderOk then Some(plan.decoder) else Some(NoDecoder);
        if plan.decoder != NoDecoder && !o.decoderOk then PropsOutcome(false, created, None, None)
        else
          match FirstAccepted(caps, o.accepts, format.width, format.height)
          case None => PropsOutcome(false, created, None, None)
          case Some(i) =>
            var pinType := Some(caps[i].value.(subtype := plan.input));
            if o.grabberTypeOk then PropsOutcome(true, created, pinType, Some(plan.output))
            else PropsOutcome(false, created, pinType, None)
  }

  /** `setProperties` succeeds exactly when the stream configuration is
      available, the format is one it knows, the decoder it needs can be
      created, some video capability of exactly the requested size accepts
      `SetFormat`, and the sample grabber accepts its media type. */
  lemma PropertiesSucceedIff(format: SurfaceFormat, o: PropsOracle)
    requires PropsWellFormed(o)
    ensures PropertiesOutcome(format, o).ok <==>
      o.config.Capabilities? && PlanFor(format.pixelFormat).Some?
      && (PlanFor(format.pixelFormat).value.decoder == NoDecoder || o.decoderOk)
      && (exists i :: Takes(o.config.caps, o.accepts, format.width, format.height, i))
      && o.grabberTypeOk
  {
    if o.config.Capabilities? && PlanFor(format.pixelFormat).Some? {
      var caps := o.config.caps;
      var r := FirstAccepted(caps, o.accepts, format.width, format.height);
      if r.None? {
        forall i ensures !Takes(caps, o.accepts, format.width, format.height, i) {
          if 0 <= i < |caps| {
            assert !Takes(caps, o.accepts, format.width, format.height, i);
          }
        }
      }
    }
  }

  /** On success the pin is set to the accepted capability with the planned
      input subtype, and the grabber to the planned output subtype. */
  lemma PropertiesSetPlannedTypes(format: SurfaceFormat, o: PropsOracle)
    requires PropsWellFormed(o) && PropertiesOutcome(format, o).ok
    ensures PlanFor(format.pixelFormat).Some?
    ensures var r := PropertiesOutcome(format, o);
            var plan := PlanFor(format.pixelFormat).value;
            r.grabberType == Some(plan.output) && r.pinType.value.subtype == plan.input
            && r.pinType.value.width == format.width && r.pinType.value.height == format.height
  {
    var caps := o.config.caps;
    var i := FirstAccepted(caps, o.accepts, format.width, format.height).value;
    assert Takes(caps, o.accepts, format.width, format.height, i);
  }

  /** A decoder created for motion JPEG or I420 stays in place when the
      negotiation then fails. */
  lemma DecoderKeptOnFailure(format: SurfaceFormat, o: PropsOracle)
    requires PropsWellFormed(o) && o.config.Capabilities? && o.decoderOk
    requires format.pixelFormat in {FormatUser, FormatYUV420P}
    requires FirstAccepted(o.config.caps, o.accepts, format.width, format.height).None?
    ensures !PropertiesOutcome(format, o).ok
    ensures PropertiesOutcome(format, o).decoder == Some(PlanFor(format.pixelFormat).value.decoder)
    ensures PropertiesOutcome(format, o).decoder != Some(NoDecoder)
  {
  }
}
