/** `DSCameraSession`: the single-shot frame gate and frame queue, the stream
    lifecycle, the device binding and the format state, with every COM call
    replaced by its outcome, passed in as an oracle value. */
module CameraSession {
  import opened MediaTypes
  import opened PixelConvert
  import opened FormatCatalogue
  import opened DeviceRegistry
  import opened SessionFlags

  /** A default-constructed QVideoSurfaceFormat: invalid size, invalid pixel
      format (enumerator 0), no frame rate. */
  const DefaultSurfaceFormat := SurfaceFormat(-1, -1, FormatOther(0), 0)

  /** What BufferCB returns: S_OK, or VFW_E_INVALIDMEDIATYPE. */
  datatype CallbackResult = CallbackOk | InvalidMediaType

  /** The connected media type BufferCB accepts samples for: video with a
      format block at least as large as a VIDEOINFOHEADER. */
  predicate AcceptsSamples(m: MediaType)
  {
    m.isVideo && m.isVideoInfo && m.cbFormat >= VideoInfoHeaderSize
  }

  /** What `captureFrame` needs of the frame at the head of the queue to
      decode it: a non-negative size and, for RGB24, W*H*3 bytes (it reads
      that many without looking at the length). */
  predicate Decodable(m: MediaType, b: VideoBuffer)
  {
    m.subtype in {RGB24, YUY2, YUYV} ==>
      m.width >= 0 && m.height >= 0
      && (m.subtype == RGB24 ==> |b.buffer| >= 3 * m.width * m.height)
  }

  /** `m_formats` after `updateProperties`: left as it was when the stream
      configuration cannot be read, otherwise the catalogue of the
      capabilities. */
  function FormatsAfterUpdate(current: seq<SurfaceFormat>, config: ConfigOracle): (r: seq<SurfaceFormat>)
    requires config.Capabilities? ==> RatesDefined(config.caps)
    ensures config.ConfigUnavailable? ==> r == current
    ensures config.Capabilities? ==> |r| <= |config.caps|
  {
    if config.ConfigUnavailable? then current else Catalogue(config.caps)
  }

  /** `pCap` after `createFilterGraph`: the binding rule applies when the
      builders were created and the video input category gave an enumerator
      (S_OK); otherwise `pCap` is untouched. */
  function FilterAfterBuild(o: GraphOracle, device: string, current: Option<Moniker>): (r: Option<Moniker>)
    ensures !o.buildersOk || !o.devices.EnumReady? ==> r == current
  {
    if o.buildersOk && o.devices.EnumReady? then BindRule(o.devices.monikers, device, current) else current
  }

  /** `pIntermediateFilter` after `setProperties`. */
  function DecoderAfter(current: Decoder, out: PropsOutcome): Decoder
  {
    if out.decoder.Some? then out.decoder.value else current
  }

  /** The fields the stream operations acquire and release besides the
      flags: `pCap`, `m_formats`, `pIntermediateFilter` and the connected
      media type. */
  datatype Resources = Resources(
    captureFilter: Option<Moniker>, formats: seq<SurfaceFormat>, decoder: Decoder, stillMediaType: MediaType)

  /** `closeStream`: the filter and the decoder are released only when the
      whole teardown succeeds. */
  function CloseResources(h: Resources, c: CloseOutcome): (r: Resources)
    ensures r.formats == h.formats && r.stillMediaType == h.stillMediaType
    ensures c == Closed ==> r.captureFilter.None? && r.decoder == NoDecoder
    ensures c != Closed ==> r == h
  {
    if c == Closed then h.(captureFilter := None, decoder := NoDecoder) else h
  }

  /** `openStream` from flags `f`: nothing when already open; the graph build
      (filter binding and catalogue) when there is no graph; the connected
      type recorded when the stream is wired. */
  function OpenResources(h: Resources, f: Flags, o: OpenOracle, device: string): (r: Resources)
    requires GraphWellFormed(o.create)
    ensures r.decoder == h.decoder
    ensures f.isOpened || f.graph ==> r.captureFilter == h.captureFilter && r.formats == h.formats
    ensures r.stillMediaType != h.stillMediaType ==> OpenFlags(f, o).ok && !f.isOpened
  {
    if f.isOpened then h
    else
      var built :=
        if f.graph then h
        else h.(captureFilter := FilterAfterBuild(o.create, device, h.captureFilter),
                formats := if GraphBuilt(o.create) then FormatsAfterUpdate(h.formats, o.create.config) else h.formats);
      if OpenFlags(f, o).ok then built.(stillMediaType := o.connected.value) else built
  }

  /** The start of `startStream` from flags `f`: the graph build when there
      is none, then the decoder `setProperties` leaves. */
  function ConfiguredResources(h: Resources, f: Flags, o: StartOracle, format: SurfaceFormat, device: string): (r: Resources)
    requires StartWellFormed(o)
    ensures r.stillMediaType == h.stillMediaType
    ensures r.decoder == DecoderAfter(h.decoder, PropertiesOutcome(format, o.props))
    ensures f.graph ==> r.captureFilter == h.captureFilter && r.formats == h.formats
  {
    var built :=
      if f.graph then h
      else h.(captureFilter := FilterAfterBuild(o.create, device, h.captureFilter),
              formats := if GraphBuilt(o.create) then FormatsAfterUpdate(h.formats, o.create.config) else h.formats);
    built.(decoder := DecoderAfter(built.decoder, PropertiesOutcome(format, o.props)))
  }

  /** `startStream` from flags `f`: the start above, then the retry's close
      and open when `setProperties` fails, then the open when the stream is
      still not open. */
  function StartResources(h: Resources, f: Flags, o: StartOracle, format: SurfaceFormat, device: string): (r: Resources)
    requires StartWellFormed(o)
    ensures r.decoder == (if PropertiesOutcome(format, o.props).ok || o.close != Closed
                          then DecoderAfter(h.decoder, PropertiesOutcome(format, o.props)) else NoDecoder)
  {
    var props := PropertiesOutcome(format, o.props);
    var configured := ConfiguredResources(h, f, o, format, device);
    var f1 := if !f.graph then f.(graph := GraphBuilt(o.create)) else f;
    var retried := if props.ok then configured
                   else OpenResources(CloseResources(configured, o.close), CloseFlags(f1, o.close), o.retry, device);
    var g := RetryFlags(f1, o, props.ok);
    if !g.ok then retried else OpenResources(retried, g.flags, o.openOracle, device)
  }

  class Session {
    var captureNextFrame: bool           // mCaptureNextFrame: the single-shot gate
    var frames: seq<VideoBuffer>         // the queue BufferCB fills, oldest first
    var stillMediaType: MediaType        // the media type connected to the sample grabber
    var graph: bool
    var isOpened: bool                   // `opened`
    var active: bool
    var currentImageId: int              // m_currentImageId
    var device: string                   // m_device
    var devices: seq<string>             // m_devices
    var descriptions: seq<string>        // m_descriptions
    var captureFilter: Option<Moniker>   // pCap: the moniker the capture filter was bound from
    var decoder: Decoder                 // pIntermediateFilter
    var formats: seq<SurfaceFormat>      // m_formats
    var actualFormat: SurfaceFormat

    function Flags(): Flags
      reads this`graph, this`isOpened, this`active
    {
      SessionFlags.Flags(graph, isOpened, active)
    }

    function Held(): Resources
      reads this`captureFilter, this`formats, this`decoder, this`stillMediaType
    {
      Resources(captureFilter, formats, decoder, stillMediaType)
    }

    /** The id `captureImage` returns is never incremented, the device lists
        stay in lockstep, the selected device is listed or "default", and the
        lifecycle flags stay coherent. */
    ghost predicate Valid()
      reads this
    {
      currentImageId == 0
      && |devices| == |descriptions|
      && (device == "default" || device in devices)
      && Coherent(Flags())
    }

    /** The constructor: gate open, device lists from a first enumeration,
        the requested device kept only when listed, then the filter graph. */
    constructor(requested: string, e: ClassEnum, create: GraphOracle)
      requires GraphWellFormed(create)
      ensures Valid()
      ensures devices == DeviceIds(MonikersOf(e)) && descriptions == DeviceDescriptions(MonikersOf(e))
      ensures device == ChooseDevice(devices, requested)
      ensures captureNextFrame && frames == [] && currentImageId == 0
      ensures Flags() == SessionFlags.Flags(GraphBuilt(create), false, false)
      ensures captureFilter == FilterAfterBuild(create, device, None)
      ensures formats == (if GraphBuilt(create) then FormatsAfterUpdate([], create.config) else [])
      ensures actualFormat == DefaultSurfaceFormat && decoder == NoDecoder && stillMediaType == ZeroMediaType
    {
      currentImageId := 0;
      captureNextFrame := true;
      frames := [];
      stillMediaType := ZeroMediaType;
      captureFilter := None;
      decoder := NoDecoder;
      isOpened := false;
      device := "default";
      formats := [];
      actualFormat := DefaultSurfaceFormat;
      var ds, descs := EnumerateDevices(e);
      devices, descriptions := ds, descs;
      if requested in ds {
        device := requested;
      }
      graph := false;
      active := false;
      new;
      graph := CreateFilterGraph(create);
      active := false;
    }

    // ------------------------------------------------ graph and properties

    /** `createFilterGraph`: builders, then the capture filter binding, then
        the sample grabber, then `updateProperties`. */
    method CreateFilterGraph(o: GraphOracle) returns (ok: bool)
      requires GraphWellFormed(o)
      modifies this`captureFilter, this`formats
      ensures ok == GraphBuilt(o)
      ensures captureFilter == FilterAfterBuild(o, device, old(captureFilter))
      ensures formats == if GraphBuilt(o) then FormatsAfterUpdate(old(formats), o.config) else old(formats)
    {
      if !o.buildersOk {
        return false;
      }
      if o.devices.EnumReady? {
        captureFilter := BindCaptureFilter(o.devices.monikers, device, captureFilter);
      }
      if !o.grabberOk {
        return false;
      }
      UpdateProperties(o.config);
      return true;
    }

    /** `updateProperties`: when the stream configuration can be read,
        `m_formats` is cleared and one entry appended per recorded
        capability. */
    method UpdateProperties(config: ConfigOracle)
      requires config.Capabilities? ==> RatesDefined(config.caps)
      modifies this`formats
      ensures formats == FormatsAfterUpdate(old(formats), config)
    {
      if config.ConfigUnavailable? {
        return;
      }
      var caps := config.caps;
      formats := [];
      var i := 0;
      while i < |caps|
        invariant 0 <= i <= |caps|
        invariant RatesDefined(caps[..i])
        invariant formats == Catalogue(caps[..i])
      {
        assert caps[..i + 1][..i] == caps[..i];
        var cap := caps[i];
        if cap.Some? && cap.value.isVideo && cap.value.isVideoInfo {
          var pf := SurfaceFormatOf(cap.value.subtype);
          if pf.Some? {
            formats := formats + [EntryOf(cap.value)];
          }
        }
        i := i + 1;
      }
      assert caps[..|caps|] == caps;
    }

    /** `setProperties` for `actualFormat`: the plan for the format, the
        decoder it needs, the negotiation, then the sample grabber's type. */
    method SetProperties(o: PropsOracle) returns (ok: bool)
      requires PropsWellFormed(o)
      modifies this`decoder
      ensures ok == PropertiesOutcome(actualFormat, o).ok
      ensures decoder == DecoderAfter(old(decoder), PropertiesOutcome(actualFormat, o))
    {
      if o.config.ConfigUnavailable? {
        return false;
      }
      var plan := PlanFor(actualFormat.pixelFormat);
      if plan.None? {
        return false;
      }
      if plan.value.decoder != NoDecoder {
        if !o.decoderOk {
          decoder := NoDecoder;
          return false;
        }
        decoder := plan.value.decoder;
      }
      var chosen, setTo, offered := Negotiate(o.config.caps, o.accepts, actualFormat.width, actualFormat.height, plan.value.input);
      if chosen.None? {
        return false;
      }
      return o.grabberTypeOk;
    }

    /** `setFormat`. */
    method SetFormat(format: SurfaceFormat)
      modifies this`actualFormat
      ensures actualFormat == format
    {
      actualFormat := format;
    }

    // ------------------------------------------------------------ lifecycle

    /** `openStream`: true at once when open; otherwise the graph is built if
        missing, the filters are wired, and the connected media type is
        recorded. `opened` is left to the caller. */
    method OpenStream(o: OpenOracle) returns (ok: bool)
      requires Valid() && GraphWellFormed(o.create)
      modifies this`graph, this`captureFilter, this`formats, this`stillMediaType
      ensures Valid()
      ensures Step(Flags(), ok) == OpenFlags(old(Flags()), o)
      ensures Held() == OpenResources(old(Held()), old(Flags()), o, device)
    {
      if isOpened {
        return true;
      }
      if !graph {
        graph := CreateFilterGraph(o.create);
        if !graph {
          return false;
        }
      }
      if !o.wiredOk || o.connected.None? {
        return false;
      }
      stillMediaType := o.connected.value;
      return true;
    }

    /** `closeStream`: `opened` is cleared once the graph stops; the filters
        are released and `graph` cleared only when the whole teardown
        succeeds. */
    method CloseStream(c: CloseOutcome)
      requires Valid()
      modifies this`isOpened, this`graph, this`captureFilter, this`decoder
      ensures Valid()
      ensures Flags() == CloseFlags(old(Flags()), c)
      ensures Held() == CloseResources(old(Held()), c)
    {
      if c == StopFailed {
        return;
      }
      isOpened := false;
      if c == TeardownFailed {
        return;
      }
      captureFilter := None;
      decoder := NoDecoder;
      graph := false;
    }

    /** `startStream`: the flags move as `StartFlags` says, given whether
        `setProperties` succeeds for the current format. */
    method StartStream(o: StartOracle) returns (ok: bool)
      requires Valid() && StartWellFormed(o)
      modifies this`graph, this`isOpened, this`active, this`captureFilter, this`formats, this`decoder, this`stillMediaType
      ensures Valid()
      ensures Step(Flags(), ok) == StartFlags(old(Flags()), o, PropertiesOutcome(actualFormat, o.props).ok)
      ensures Held() == StartResources(old(Held()), old(Flags()), o, actualFormat, device)
    {
      var propsOk := Configure(o);
      ok := RetryOpen(o, propsOk);
      if !ok {
        return;
      }
      ok := OpenAndRun(o);
    }

    /** The start of `startStream`: a graph built if there is none, then
        `setProperties` for the current format. */
    method Configure(o: StartOracle) returns (propsOk: bool)
      requires Valid() && StartWellFormed(o)
      modifies this`graph, this`captureFilter, this`formats, this`decoder
      ensures Valid()
      ensures propsOk == PropertiesOutcome(actualFormat, o.props).ok
      ensures Flags() == if !old(graph) then old(Flags()).(graph := GraphBuilt(o.create)) else old(Flags())
      ensures Held() == ConfiguredResources(old(Held()), old(Flags()), o, actualFormat, device)
    {
      if !graph {
        graph := CreateFilterGraph(o.create);
      }
      propsOk := SetProperties(o.props);
    }

    /** The retry in `startStream` once `setProperties` has failed: the
        stream closed and opened again. */
    method RetryOpen(o: StartOracle, propsOk: bool) returns (ok: bool)
      requires Valid() && StartWellFormed(o)
      modifies this`graph, this`isOpened, this`captureFilter, this`formats, this`decoder, this`stillMediaType
      ensures Valid()
      ensures Step(Flags(), ok) == RetryFlags(old(Flags()), o, propsOk)
      ensures propsOk ==> unchanged(this)
      ensures !propsOk ==>
                Held() == OpenResources(CloseResources(old(Held()), o.close), CloseFlags(old(Flags()), o.close), o.retry, device)
    {
      if propsOk {
        return true;
      }
      CloseStream(o.close);
      ok := OpenStream(o.retry);
    }

    /** The end of `startStream`: `opened` set from `openStream` when the
        stream is not open, then the media control's Run. */
    method OpenAndRun(o: StartOracle) returns (ok: bool)
      requires Valid() && StartWellFormed(o)
      modifies this`graph, this`isOpened, this`active, this`captureFilter, this`formats, this`stillMediaType
      ensures Valid()
      ensures Step(Flags(), ok) == RunFlags(old(Flags()), o)
      ensures Held() == OpenResources(old(Held()), old(Flags()), o.openOracle, device)
    {
      if !isOpened {
        var opening := OpenStream(o.openOracle);
        isOpened := opening;
        if !isOpened {
          return false;
        }
      }
      if !ControlSucceeds(o.control) {
        return false;
      }
      active := true;
      return true;
    }

    /** `stopStream`. */
    method StopStream(c: ControlOracle, close: CloseOutcome)
      requires Valid()
      modifies this`active, this`isOpened, this`graph, this`captureFilter, this`decoder
      ensures Valid()
      ensures Flags() == StopStreamFlags(old(Flags()), c, close)
      ensures !ControlSucceeds(c) ==> unchanged(this)
      ensures Held() == if ControlSucceeds(c) && old(isOpened) then CloseResources(old(Held()), close) else old(Held())
    {
      if !ControlSucceeds(c) {
        return;
      }
      active := false;
      if isOpened {
        CloseStream(close);
      }
    }

    /** `stop`. */
    method Stop(c: ControlOracle, close: CloseOutcome)
      requires Valid()
      modifies this`active, this`isOpened, this`graph, this`captureFilter, this`decoder
      ensures Valid()
      ensures Flags() == StopFlags(old(Flags()), c, close)
      ensures !old(isOpened) ==> unchanged(this)
      ensures Held() == if ControlSucceeds(c) && old(isOpened) then CloseResources(old(Held()), close) else old(Held())
    {
      if !isOpened {
        return;
      }
      StopStream(c, close);
      isOpened := false;
    }

    /** `suspendStream`. */
    method SuspendStream(c: ControlOracle)
      requires Valid()
      modifies this`active
      ensures Valid()
      ensures Flags() == SuspendFlags(old(Flags()), c)
    {
      if !ControlSucceeds(c) {
        return;
      }
      active := false;
    }

    /** `pause`: the stream is suspended. */
    method Pause(c: ControlOracle)
      requires Valid()
      modifies this`active
      ensures Valid()
      ensures Flags() == SuspendFlags(old(Flags()), c)
    {
      SuspendStream(c);
    }

    /** `resumeStream`, with `active` set after Run succeeds (the source clears
        it; see `ResumeFlagsAsWritten`). */
    method ResumeStream(c: ControlOracle)
      requires Valid()
      modifies this`active
      ensures Valid()
      ensures Flags() == ResumeFlags(old(Flags()), c)
    {
      if !ControlSucceeds(c) {
        return;
      }
      active := true;
    }

    /** `captureImage`: starts the stream when it is not active and returns
        the image id, which is always 0. */
    method CaptureImage(o: StartOracle) returns (id: int)
      requires Valid() && StartWellFormed(o)
      modifies this`graph, this`isOpened, this`active, this`captureFilter, this`formats, this`decoder, this`stillMediaType
      ensures Valid()
      ensures id == 0
      ensures old(active) ==> Flags() == old(Flags())
      ensures !old(active) ==> Flags() == StartFlags(old(Flags()), o, PropertiesOutcome(actualFormat, o.props).ok).flags
      ensures old(active) ==> unchanged(this)
      ensures !old(active) ==> Held() == StartResources(old(Held()), old(Flags()), o, actualFormat, device)
    {
      if !active {
        var started := StartStream(o);
      }
      return currentImageId;
    }

    // ------------------------------------------------- frame gate and queue

    /** The gate part of `capture`: the next sample will be kept. */
    method Capture()
      modifies this`captureNextFrame
      ensures captureNextFrame
    {
      captureNextFrame := true;
    }

    /** `captureFrame`, corrected: for a decodable subtype, the oldest frame
        is taken off the queue and its image emitted (as written, the
        YUY2/YUYV branch emits an empty image instead); for any other
        subtype, or an empty queue, nothing happens. */
    method CaptureFrame() returns (emitted: Option<Image>)
      requires frames != [] ==> Decodable(stillMediaType, frames[0])
      modifies this`frames
      ensures old(frames) == [] ==> emitted.None? && frames == []
      ensures old(frames) != [] && stillMediaType.subtype in {RGB24, YUY2, YUYV} ==>
                emitted == FrameImage(stillMediaType.subtype, old(frames)[0].buffer, stillMediaType.width, stillMediaType.height)
                && frames == old(frames)[1..]
      ensures stillMediaType.subtype !in {RGB24, YUY2, YUYV} ==> emitted.None? && frames == old(frames)
    {
      if |frames| == 0 {
        return None;
      }
      var m := stillMediaType;
      if m.subtype == RGB24 {
        var buf := frames[0];
        frames := frames[1..];
        var w: nat, h: nat := m.width, m.height;
        return Some(Image(w, h, ConvertRgb24(buf.buffer, w, h)));
      } else if m.subtype == YUY2 || m.subtype == YUYV {
        var w: nat, h: nat := m.width, m.height;
        var buf := frames[0];
        frames := frames[1..];
        Yuv2RgbStoresPixel();
        var image := DecodeYuy2(Yuv2RgbBytes, buf.buffer, w, h);
        return Some(Image(w, h, FlipVertical(image[..], 3 * w, h)));
      }
      return None;
    }
  }

  /** `SampleGrabberCallbackPrivate`: the sample grabber's callback, holding
      the session it feeds. */
  class SampleGrabberCallback {
    var cs: Session?

    constructor(session: Session?)
      ensures cs == session
    {
      cs := session;
    }

    /** `BufferCB`: with a session whose connected type is video, a sample
        arriving while the gate is open closes the gate and is copied onto
        the end of the queue; otherwise nothing changes. */
    method BufferCB(time: int, pBuffer: seq<Byte>, bufferLen: int) returns (hr: CallbackResult)
      requires 0 <= bufferLen <= |pBuffer|
      modifies cs
      ensures cs == null ==> hr == CallbackOk
      ensures cs != null ==> unchanged(cs`stillMediaType, cs`graph, cs`isOpened, cs`active, cs`currentImageId, cs`device,
                                       cs`devices, cs`descriptions, cs`captureFilter, cs`decoder, cs`formats, cs`actualFormat)
      ensures cs != null && old(cs.Valid()) ==> cs.Valid()
      ensures cs != null ==> (hr == InvalidMediaType <==> !AcceptsSamples(cs.stillMediaType))
      ensures cs != null && (hr == InvalidMediaType || !old(cs.captureNextFrame)) ==>
                cs.captureNextFrame == old(cs.captureNextFrame) && cs.frames == old(cs.frames)
      ensures cs != null && hr == CallbackOk && old(cs.captureNextFrame) ==>
                !cs.captureNextFrame && cs.frames == old(cs.frames) + [VideoBuffer(pBuffer[..bufferLen], bufferLen, time)]
    {
      if cs == null {
        return CallbackOk;
      }
      var m := cs.stillMediaType;
      if !m.isVideo || !m.isVideoInfo || m.cbFormat < VideoInfoHeaderSize {
        return InvalidMediaType;
      }
      if cs.captureNextFrame {
        cs.captureNextFrame := false;
        var vidData := pBuffer[..bufferLen];
        cs.frames := cs.frames + [VideoBuffer(vidData, bufferLen, time)];
      }
      return CallbackOk;
    }
  }

  /** The gate admits one sample, drops the next until `capture` reopens it,
      and `captureFrame` hands the kept samples out oldest first: after
      samples a, b, `capture`, c, the queue holds a then c, and two
      `captureFrame` calls emit the images of a and of c and empty it. */
  method SingleShotInOrder(cb: SampleGrabberCallback, s: Session, a: seq<Byte>, b: seq<Byte>, c: seq<Byte>)
    returns (afterDrop: seq<VideoBuffer>, queued: seq<VideoBuffer>, first: Option<Image>, second: Option<Image>)
    requires cb.cs == s && s.captureNextFrame && s.frames == []
    requires AcceptsSamples(s.stillMediaType) && s.stillMediaType.subtype == YUY2
    requires s.stillMediaType.width >= 0 && s.stillMediaType.height >= 0
    modifies s
    ensures afterDrop == [VideoBuffer(a, |a|, 1)]
    ensures queued == [VideoBuffer(a, |a|, 1), VideoBuffer(c, |c|, 3)]
    ensures first == FrameImage(YUY2, a, old(s.stillMediaType).width, old(s.stillMediaType).height)
    ensures second == FrameImage(YUY2, c, old(s.stillMediaType).width, old(s.stillMediaType).height)
    ensures s.frames == []
  {
    assert a[..|a|] == a && c[..|c|] == c;
    var r1 := cb.BufferCB(1, a, |a|);
    var r2 := cb.BufferCB(2, b, |b|);
    afterDrop := s.frames;
    s.Capture();
    var r3 := cb.BufferCB(3, c, |c|);
    queued := s.frames;
    first := s.CaptureFrame();
    second := s.CaptureFrame();
  }
}
