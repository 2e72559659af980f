/** Value types shared by the capture session: bytes, DirectShow media
    subtypes, Qt pixel formats, and the records the session stores. */
module MediaTypes {

  /** One byte of a sample or image buffer (quint8 / BYTE). */
  type Byte = b: int | 0 <= b < 256

  datatype Option<T> = None | Some(value: T)

  /** The DirectShow media subtypes (MEDIASUBTYPE_*) the session tells apart;
      every other GUID is `OtherSubtype`. */
  datatype Subtype =
    | RGB24 | RGB32 | YUY2 | YUYV | MJPG | I420 | RGB555 | UYVY | H263
    | OtherSubtype(code: int)

  /** The QVideoFrame pixel formats the session uses; every other one is
      `FormatOther`. `FormatUser` stands for motion JPEG. */
  datatype PixelFormat =
    | FormatRGB24 | FormatRGB32 | FormatYUYV | FormatUser | FormatYUV420P
    | FormatRGB555 | FormatUYVY
    | FormatOther(code: int)

  /** sizeof(VIDEOINFOHEADER): two RECTs, two DWORDs, a REFERENCE_TIME and a
      BITMAPINFOHEADER. */
  const VideoInfoHeaderSize: int := 88

  /** The parts of an AM_MEDIA_TYPE, and of the VIDEOINFOHEADER its format
      block holds, that the session reads. */
  datatype MediaType = MediaType(
    isVideo: bool,          // majortype == MEDIATYPE_Video
    isVideoInfo: bool,      // formattype == FORMAT_VideoInfo
    cbFormat: int,          // size of the format block
    subtype: Subtype,
    width: int,             // bmiHeader.biWidth
    height: int,            // bmiHeader.biHeight
    avgTimePerFrame: int)   // AvgTimePerFrame, in 100 ns units

  /** A zero-filled AM_MEDIA_TYPE, before any graph has been connected. */
  const ZeroMediaType := MediaType(false, false, 0, OtherSubtype(0), 0, 0, 0)

  /** `video_buffer`: a private copy of one sample's bytes. */
  datatype VideoBuffer = VideoBuffer(buffer: seq<Byte>, length: int, time: int)

  /** The fields of a QVideoSurfaceFormat the session sets or reads. */
  datatype SurfaceFormat = SurfaceFormat(width: int, height: int, pixelFormat: PixelFormat, frameRate: int)

  /** A packed 8-bit, 3-channel image (cv::Mat of type CV_8UC3), row-major. */
  datatype Image = Image(width: nat, height: nat, data: seq<Byte>)

  /** A default-constructed cv::Mat. */
  const EmptyImage := Image(0, 0, [])

  /** C and C++ integer division, which truncates toward zero (Dafny's `/`
      rounds toward negative infinity for a negative dividend). */
  function TruncDiv(a: int, b: int): (q: int)
    requires b > 0
    ensures a >= 0 ==> q >= 0 && q * b <= a < q * b + b
    ensures a < 0 ==> q <= 0 && q * b - b < a <= q * b
  {
    if a >= 0 then
      DivBounds(a, b);
      a / b
    else
      DivBounds(-a, b);
      -((-a) / b)
  }

  lemma DivBounds(a: nat, b: int)
    requires b > 0
    ensures a / b >= 0 && (a / b) * b <= a < (a / b) * b + b
  {
  }
}
