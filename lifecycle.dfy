/** The session's three lifecycle flags (`graph`, `opened`, `active`) and how
    each stream operation moves them, given the outcomes of the COM calls it
    makes. These functions specify the `Session` methods; the lemmas state
    what the operations promise about the flags. */
module SessionFlags {
  import opened MediaTypes
  import opened DeviceRegistry
  import opened FormatCatalogue

  /** `graph`: a filter graph has been built; `isOpened` (the source's
      `opened`): the filters are wired into it; `active`: the graph has been run. */
  datatype Flags = Flags(graph: bool, isOpened: bool, active: bool)

  /** The flags plus the boolean an operation returns. */
  datatype Step = Step(flags: Flags, ok: bool)

  /** The invariant every operation keeps: the filters are only wired into a
      graph that exists. */
  predicate Coherent(f: Flags)
  {
    f.isOpened ==> f.graph
  }

  // ---------------------------------------------------------------- oracles

  /** Outcomes of the calls `createFilterGraph` makes: graph, graph builder,
      SetFiltergraph and null renderer (`buildersOk`); the video input
      category enumerator; the sample grabber creation and query
      (`grabberOk`); and the stream configuration `updateProperties` reads. */
  datatype GraphOracle = GraphOracle(buildersOk: bool, devices: ClassEnum, grabberOk: bool, config: ConfigOracle)

  /** `createFilterGraph` returns true exactly when no step before
      `updateProperties` fails. */
  predicate GraphBuilt(o: GraphOracle)
  {
    o.buildersOk && o.grabberOk
  }

  predicate GraphWellFormed(o: GraphOracle)
  {
    o.config.Capabilities? ==> RatesDefined(o.config.caps)
  }

  /** Outcomes for `openStream`: the graph it may have to build, whether every
      AddFilter and RenderStream succeeds, and the media type
      GetConnectedMediaType reports (None: it fails). */
  datatype OpenOracle = OpenOracle(create: GraphOracle, wiredOk: bool, connected: Option<MediaType>)

  /** Outcomes for `closeStream`: the media control query or StopWhenReady
      fails; one of the disconnect and remove steps fails; or all succeed. */
  datatype CloseOutcome = StopFailed | TeardownFailed | Closed

  /** Outcomes of the media-control query and of the Stop, Pause or Run call
      made through it. */
  datatype ControlOracle = ControlOracle(queryOk: bool, callOk: bool)

  predicate ControlSucceeds(c: ControlOracle)
  {
    c.queryOk && c.callOk
  }

  /** Outcomes for `startStream`: the graph build, `setProperties`, the
      retry's `closeStream` and `openStream`, the second `openStream`, and the
      media control query and Run. */
  datatype StartOracle = StartOracle(
    create: GraphOracle, props: PropsOracle, close: CloseOutcome,
    retry: OpenOracle, openOracle: OpenOracle, control: ControlOracle)

  predicate StartWellFormed(o: StartOracle)
  {
    GraphWellFormed(o.create) && PropsWellFormed(o.props)
    && GraphWellFormed(o.retry.create) && GraphWellFormed(o.openOracle.create)
  }

  // ------------------------------------------------------------ transitions

  /** `closeStream`: `opened` drops once the graph has stopped, `graph` only
      once every filter has been disconnected and removed. */
  function CloseFlags(f: Flags, c: CloseOutcome): (r: Flags)
    ensures r.active == f.active
    ensures c != StopFailed ==> !r.isOpened
    ensures c != Closed ==> r.graph == f.graph
    ensures Coherent(f) ==> Coherent(r)
  {
    match c
    case StopFailed => f
    case TeardownFailed => f.(isOpened := false)
    case Closed => f.(isOpened := false, graph := false)
  }

  /** `openStream`: true at once when already open; otherwise builds the graph
      if there is none, then wires the filters. It never sets `opened`. */
  function OpenFlags(f: Flags, o: OpenOracle): (r: Step)
    ensures r.flags.isOpened == f.isOpened && r.flags.active == f.active
    ensures f.isOpened ==> r == Step(f, true)
    ensures r.ok && !f.isOpened ==> r.flags.graph && o.wiredOk && o.connected.Some?
    ensures Coherent(f) ==> Coherent(r.flags)
  {
    if f.isOpened then Step(f, true)
    else if !f.graph && !GraphBuilt(o.create) then Step(f, false)
    else Step(f.(graph := true), o.wiredOk && o.connected.Some?)
  }

  /** The retry in `startStream`: nothing to do when `setProperties`
      succeeded; otherwise `closeStream` and one `openStream` (but no second
      `setProperties`). */
  function RetryFlags(f: Flags, o: StartOracle, propsOk: bool): Step
  {
    if propsOk then Step(f, true) else OpenFlags(CloseFlags(f, o.close), o.retry)
  }

  /** The end of `startStream`: the stream opened if it is not, with the
      result stored as `opened`; then the graph run. */
  function RunFlags(f: Flags, o: StartOracle): Step
  {
    var opening := if f.isOpened then Step(f, true) else OpenFlags(f, o.openOracle);
    var f4 := opening.flags.(isOpened := opening.ok);
    if !opening.ok || !ControlSucceeds(o.control) then Step(f4, false)
    else Step(f4.(active := true), true)
  }

  /** `startStream`, given whether `setProperties` succeeds: a graph is built
      if missing, then the retry, then the open and the run. */
  function StartFlags(f: Flags, o: StartOracle, propsOk: bool): Step
  {
    var f1 := if !f.graph then f.(graph := GraphBuilt(o.create)) else f;
    var retried := RetryFlags(f1, o, propsOk);
    if !retried.ok then retried else RunFlags(retried.flags, o)
  }

  /** `stopStream`: `active` drops once Stop succeeds, and an open stream is
      then closed. */
  function StopStreamFlags(f: Flags, c: ControlOracle, close: CloseOutcome): (r: Flags)
    ensures !ControlSucceeds(c) ==> r == f
    ensures ControlSucceeds(c) ==> !r.active
    ensures ControlSucceeds(c) && f.isOpened ==> r == CloseFlags(f.(active := false), close)
    ensures ControlSucceeds(c) && !f.isOpened ==> r == f.(active := false)
  {
    if !ControlSucceeds(c) then f
    else
      var g := f.(active := false);
      if g.isOpened then CloseFlags(g, close) else g
  }

  /** `stop`: nothing when not open; otherwise `stopStream`, then `opened`
      cleared whatever `stopStream` did. */
  function StopFlags(f: Flags, c: ControlOracle, close: CloseOutcome): Flags
  {
    if !f.isOpened then f else StopStreamFlags(f, c, close).(isOpened := false)
  }

  /** `suspendStream`: `active` drops once Pause succeeds. */
  function SuspendFlags(f: Flags, c: ControlOracle): Flags
  {
    if ControlSucceeds(c) then f.(active := false) else f
  }

  /** `resumeStream` as written: after Run succeeds it clears `active`, as
      `suspendStream` does. */
  function ResumeFlagsAsWritten(f: Flags, c: ControlOracle): Flags
  {
    if ControlSucceeds(c) then f.(active := false) else f
  }

  /** `resumeStream` corrected: after Run succeeds the graph is running, so
      `active` is set, as `startStream` does after its Run. */
  function ResumeFlags(f: Flags, c: ControlOracle): Flags
  {
    if ControlSucceeds(c) then f.(active := true) else f
  }

  // ----------------------------------------------------------------- lemmas

  /** `startStream` sets `active` only after Run succeeds, and then the stream
      is open in a built graph; every failure leaves `active` as it was. */
  lemma StartActivatesOnlyAfterRun(f: Flags, o: StartOracle, propsOk: bool)
    requires Coherent(f)
    ensures var r := StartFlags(f, o, propsOk);
            (r.ok ==> r.flags.active && r.flags.isOpened && r.flags.graph && ControlSucceeds(o.control))
            && (!r.ok ==> r.flags.active == f.active)
  {
    var f1 := if !f.graph then f.(graph := GraphBuilt(o.create)) else f;
    if !propsOk {
      var c := CloseFlags(f1, o.close);
      assert Coherent(f1) ==> Coherent(c);
    }
  }

  /** When `setProperties` fails but the retry's close and reopen succeed,
      `startStream` can still succeed: the stream then runs with the format
      the capture pin had before. */
  lemma StartSucceedsDespiteFailedProperties(f: Flags, o: StartOracle)
    requires Coherent(f) && f.graph
    requires o.close == Closed && GraphBuilt(o.retry.create) && o.retry.wiredOk && o.retry.connected.Some?
    requires o.openOracle.wiredOk && o.openOracle.connected.Some? && ControlSucceeds(o.control)
    ensures StartFlags(f, o, false).ok
  {
  }

  /** A failed `setProperties` leaves the stream closed when the retry's
      `openStream` reports success without opening it, so `startStream` calls
      `openStream` a second time. */
  lemma StartOpensTwiceAfterRetry(f: Flags, o: StartOracle)
    requires o.close == TeardownFailed && f.graph
    requires o.retry.wiredOk && o.retry.connected.Some?
    ensures OpenFlags(CloseFlags(f, o.close), o.retry).ok
    ensures !OpenFlags(CloseFlags(f, o.close), o.retry).flags.isOpened
  {
  }

  /** `stop` always leaves the stream not open; it changes nothing when the
      stream was not open; a failed Stop leaves `active` as it was. */
  lemma StopClosesStream(f: Flags, c: ControlOracle, close: CloseOutcome)
    ensures !StopFlags(f, c, close).isOpened
    ensures !f.isOpened ==> StopFlags(f, c, close) == f
    ensures f.isOpened && !ControlSucceeds(c) ==> StopFlags(f, c, close).active == f.active
    ensures f.isOpened && ControlSucceeds(c) ==> !StopFlags(f, c, close).active
  {
  }

  /** As written, a successful resume leaves `active` false, exactly as a
      successful suspend does; the corrected resume sets it. */
  lemma ResumeAsWrittenDeactivates(f: Flags, c: ControlOracle)
    requires ControlSucceeds(c)
    ensures ResumeFlagsAsWritten(f, c) == SuspendFlags(f, c)
    ensures !ResumeFlagsAsWritten(f, c).active
    ensures ResumeFlags(f, c).active
  {
  }

  /** Suspending and then resuming (corrected) a running stream gives back its
      flags. */
  lemma SuspendResumeRoundTrip(f: Flags, c1: ControlOracle, c2: ControlOracle)
    requires f.active && ControlSucceeds(c1) && ControlSucceeds(c2)
    ensures ResumeFlags(SuspendFlags(f, c1), c2) == f
  {
  }

  /** Every operation keeps the flags coherent. */
  lemma AllKeepCoherent(f: Flags, o: StartOracle, propsOk: bool, c: ControlOracle, close: CloseOutcome, openOracle: OpenOracle)
    requires Coherent(f)
    ensures Coherent(CloseFlags(f, close))
    ensures Coherent(OpenFlags(f, openOracle).flags)
    ensures Coherent(StartFlags(f, o, propsOk).flags)
    ensures Coherent(StopStreamFlags(f, c, close))
    ensures Coherent(StopFlags(f, c, close))
    ensures Coherent(SuspendFlags(f, c)) && Coherent(ResumeFlags(f, c))
  {
    StartActivatesOnlyAfterRun(f, o, propsOk);
  }
}
