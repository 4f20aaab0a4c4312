/**
 * The surface bookkeeping of the small Wayland toolkit in src/sinit.c: the
 * pending and current sizes of XDG toplevel and layer-shell surfaces, the
 * single outstanding frame callback, first-frame rendering, the `closed` flag,
 * layer anchoring and the size of the shared-memory pixel buffer.
 *
 * Wayland objects are not modelled; every request the code sends to the
 * compositor (and every munmap) is appended to a log of `Request`s. The
 * application's render function is an opaque callback: the model only records
 * that it ran, with which arguments, and whether it asked for the next frame.
 */
module Sinit {
  import opened Common

  /** `struct sinit_surface_config`. */
  datatype Config = Config(width: int32, height: int32)

  /** `enum sinit_surface_type`. */
  datatype SurfaceType = RawSurface | XdgToplevelSurface | LayerShellSurface

  /** `enum sinit_layer`, bottom-most first (values 0 to 3). */
  datatype Layer = Background | Bottom | Top | Overlay

  /** `enum sinit_anchor`: four edge flags and, four bits higher, their exclusive variants. */
  const ANCHOR_NONE: bv32 := 0
  const ANCHOR_TOP: bv32 := 1
  const ANCHOR_BOTTOM: bv32 := 2
  const ANCHOR_LEFT: bv32 := 4
  const ANCHOR_RIGHT: bv32 := 8
  const ANCHOR_TOP_EXCLUSIVE: bv32 := 16
  const ANCHOR_BOTTOM_EXCLUSIVE: bv32 := 32
  const ANCHOR_LEFT_EXCLUSIVE: bv32 := 64
  const ANCHOR_RIGHT_EXCLUSIVE: bv32 := 128

  predicate IsEdge(e: bv32) {
    e == ANCHOR_TOP || e == ANCHOR_BOTTOM || e == ANCHOR_LEFT || e == ANCHOR_RIGHT
  }

  /** A wl_shm buffer in ARGB8888: its size in pixels, its row stride and its mapped length in bytes. */
  datatype Buffer = Buffer(width: int, height: int, stride: int, size: int)

  /** `create_wl_buffer`: four bytes per pixel, rows one stride apart. */
  function CreateBuffer(width: int, height: int): (b: Buffer)
    ensures b.width == width && b.height == height
    ensures b.size == 4 * b.width * b.height
  {
    var stride := 4 * width;
    Buffer(width, height, stride, stride * height)
  }

  /** A buffer for a `width` x `height` surface at scale `factor` holds factor^2 times as many bytes. */
  lemma ScaledBufferSize(width: int, height: int, factor: int)
    ensures CreateBuffer(width * factor, height * factor).size == 4 * width * height * factor * factor
  {
    calc {
      CreateBuffer(width * factor, height * factor).size;
      4 * (width * factor) * (height * factor);
      { assert (width * factor) * (height * factor) == width * height * (factor * factor); }
      4 * width * height * factor * factor;
    }
  }

  /** What the surface code asks of the compositor and of the kernel, in order. */
  datatype Request =
    | AckConfigure(serial: uint32)
    | ToplevelCreated
    | LayerSurfaceCreated(layer: Layer)
    | AnchorSet(anchor: bv32)
    | ExclusiveZoneSet(zone: int)
    | SizeSet(width: int32, height: int32)
    | BufferDestroyed
    | Unmapped(length: int)
    | BufferCreated(buffer: Buffer)
    | Attached
    | BufferScaleSet(factor: int32)
    | RegionSubtracted(width: int32, height: int32)
    | RegionAdded(width: int32, height: int32)
    | OpaqueRegionSet
    | FrameRequested
    | CallbackDestroyed
    | Rendered(width: int32, height: int32, factor: int32, time: uint32)
    | Committed
    | RoleDestroyed(role: SurfaceType)
    | RegionDestroyed
    | SurfaceDestroyed

  /**
   * The bookkeeping of one `sinit_surface` (the fields of the base surface and
   * the XDG pending config), with the log of requests sent so far.
   * `hasCallback`, `buffer` and `hasRegion` stand for the non-NULL
   * `wl_callback`, `wl_buffer`/`buffer` and `region` pointers.
   */
  datatype Surf = Surf(
    typ: SurfaceType,
    config: Config,
    pending: Config,
    hasCallback: bool,
    buffer: Option<Buffer>,
    factor: int32,
    prevRender: uint32,
    closed: bool,
    hasRegion: bool,
    requests: seq<Request>)

  /** A zero-initialised surface, before any init function. */
  const ZEROED: Surf := Surf(RawSurface, Config(0, 0), Config(0, 0), false, None, 0, 0, false, false, [])

  /** The bytes mapped for the held buffer (none without one). */
  function MappedSize(s: Surf): (n: int)
    ensures s.buffer.None? ==> n == 0
    ensures s.buffer.Some? && s.buffer.value == CreateBuffer(s.buffer.value.width, s.buffer.value.height)
      ==> n == 4 * s.buffer.value.width * s.buffer.value.height
  {
    if s.buffer.Some? then s.buffer.value.size else 0
  }

  // ---------------------------------------------------------------------
  // The operations, as functions from the old surface to the new one.

  /** `sinit_surface_request_frame`: ask for a frame callback unless one is pending. */
  function AfterRequestFrame(s: Surf): (r: Surf)
    ensures r.hasCallback
    ensures s.hasCallback ==> r == s
    ensures s.requests <= r.requests
  {
    if s.hasCallback then s
    else s.(hasCallback := true, requests := s.requests + [FrameRequested])
  }

  /**
   * `sinit_surface_render`: nothing on a closed surface; otherwise run the
   * render function (which, when `again`, asks for the next frame), commit and
   * remember the time.
   */
  function AfterRender(s: Surf, time: uint32, again: bool): (r: Surf)
    ensures s.closed ==> r == s
    ensures !s.closed ==> r.prevRender == time
    ensures r.hasCallback == (s.hasCallback || (!s.closed && again))
    ensures r.config == s.config && r.pending == s.pending && r.buffer == s.buffer && r.closed == s.closed
    ensures s.requests <= r.requests
  {
    if s.closed then s
    else
      var drawn := s.(requests := s.requests + [Rendered(s.config.width, s.config.height, s.factor, time)]);
      var asked := if again then AfterRequestFrame(drawn) else drawn;
      asked.(requests := asked.requests + [Committed], prevRender := time)
  }

  /**
   * `resize_surface`, releasing the old mapping with the length `unmapLength`
   * and mapping a buffer `factor` times larger in each direction.
   */
  function ResizeWith(s: Surf, width: int32, height: int32, factor: int32, unmapLength: int): (r: Surf)
    ensures r.buffer == Some(CreateBuffer(width as int * factor as int, height as int * factor as int))
    ensures r == s.(buffer := r.buffer, requests := r.requests)
    ensures s.requests <= r.requests
  {
    var freed := if s.buffer.Some? then s.requests + [BufferDestroyed, Unmapped(unmapLength)] else s.requests;
    var b := CreateBuffer(width as int * factor as int, height as int * factor as int);
    s.(buffer := Some(b), requests := freed + [BufferCreated(b), Attached, BufferScaleSet(factor)])
  }

  /** The length `resize_surface` passes to munmap: the current factor times the current size, times 4. */
  function ResizeUnmapAsWritten(factor: int32, config: Config): (n: int)
    ensures n == factor as int * CreateBuffer(config.width as int, config.height as int).size
  {
    assert factor as int * config.width as int * config.height as int * 4
        == factor as int * (4 * config.width as int * config.height as int);
    factor as int * config.width as int * config.height as int * 4
  }

  /** `resize_surface` as written. */
  function AfterResizeAsWritten(s: Surf, width: int32, height: int32, factor: int32): (r: Surf)
    ensures r.buffer == Some(CreateBuffer(width as int * factor as int, height as int * factor as int))
  {
    ResizeWith(s, width, height, factor, ResizeUnmapAsWritten(s.factor, s.config))
  }

  /** `resize_surface`, unmapping exactly the length that was mapped. */
  function AfterResize(s: Surf, width: int32, height: int32, factor: int32): (r: Surf)
    ensures r.buffer == Some(CreateBuffer(width as int * factor as int, height as int * factor as int))
    ensures r == s.(buffer := r.buffer, requests := r.requests)
    ensures s.requests <= r.requests
  {
    ResizeWith(s, width, height, factor, MappedSize(s))
  }

  /** `xdg_toplevel_configure`: only strictly positive sizes replace the pending ones. */
  function AfterToplevelConfigure(s: Surf, width: int32, height: int32): (r: Surf)
    ensures width > 0 ==> r.pending.width == width
    ensures height > 0 ==> r.pending.height == height
    ensures r.pending.width != s.pending.width ==> r.pending.width == width && width > 0
    ensures r.pending.height != s.pending.height ==> r.pending.height == height && height > 0
    ensures r == s.(pending := r.pending)
  {
    var w := if width > 0 then width else s.pending.width;
    var h := if height > 0 then height else s.pending.height;
    s.(pending := Config(w, h))
  }

  /** Acknowledge a configure event. */
  function Ack(s: Surf, serial: uint32): (r: Surf)
    ensures r == s.(requests := r.requests) && s.requests <= r.requests
  {
    s.(requests := s.requests + [AckConfigure(serial)])
  }

  /**
   * The tail shared by both configure handlers: render the first frame at
   * once (at time 0, so the "not rendered yet" marker stays 0), or ask for a
   * frame once something has been rendered.
   */
  function AfterPresent(s: Surf, again: bool): (r: Surf)
    ensures r.config == s.config && r.pending == s.pending && r.buffer == s.buffer && r.closed == s.closed
    ensures s.prevRender == 0 ==> r.prevRender == 0
    ensures s.prevRender != 0 ==> r.hasCallback && r.prevRender == s.prevRender
    ensures s.requests <= r.requests
  {
    if s.prevRender == 0 then AfterRender(s, 0, again) else AfterRequestFrame(s)
  }

  /** The region requests of `xdg_surface_configure`: drop the old rectangle, add the new one. */
  function RegionUpdate(from: Config, to: Config): (r: seq<Request>)
    ensures r != [] && r[|r| - 1] == OpaqueRegionSet
    ensures forall q :: q in r ==> !q.BufferCreated? && !q.Unmapped? && !q.FrameRequested? && !q.CallbackDestroyed?
  {
    [RegionSubtracted(from.width, from.height), RegionAdded(to.width, to.height), OpaqueRegionSet]
  }

  /** Re-create the buffer at the size `to`, and move the opaque region from `from` to `to`. */
  function XdgReshape(s: Surf, from: Config, to: Config): (r: Surf)
    ensures r.buffer == Some(CreateBuffer(to.width as int * s.factor as int, to.height as int * s.factor as int))
    ensures r == s.(buffer := r.buffer, requests := r.requests)
    ensures s.requests <= r.requests
  {
    var remade := AfterResize(s, to.width, to.height, s.factor);
    if s.hasRegion then remade.(requests := remade.requests + RegionUpdate(from, to)) else remade
  }

  /** Acknowledge, then re-create the buffer (and the opaque region) when the pending size differs or nothing was rendered yet. */
  function XdgSized(s: Surf, serial: uint32): (r: Surf)
    ensures r == s.(buffer := r.buffer, requests := r.requests)
    ensures s.requests <= r.requests
  {
    var acked := Ack(s, serial);
    if s.config != s.pending || s.prevRender == 0 then XdgReshape(acked, s.config, s.pending) else acked
  }

  /** `xdg_surface_configure`: acknowledge, re-create the buffer if needed, adopt the pending size, present. */
  function AfterXdgConfigure(s: Surf, serial: uint32, again: bool): (r: Surf)
    ensures s.requests <= r.requests
  {
    AfterPresent(XdgSized(s, serial).(config := s.pending), again)
  }

  /** The size after a layer configure: the compositor's `uint32_t` values, read as `int`, fill only zero dimensions. */
  function Filled(c: Config, width: uint32, height: uint32): (r: Config)
    ensures c.width != 0 ==> r.width == c.width
    ensures c.width == 0 ==> r.width == AsInt32(width)
    ensures c.height != 0 ==> r.height == c.height
    ensures c.height == 0 ==> r.height == AsInt32(height)
  {
    Config(if c.width == 0 then AsInt32(width) else c.width,
           if c.height == 0 then AsInt32(height) else c.height)
  }

  /** Acknowledge, fill the zero dimensions, and re-create the buffer when one was filled or nothing was rendered yet. */
  function LayerSized(s: Surf, serial: uint32, width: uint32, height: uint32): (r: Surf)
    ensures r == s.(config := Filled(s.config, width, height), buffer := r.buffer, requests := r.requests)
    ensures s.requests <= r.requests
  {
    var filled := Ack(s, serial).(config := Filled(s.config, width, height));
    if s.config.width == 0 || s.config.height == 0 || s.prevRender == 0
    then AfterResize(filled, filled.config.width, filled.config.height, s.factor)
    else filled
  }

  /** `layer_surface_configure`: acknowledge, fill the zero dimensions, re-create the buffer if needed, present. */
  function AfterLayerConfigure(s: Surf, serial: uint32, width: uint32, height: uint32, again: bool): (r: Surf)
    ensures s.requests <= r.requests
  {
    AfterPresent(LayerSized(s, serial, width, height), again)
  }

  /** `xdg_toplevel_close` and `layer_surface_closed`. */
  function AfterClose(s: Surf): (r: Surf)
    ensures r.closed
    ensures r == s.(closed := true)
  {
    s.(closed := true)
  }

  /** `surface_scale`: adopt the preferred scale (the buffer keeps its size) and ask for a frame. */
  function AfterScale(s: Surf, factor: int32): (r: Surf)
    ensures r.factor == factor && r.buffer == s.buffer && r.config == s.config && r.hasCallback
    ensures s.requests <= r.requests
  {
    AfterRequestFrame(s.(factor := factor))
  }

  /** `frame_done`: destroy the fired callback and forget it, then render at the frame's time. */
  function AfterFrameDone(s: Surf, time: uint32, again: bool): (r: Surf)
    ensures s.requests <= r.requests
  {
    AfterRender(s.(hasCallback := false, requests := s.requests + [CallbackDestroyed]), time, again)
  }

  function RegionSetup(isOpaque: bool, width: int32, height: int32): (r: seq<Request>)
    ensures r != [] <==> isOpaque
    ensures isOpaque ==> r[0] == RegionAdded(width, height) && r[|r| - 1] == OpaqueRegionSet
    ensures AllInert(r)
  {
    if isOpaque then [RegionAdded(width, height), OpaqueRegionSet] else []
  }

  /**
   * `sinit_xdg_surface_init`: an XDG toplevel at scale 1, open, with the
   * requested size pending. The current size, the render time and any
   * callback or buffer are left as they were.
   */
  function AfterXdgInit(s: Surf, width: int32, height: int32, isOpaque: bool): (r: Surf)
    ensures r.typ == XdgToplevelSurface && r.factor == 1 && !r.closed && r.pending == Config(width, height)
    ensures r.config == s.config && r.prevRender == s.prevRender && r.buffer == s.buffer && r.hasCallback == s.hasCallback
    ensures s.requests <= r.requests
  {
    s.(typ := XdgToplevelSurface, factor := 1, closed := false, pending := Config(width, height),
       hasRegion := s.hasRegion || isOpaque,
       requests := s.requests + ([ToplevelCreated] + RegionSetup(isOpaque, width, height) + [Committed]))
  }

  /** The edge flags sent as the layer anchor: each exclusive flag folded onto its edge. */
  function AnchorArg(anchors: bv32): (r: bv32)
    ensures anchors < 256 ==> r < 16
  {
    (anchors & 0xF) | (anchors >> 4)
  }

  /** The anchor, exclusive-zone and size requests of `sinit_layer_surface_init`. */
  function LayerSetup(anchors: bv32, exclusive: int32, width: int32, height: int32): (r: seq<Request>)
    ensures r != [] && r[|r| - 1] == SizeSet(width, height)
    ensures AnchorSet(AnchorArg(anchors)) in r <==> anchors != ANCHOR_NONE
  {
    (if anchors != ANCHOR_NONE then [AnchorSet(AnchorArg(anchors))] else [])
    + (if anchors >= ANCHOR_TOP_EXCLUSIVE then [ExclusiveZoneSet((anchors >> 4) as int)] else [])
    + (if exclusive != 0 then [ExclusiveZoneSet(exclusive as int)] else [])
    + [SizeSet(width, height)]
  }

  /**
   * `sinit_layer_surface_init`: a layer surface at scale 1, open, whose
   * current size is the requested one.
   */
  function AfterLayerInit(s: Surf, layer: Layer, anchors: bv32, exclusive: int32,
                          width: int32, height: int32, isOpaque: bool): (r: Surf)
    ensures r.typ == LayerShellSurface && r.factor == 1 && !r.closed && r.config == Config(width, height)
    ensures r.prevRender == s.prevRender && r.buffer == s.buffer && r.hasCallback == s.hasCallback
    ensures s.requests <= r.requests
  {
    s.(typ := LayerShellSurface, factor := 1, closed := false, config := Config(width, height),
       hasRegion := s.hasRegion || isOpaque,
       requests := s.requests + ([LayerSurfaceCreated(layer)] + LayerSetup(anchors, exclusive, width, height)
                                 + RegionSetup(isOpaque, width, height) + [Committed]))
  }

  /**
   * The two deinit functions (`role` says which role objects go): release the
   * callback, the buffer (unmapping `unmapLength` bytes), the role, the region
   * and the surface, and mark the surface raw. The pointers are not cleared.
   */
  function ReleaseWith(s: Surf, role: SurfaceType, unmapLength: int): (r: Surf)
    ensures r == s.(typ := RawSurface, requests := r.requests)
    ensures s.requests <= r.requests
  {
    var callback := if s.hasCallback then [CallbackDestroyed] else [];
    var buffer := if s.buffer.Some? then [BufferDestroyed, Unmapped(unmapLength)] else [];
    var region := if s.hasRegion then [RegionDestroyed] else [];
    s.(typ := RawSurface, requests := s.requests + callback + buffer + ([RoleDestroyed(role)] + region + [SurfaceDestroyed]))
  }

  /** The length both deinit functions pass to munmap: the size without the scale factor, times 4. */
  function DeinitUnmapAsWritten(config: Config): (n: int)
    ensures n == CreateBuffer(config.width as int, config.height as int).size
  {
    config.width as int * config.height as int * 4
  }

  /** `sinit_xdg_toplevel_surface_deinit` / `sinit_layer_surface_deinit` as written. */
  function AfterDeinitAsWritten(s: Surf, role: SurfaceType): (r: Surf)
    ensures r.typ == RawSurface
  {
    ReleaseWith(s, role, DeinitUnmapAsWritten(s.config))
  }

  /** `sinit_xdg_toplevel_surface_deinit` / `sinit_layer_surface_deinit`, unmapping what was mapped. */
  function AfterDeinit(s: Surf, role: SurfaceType): (r: Surf)
    ensures r == s.(typ := RawSurface, requests := r.requests)
    ensures s.requests <= r.requests
  {
    ReleaseWith(s, role, MappedSize(s))
  }

  // ---------------------------------------------------------------------
  // Tallies over the request log.

  /** What a tally counts: outstanding frame callbacks, mapped bytes, buffers created, frames rendered. */
  datatype Tally = CallbackCount | MappedLength | BufferCount | RenderCount

  function Weight(k: Tally, q: Request): int {
    match k
    case CallbackCount => if q.FrameRequested? then 1 else if q.CallbackDestroyed? then -1 else 0
    case MappedLength => if q.BufferCreated? then q.buffer.size else if q.Unmapped? then -q.length else 0
    case BufferCount => if q.BufferCreated? then 1 else 0
    case RenderCount => if q.Rendered? then 1 else 0
  }

  /** The tally of the first `n` requests of a log. */
  function SumTo(rs: seq<Request>, n: nat, k: Tally): int
    requires n <= |rs|
  {
    if n == 0 then 0 else SumTo(rs, n - 1, k) + Weight(k, rs[n - 1])
  }

  function Sum(rs: seq<Request>, k: Tally): int {
    SumTo(rs, |rs|, k)
  }

  /** Frame callbacks requested and not yet destroyed. */
  function Callbacks(rs: seq<Request>): int { Sum(rs, CallbackCount) }

  /** Bytes mapped and not yet unmapped. */
  function MappedBytes(rs: seq<Request>): int { Sum(rs, MappedLength) }

  function BuffersCreated(rs: seq<Request>): int { Sum(rs, BufferCount) }

  function Renders(rs: seq<Request>): int { Sum(rs, RenderCount) }

  /**
   * The pointers agree with the log: a callback is held exactly when one is
   * outstanding, and the bytes mapped are exactly those of the held buffer.
   */
  function Consistent(s: Surf): (c: bool)
    ensures c ==> 0 <= Callbacks(s.requests) <= 1
    ensures c && s.buffer.None? ==> MappedBytes(s.requests) == 0
  {
    Callbacks(s.requests) == (if s.hasCallback then 1 else 0)
    && MappedBytes(s.requests) == MappedSize(s)
  }

  /** Requests appended after the first `n` do not change their tally. */
  lemma {:induction false} SumToPrefix(a: seq<Request>, b: seq<Request>, n: nat, k: Tally)
    requires n <= |a|
    ensures SumTo(a + b, n, k) == SumTo(a, n, k)
  {
    if n > 0 {
      SumToPrefix(a, b, n - 1, k);
    }
  }

  lemma {:induction false} SumToAppend(a: seq<Request>, b: seq<Request>, n: nat, k: Tally)
    requires n <= |b|
    ensures SumTo(a + b, |a| + n, k) == Sum(a, k) + SumTo(b, n, k)
  {
    if n == 0 {
      SumToPrefix(a, b, |a|, k);
    } else {
      SumToAppend(a, b, n - 1, k);
    }
  }

  lemma SumAppend(a: seq<Request>, b: seq<Request>, k: Tally)
    ensures Sum(a + b, k) == Sum(a, k) + Sum(b, k)
  {
    SumToAppend(a, b, |b|, k);
  }

  lemma SumSnoc(rs: seq<Request>, q: Request, k: Tally)
    ensures Sum(rs + [q], k) == Sum(rs, k) + Weight(k, q)
  {
    SumToPrefix(rs, [q], |rs|, k);
  }

  lemma SumOne(q: Request, k: Tally)
    ensures Sum([q], k) == Weight(k, q)
  {
    assert SumTo([q], 1, k) == SumTo([q], 0, k) + Weight(k, q);
  }

  lemma SumTwo(a: Request, b: Request, k: Tally)
    ensures Sum([a, b], k) == Weight(k, a) + Weight(k, b)
  {
    assert SumTo([a, b], 1, k) == SumTo([a, b], 0, k) + Weight(k, a);
    assert SumTo([a, b], 2, k) == SumTo([a, b], 1, k) + Weight(k, b);
  }

  lemma SumThree(a: Request, b: Request, c: Request, k: Tally)
    ensures Sum([a, b, c], k) == Weight(k, a) + Weight(k, b) + Weight(k, c)
  {
    assert SumTo([a, b, c], 1, k) == SumTo([a, b, c], 0, k) + Weight(k, a);
    assert SumTo([a, b, c], 2, k) == SumTo([a, b, c], 1, k) + Weight(k, b);
    assert SumTo([a, b, c], 3, k) == SumTo([a, b, c], 2, k) + Weight(k, c);
  }

  // How each operation moves a tally.

  function FrameDelta(s: Surf, k: Tally): int {
    if s.hasCallback then 0 else Weight(k, FrameRequested)
  }

  function RenderDelta(s: Surf, time: uint32, again: bool, k: Tally): int {
    if s.closed then 0
    else Weight(k, Rendered(s.config.width, s.config.height, s.factor, time)) + (if again then FrameDelta(s, k) else 0)
  }

  function PresentDelta(s: Surf, again: bool, k: Tally): int {
    if s.prevRender == 0 then RenderDelta(s, 0, again, k) else FrameDelta(s, k)
  }

  function ResizeDelta(s: Surf, width: int32, height: int32, factor: int32, unmapLength: int, k: Tally): int {
    (if s.buffer.Some? then Weight(k, Unmapped(unmapLength)) else 0)
    + Weight(k, BufferCreated(CreateBuffer(width as int * factor as int, height as int * factor as int)))
  }

  lemma RequestFrameSum(s: Surf, k: Tally)
    ensures Sum(AfterRequestFrame(s).requests, k) == Sum(s.requests, k) + FrameDelta(s, k)
  {
    if !s.hasCallback {
      SumSnoc(s.requests, FrameRequested, k);
    }
  }

  lemma RenderSum(s: Surf, time: uint32, again: bool, k: Tally)
    ensures Sum(AfterRender(s, time, again).requests, k) == Sum(s.requests, k) + RenderDelta(s, time, again, k)
  {
    if !s.closed {
      var q := Rendered(s.config.width, s.config.height, s.factor, time);
      var drawn := s.(requests := s.requests + [q]);
      SumSnoc(s.requests, q, k);
      var asked := if again then AfterRequestFrame(drawn) else drawn;
      RequestFrameSum(drawn, k);
      SumSnoc(asked.requests, Committed, k);
    }
  }

  lemma PresentSum(s: Surf, again: bool, k: Tally)
    ensures Sum(AfterPresent(s, again).requests, k) == Sum(s.requests, k) + PresentDelta(s, again, k)
  {
    if s.prevRender == 0 {
      RenderSum(s, 0, again, k);
    } else {
      RequestFrameSum(s, k);
    }
  }

  lemma ResizeSum(s: Surf, width: int32, height: int32, factor: int32, unmapLength: int, k: Tally)
    ensures Sum(ResizeWith(s, width, height, factor, unmapLength).requests, k)
         == Sum(s.requests, k) + ResizeDelta(s, width, height, factor, unmapLength, k)
  {
    var b := CreateBuffer(width as int * factor as int, height as int * factor as int);
    var freed := if s.buffer.Some? then s.requests + [BufferDestroyed, Unmapped(unmapLength)] else s.requests;
    if s.buffer.Some? {
      SumAppend(s.requests, [BufferDestroyed, Unmapped(unmapLength)], k);
      SumTwo(BufferDestroyed, Unmapped(unmapLength), k);
    }
    SumAppend(freed, [BufferCreated(b), Attached, BufferScaleSet(factor)], k);
    SumThree(BufferCreated(b), Attached, BufferScaleSet(factor), k);
  }

  lemma XdgReshapeSum(s: Surf, from: Config, to: Config, k: Tally)
    ensures Sum(XdgReshape(s, from, to).requests, k)
         == Sum(s.requests, k) + ResizeDelta(s, to.width, to.height, s.factor, MappedSize(s), k)
  {
    var remade := AfterResize(s, to.width, to.height, s.factor);
    ResizeSum(s, to.width, to.height, s.factor, MappedSize(s), k);
    if s.hasRegion {
      SumAppend(remade.requests, RegionUpdate(from, to), k);
      SumThree(RegionSubtracted(from.width, from.height), RegionAdded(to.width, to.height), OpaqueRegionSet, k);
    }
  }

  lemma XdgSizedSum(s: Surf, serial: uint32, k: Tally)
    ensures Sum(XdgSized(s, serial).requests, k)
         == Sum(s.requests, k)
            + (if s.config != s.pending || s.prevRender == 0
               then ResizeDelta(s, s.pending.width, s.pending.height, s.factor, MappedSize(s), k) else 0)
  {
    SumSnoc(s.requests, AckConfigure(serial), k);
    if s.config != s.pending || s.prevRender == 0 {
      XdgReshapeSum(Ack(s, serial), s.config, s.pending, k);
    }
  }

  lemma XdgConfigureSum(s: Surf, serial: uint32, again: bool, k: Tally)
    ensures Sum(AfterXdgConfigure(s, serial, again).requests, k)
         == Sum(s.requests, k)
            + (if s.config != s.pending || s.prevRender == 0
               then ResizeDelta(s, s.pending.width, s.pending.height, s.factor, MappedSize(s), k) else 0)
            + PresentDelta(s.(config := s.pending), again, k)
  {
    var adopted := XdgSized(s, serial).(config := s.pending);
    XdgSizedSum(s, serial, k);
    PresentSum(adopted, again, k);
    assert PresentDelta(adopted, again, k) == PresentDelta(s.(config := s.pending), again, k);
  }

  lemma LayerSizedSum(s: Surf, serial: uint32, width: uint32, height: uint32, k: Tally)
    ensures var c := Filled(s.config, width, height);
      Sum(LayerSized(s, serial, width, height).requests, k)
      == Sum(s.requests, k)
         + (if s.config.width == 0 || s.config.height == 0 || s.prevRender == 0
            then ResizeDelta(s, c.width, c.height, s.factor, MappedSize(s), k) else 0)
  {
    var c := Filled(s.config, width, height);
    var filled := Ack(s, serial).(config := c);
    SumSnoc(s.requests, AckConfigure(serial), k);
    if s.config.width == 0 || s.config.height == 0 || s.prevRender == 0 {
      ResizeSum(filled, c.width, c.height, s.factor, MappedSize(filled), k);
    }
  }

  lemma LayerConfigureSum(s: Surf, serial: uint32, width: uint32, height: uint32, again: bool, k: Tally)
    ensures var c := Filled(s.config, width, height);
      Sum(AfterLayerConfigure(s, serial, width, height, again).requests, k)
      == Sum(s.requests, k)
         + (if s.config.width == 0 || s.config.height == 0 || s.prevRender == 0
            then ResizeDelta(s, c.width, c.height, s.factor, MappedSize(s), k) else 0)
         + PresentDelta(s.(config := c), again, k)
  {
    var sized := LayerSized(s, serial, width, height);
    LayerSizedSum(s, serial, width, height, k);
    PresentSum(sized, again, k);
    assert PresentDelta(sized, again, k) == PresentDelta(s.(config := Filled(s.config, width, height)), again, k);
  }

  lemma FrameDoneSum(s: Surf, time: uint32, again: bool, k: Tally)
    ensures Sum(AfterFrameDone(s, time, again).requests, k)
         == Sum(s.requests, k) + Weight(k, CallbackDestroyed) + RenderDelta(s.(hasCallback := false), time, again, k)
  {
    SumSnoc(s.requests, CallbackDestroyed, k);
    RenderSum(s.(hasCallback := false, requests := s.requests + [CallbackDestroyed]), time, again, k);
  }

  lemma ReleaseSum(s: Surf, role: SurfaceType, unmapLength: int, k: Tally)
    ensures Sum(ReleaseWith(s, role, unmapLength).requests, k)
         == Sum(s.requests, k)
            + (if s.hasCallback then Weight(k, CallbackDestroyed) else 0)
            + (if s.buffer.Some? then Weight(k, Unmapped(unmapLength)) else 0)
  {
    var callback: seq<Request> := if s.hasCallback then [CallbackDestroyed] else [];
    var buffer: seq<Request> := if s.buffer.Some? then [BufferDestroyed, Unmapped(unmapLength)] else [];
    var region: seq<Request> := if s.hasRegion then [RegionDestroyed] else [];
    var rest := [RoleDestroyed(role)] + region + [SurfaceDestroyed];
    InertSum(rest, k);
    SumAppend(s.requests, callback, k);
    SumAppend(s.requests + callback, buffer, k);
    SumAppend(s.requests + callback + buffer, rest, k);
    if s.hasCallback { SumOne(CallbackDestroyed, k); }
    if s.buffer.Some? { SumTwo(BufferDestroyed, Unmapped(unmapLength), k); }
  }

  /** A request that moves no tally. */
  predicate Inert(q: Request) {
    !q.FrameRequested? && !q.CallbackDestroyed? && !q.BufferCreated? && !q.Unmapped? && !q.Rendered?
  }

  predicate AllInert(rs: seq<Request>) {
    forall i | 0 <= i < |rs| :: Inert(rs[i])
  }

  lemma {:induction false} InertSum(rs: seq<Request>, k: Tally)
    requires AllInert(rs)
    ensures Sum(rs, k) == 0
    decreases |rs|
  {
    if rs != [] {
      InertSum(rs[..|rs| - 1], k);
      SumSnoc(rs[..|rs| - 1], rs[|rs| - 1], k);
      assert rs[..|rs| - 1] + [rs[|rs| - 1]] == rs;
    }
  }

  // ---------------------------------------------------------------------
  // Properties of the operations.

  /** Under the invariant, at most one frame callback is ever outstanding. */
  lemma AtMostOneCallback(s: Surf)
    requires Consistent(s)
    ensures 0 <= Callbacks(s.requests) <= 1
    ensures Callbacks(s.requests) == 1 <==> s.hasCallback
  {
  }

  /** Asking for a frame twice is asking once; a new callback is requested only when none is held. */
  lemma RequestFrameIdempotent(s: Surf)
    ensures AfterRequestFrame(AfterRequestFrame(s)) == AfterRequestFrame(s)
    ensures Callbacks(AfterRequestFrame(s).requests) == Callbacks(s.requests) + (if s.hasCallback then 0 else 1)
  {
    RequestFrameSum(s, CallbackCount);
  }

  /** Once a pending size is positive it stays positive. */
  lemma PendingStaysPositive(s: Surf, width: int32, height: int32)
    requires s.pending.width > 0 && s.pending.height > 0
    ensures AfterToplevelConfigure(s, width, height).pending.width > 0
    ensures AfterToplevelConfigure(s, width, height).pending.height > 0
  {
  }

  /**
   * After an XDG configure the current size is the pending one; a buffer is
   * created exactly when the size changed or nothing was rendered yet, and
   * then it has the pending size at the current scale; the first frame is
   * rendered at once, later ones wait for a frame callback.
   */
  lemma XdgConfigureAdoptsPending(s: Surf, serial: uint32, again: bool)
    ensures var r := AfterXdgConfigure(s, serial, again);
      r.config == s.pending && r.pending == s.pending
      && BuffersCreated(r.requests) == BuffersCreated(s.requests) + (if s.config != s.pending || s.prevRender == 0 then 1 else 0)
      && (s.config != s.pending || s.prevRender == 0
          ==> r.buffer == Some(CreateBuffer(s.pending.width as int * s.factor as int, s.pending.height as int * s.factor as int)))
      && (s.config == s.pending && s.prevRender != 0 ==> r.buffer == s.buffer)
      && (s.prevRender == 0 ==> r.prevRender == 0 && Renders(r.requests) == Renders(s.requests) + (if s.closed then 0 else 1))
      && (s.prevRender != 0 ==> r.hasCallback && r.prevRender == s.prevRender && Renders(r.requests) == Renders(s.requests))
  {
    XdgConfigureSum(s, serial, again, BufferCount);
    XdgConfigureSum(s, serial, again, RenderCount);
  }

  /**
   * A layer configure fills only the dimensions that are still 0 and keeps
   * the others; a buffer is created exactly when a dimension was filled or
   * nothing was rendered yet, at the filled size and the current scale.
   */
  lemma LayerConfigureFillsZeros(s: Surf, serial: uint32, width: uint32, height: uint32, again: bool)
    ensures var r := AfterLayerConfigure(s, serial, width, height, again);
      r.config == Filled(s.config, width, height)
      && BuffersCreated(r.requests)
         == BuffersCreated(s.requests) + (if s.config.width == 0 || s.config.height == 0 || s.prevRender == 0 then 1 else 0)
      && (s.config.width == 0 || s.config.height == 0 || s.prevRender == 0
          ==> r.buffer == Some(CreateBuffer(r.config.width as int * s.factor as int, r.config.height as int * s.factor as int)))
      && (s.prevRender == 0 ==> r.prevRender == 0)
      && (s.prevRender != 0 ==> r.hasCallback && r.prevRender == s.prevRender)
  {
    LayerConfigureSum(s, serial, width, height, again, BufferCount);
  }

  /**
   * `frame_done` forgets the fired callback before rendering, so a render
   * function that asks for the next frame always gets a new callback.
   */
  lemma FrameDoneRearms(s: Surf, time: uint32, again: bool)
    ensures var r := AfterFrameDone(s, time, again);
      r.requests[|s.requests|] == CallbackDestroyed
      && r.hasCallback == (!s.closed && again)
      && Callbacks(r.requests) == Callbacks(s.requests) - 1 + (if !s.closed && again then 1 else 0)
      && (!s.closed ==> r.prevRender == time)
  {
    FrameDoneSum(s, time, again, CallbackCount);
  }

  /** While `closed` is set, neither configure handler renders, and neither clears it. */
  lemma ClosedConfigureStaysDark(s: Surf, serial: uint32, width: uint32, height: uint32, again: bool)
    requires s.closed
    ensures var r := AfterXdgConfigure(s, serial, again); r.closed && Renders(r.requests) == Renders(s.requests)
    ensures var r := AfterLayerConfigure(s, serial, width, height, again); r.closed && Renders(r.requests) == Renders(s.requests)
  {
    XdgConfigureSum(s, serial, again, RenderCount);
    LayerConfigureSum(s, serial, width, height, again, RenderCount);
  }

  /** While `closed` is set, rendering is a no-op, and neither a frame callback nor a scale change renders. */
  lemma ClosedFrameStaysDark(s: Surf, factor: int32, time: uint32, again: bool)
    requires s.closed
    ensures AfterRender(s, time, again) == s
    ensures var r := AfterFrameDone(s, time, again); r.closed && Renders(r.requests) == Renders(s.requests)
    ensures var r := AfterScale(s, factor); r.closed && Renders(r.requests) == Renders(s.requests)
  {
    FrameDoneSum(s, time, again, RenderCount);
    RequestFrameSum(s.(factor := factor), RenderCount);
  }

  /** The close events set `closed`; the init functions are the only ones that clear it. */
  lemma InitReopens(s: Surf, layer: Layer, anchors: bv32, exclusive: int32, width: int32, height: int32, isOpaque: bool)
    ensures AfterClose(s).closed
    ensures !AfterXdgInit(s, width, height, isOpaque).closed
    ensures !AfterLayerInit(s, layer, anchors, exclusive, width, height, isOpaque).closed
  {
  }

  /**
   * Every exclusive flag folds onto its edge: an edge is anchored exactly
   * when the edge flag or its exclusive flag is given.
   */
  lemma AnchorFoldsExclusive(anchors: bv32, edge: bv32)
    requires IsEdge(edge)
    ensures AnchorArg(anchors) & edge != 0 <==> (anchors & edge != 0 || anchors & (edge << 4) != 0)
    ensures AnchorArg(edge) == edge && AnchorArg(edge << 4) == edge
  {
  }

  /** The zone set last in a log of requests, if any. */
  function LastZone(rs: seq<Request>): Option<int> {
    if rs == [] then None
    else if rs[|rs| - 1].ExclusiveZoneSet? then Some(rs[|rs| - 1].zone)
    else LastZone(rs[..|rs| - 1])
  }

  lemma {:induction false} LastZoneAppend(a: seq<Request>, b: seq<Request>)
    ensures LastZone(a + b) == if LastZone(b).Some? then LastZone(b) else LastZone(a)
    decreases |b|
  {
    if b == [] {
      assert a + b == a;
    } else {
      var n := |b| - 1;
      assert (a + b)[..|a + b| - 1] == a + b[..n];
      assert b[..|b| - 1] == b[..n];
      LastZoneAppend(a, b[..n]);
    }
  }

  /**
   * The exclusive zone a layer surface ends up with: a non-zero `exclusive`
   * argument wins; otherwise any exclusive anchor flag gives `anchors >> 4`;
   * otherwise none is set. The anchor is sent first, and only when some flag
   * is given.
   */
  lemma ExclusiveZoneRule(anchors: bv32, exclusive: int32, width: int32, height: int32)
    ensures LastZone(LayerSetup(anchors, exclusive, width, height))
         == if exclusive != 0 then Some(exclusive as int)
            else if anchors >= ANCHOR_TOP_EXCLUSIVE then Some((anchors >> 4) as int)
            else None
    ensures LayerSetup(anchors, exclusive, width, height)[0] == AnchorSet(AnchorArg(anchors)) <==> anchors != ANCHOR_NONE
  {
    var a: seq<Request> := if anchors != ANCHOR_NONE then [AnchorSet(AnchorArg(anchors))] else [];
    var z: seq<Request> := if anchors >= ANCHOR_TOP_EXCLUSIVE then [ExclusiveZoneSet((anchors >> 4) as int)] else [];
    var e: seq<Request> := if exclusive != 0 then [ExclusiveZoneSet(exclusive as int)] else [];
    var tail: seq<Request> := [SizeSet(width, height)];
    assert LayerSetup(anchors, exclusive, width, height) == a + z + e + tail;
    LastZoneAppend(a + z + e, tail);
    LastZoneAppend(a + z, e);
    LastZoneAppend(a, z);
    assert LastZone(tail) == None by { assert tail[..0] == []; }
    assert LastZone(a) == None by { if a != [] { assert a[..0] == []; } }
    if exclusive != 0 {
      assert e[..0] == [];
    }
    if anchors >= ANCHOR_TOP_EXCLUSIVE {
      assert z[..0] == [];
    }
  }

  // ---------------------------------------------------------------------
  // The invariant, and the unmap lengths.

  /** Re-creating the buffer keeps the log and the pointers in agreement. */
  lemma ResizeKeepsConsistent(s: Surf, width: int32, height: int32, factor: int32)
    requires Consistent(s)
    ensures Consistent(AfterResize(s, width, height, factor))
  {
    ResizeSum(s, width, height, factor, MappedSize(s), CallbackCount);
    ResizeSum(s, width, height, factor, MappedSize(s), MappedLength);
  }

  /** Asking for a frame, with or without a scale change, keeps the invariant; so do the size and close events. */
  lemma RequestFrameKeepsConsistent(s: Surf, width: int32, height: int32, factor: int32)
    requires Consistent(s)
    ensures Consistent(AfterRequestFrame(s))
    ensures Consistent(AfterScale(s, factor))
    ensures Consistent(AfterToplevelConfigure(s, width, height))
    ensures Consistent(AfterClose(s))
  {
    RequestFrameSum(s, CallbackCount);
    RequestFrameSum(s, MappedLength);
    RequestFrameSum(s.(factor := factor), CallbackCount);
    RequestFrameSum(s.(factor := factor), MappedLength);
  }

  /** Rendering keeps the invariant, and so does `frame_done`, which fires only for a held callback. */
  lemma RenderKeepsConsistent(s: Surf, time: uint32, again: bool)
    requires Consistent(s)
    ensures Consistent(AfterRender(s, time, again))
    ensures s.hasCallback ==> Consistent(AfterFrameDone(s, time, again))
  {
    RenderSum(s, time, again, CallbackCount);
    RenderSum(s, time, again, MappedLength);
    FrameDoneSum(s, time, again, CallbackCount);
    FrameDoneSum(s, time, again, MappedLength);
  }

  lemma XdgConfigureKeepsConsistent(s: Surf, serial: uint32, again: bool)
    requires Consistent(s)
    ensures Consistent(AfterXdgConfigure(s, serial, again))
  {
    XdgConfigureSum(s, serial, again, CallbackCount);
    XdgConfigureSum(s, serial, again, MappedLength);
  }

  lemma LayerConfigureKeepsConsistent(s: Surf, serial: uint32, width: uint32, height: uint32, again: bool)
    requires Consistent(s)
    ensures Consistent(AfterLayerConfigure(s, serial, width, height, again))
  {
    LayerConfigureSum(s, serial, width, height, again, CallbackCount);
    LayerConfigureSum(s, serial, width, height, again, MappedLength);
  }

  /** `sinit_xdg_surface_init` keeps the invariant: it neither maps nor asks for frames. */
  lemma XdgInitKeepsConsistent(s: Surf, width: int32, height: int32, isOpaque: bool)
    requires Consistent(s)
    ensures Consistent(AfterXdgInit(s, width, height, isOpaque))
  {
    var sent := [ToplevelCreated] + RegionSetup(isOpaque, width, height) + [Committed];
    assert AllInert(sent);
    InertSum(sent, CallbackCount);
    InertSum(sent, MappedLength);
    SumAppend(s.requests, sent, CallbackCount);
    SumAppend(s.requests, sent, MappedLength);
  }

  lemma SetupInert(anchors: bv32, exclusive: int32, width: int32, height: int32)
    ensures AllInert(LayerSetup(anchors, exclusive, width, height))
  {
  }

  /** `sinit_layer_surface_init` keeps the invariant: it neither maps nor asks for frames. */
  lemma LayerInitKeepsConsistent(s: Surf, layer: Layer, anchors: bv32, exclusive: int32, width: int32, height: int32, isOpaque: bool)
    requires Consistent(s)
    ensures Consistent(AfterLayerInit(s, layer, anchors, exclusive, width, height, isOpaque))
  {
    var setup := LayerSetup(anchors, exclusive, width, height);
    SetupInert(anchors, exclusive, width, height);
    var sent := [LayerSurfaceCreated(layer)] + setup + RegionSetup(isOpaque, width, height) + [Committed];
    assert AllInert(sent);
    InertSum(sent, CallbackCount);
    InertSum(sent, MappedLength);
    SumAppend(s.requests, sent, CallbackCount);
    SumAppend(s.requests, sent, MappedLength);
  }

  /** Deinit leaves no callback outstanding and no byte mapped. */
  lemma DeinitReleasesEverything(s: Surf, role: SurfaceType)
    requires Consistent(s)
    ensures Callbacks(AfterDeinit(s, role).requests) == 0
    ensures MappedBytes(AfterDeinit(s, role).requests) == 0
  {
    ReleaseSum(s, role, MappedSize(s), CallbackCount);
    ReleaseSum(s, role, MappedSize(s), MappedLength);
  }

  /** A 100x100 surface at scale 2 with its 200x200 buffer mapped. */
  function Scaled100(): Surf {
    Surf(XdgToplevelSurface, Config(100, 100), Config(100, 100), false, Some(CreateBuffer(200, 200)), 2, 1, false, false,
         [BufferCreated(CreateBuffer(200, 200))])
  }

  /**
   * `resize_surface` as written unmaps `factor * w * h * 4` bytes of a buffer
   * that holds `4 * (w * factor) * (h * factor)`: at scale 2 only half of the
   * mapping is released, and the log no longer agrees with the buffer held.
   */
  lemma ResizeUnmapsTooLittle()
    ensures Consistent(Scaled100())
    ensures ResizeUnmapAsWritten(Scaled100().factor, Scaled100().config) == 80000
    ensures MappedSize(Scaled100()) == 160000
    ensures MappedBytes(AfterResizeAsWritten(Scaled100(), 100, 100, 2).requests) == 240000
    ensures !Consistent(AfterResizeAsWritten(Scaled100(), 100, 100, 2))
  {
    var s := Scaled100();
    SumOne(BufferCreated(CreateBuffer(200, 200)), CallbackCount);
    SumOne(BufferCreated(CreateBuffer(200, 200)), MappedLength);
    ResizeSum(s, 100, 100, 2, 80000, MappedLength);
  }

  /** The as-written length is right exactly when the scale is 0 or 1 or the surface is empty. */
  lemma ResizeUnmapRightOnlyUnscaled(config: Config, factor: int32)
    ensures ResizeUnmapAsWritten(factor, config) == CreateBuffer(config.width as int * factor as int, config.height as int * factor as int).size
        <==> factor == 0 || factor == 1 || config.width == 0 || config.height == 0
  {
    var w, h, f := config.width as int, config.height as int, factor as int;
    var x := 4 * w * h * f;
    ScaledBufferSize(w, h, f);
    assert CreateBuffer(w * f, h * f).size == x * f;
    assert ResizeUnmapAsWritten(factor, config) == x;
    assert x * f - x == x * (f - 1);
    assert x == 0 <==> w == 0 || h == 0 || f == 0 by {
      assert x == 4 * ((w * h) * f);
      ZeroProduct(w * h, f);
      ZeroProduct(w, h);
    }
    ZeroProduct(x, f - 1);
  }

  lemma ZeroProduct(a: int, b: int)
    ensures a * b == 0 <==> a == 0 || b == 0
  {
    if a != 0 && b != 0 {
      if a > 0 && b > 0 { assert a * b >= b; }
      if a > 0 && b < 0 { assert a * b <= b; }
      if a < 0 && b > 0 { assert a * b <= a; }
      if a < 0 && b < 0 { assert a * b >= -b; }
    }
  }

  /**
   * Both deinit functions as written unmap `w * h * 4` bytes, leaving the
   * scale out: of a scale-2 buffer three quarters stay mapped.
   */
  lemma DeinitUnmapsTooLittle()
    ensures DeinitUnmapAsWritten(Scaled100().config) == 40000
    ensures MappedBytes(AfterDeinitAsWritten(Scaled100(), XdgToplevelSurface).requests) == 120000
  {
    SumOne(BufferCreated(CreateBuffer(200, 200)), MappedLength);
    ReleaseSum(Scaled100(), XdgToplevelSurface, 40000, MappedLength);
  }

  // ---------------------------------------------------------------------
  // The surface object.

  /** A `sinit_surface`, whose fields the Wayland callbacks update in place. */
  class Surface {
    var typ: SurfaceType
    var config: Config
    var pending: Config
    var hasCallback: bool
    var buffer: Option<Buffer>
    var factor: int32
    var prevRender: uint32
    var closed: bool
    var hasRegion: bool
    ghost var requests: seq<Request>

    ghost function View(): Surf
      reads this
    {
      Surf(typ, config, pending, hasCallback, buffer, factor, prevRender, closed, hasRegion, requests)
    }

    /** A zero-initialised `sinit_surface`. */
    constructor ()
      ensures View() == ZEROED
    {
      typ := RawSurface;
      config := Config(0, 0);
      pending := Config(0, 0);
      hasCallback := false;
      buffer := None;
      factor := 0;
      prevRender := 0;
      closed := false;
      hasRegion := false;
      requests := [];
    }

    /** `sinit_surface_closed`. */
    predicate IsClosed()
      reads this
      ensures IsClosed() <==> View().closed
    {
      closed
    }

    method RequestFrame()
      modifies this
      ensures View() == AfterRequestFrame(old(View()))
    {
      if !hasCallback {
        hasCallback := true;
        requests := requests + [FrameRequested];
      }
    }

    /** `again`: whether the application's render function asks for the next frame. */
    method Render(time: uint32, again: bool)
      modifies this
      ensures View() == AfterRender(old(View()), time, again)
    {
      if closed {
        return;
      }
      requests := requests + [Rendered(config.width, config.height, factor, time)];
      if again {
        RequestFrame();
      }
      requests := requests + [Committed];
      prevRender := time;
    }

    method ResizeSurface(width: int32, height: int32, f: int32)
      modifies this
      ensures View() == AfterResize(old(View()), width, height, f)
    {
      if buffer.Some? {
        requests := requests + [BufferDestroyed, Unmapped(buffer.value.size)];
      }
      var b := CreateBuffer(width as int * f as int, height as int * f as int);
      buffer := Some(b);
      requests := requests + [BufferCreated(b), Attached, BufferScaleSet(f)];
    }

    method XdgSurfaceConfigure(serial: uint32, again: bool)
      modifies this
      ensures View() == AfterXdgConfigure(old(View()), serial, again)
    {
      ghost var s := View();
      requests := requests + [AckConfigure(serial)];
      assert View() == Ack(s, serial);
      var resized := config.width != pending.width || config.height != pending.height;
      assert resized == (s.config != s.pending);
      if resized || prevRender == 0 {
        ResizeSurface(pending.width, pending.height, factor);
        if hasRegion {
          requests := requests + RegionUpdate(config, pending);
        }
        assert View() == XdgReshape(Ack(s, serial), s.config, s.pending);
      }
      assert View() == XdgSized(s, serial);
      config := pending;
      assert View() == XdgSized(s, serial).(config := s.pending);
      Present(again);
    }

    /** The tail of both configure handlers: render the first frame at once, or ask for a frame. */
    method Present(again: bool)
      modifies this
      ensures View() == AfterPresent(old(View()), again)
    {
      if prevRender == 0 {
        Render(0, again);
      } else {
        RequestFrame();
      }
    }

    method ToplevelConfigure(width: int32, height: int32)
      modifies this
      ensures View() == AfterToplevelConfigure(old(View()), width, height)
    {
      if width > 0 {
        pending := pending.(width := width);
      }
      if height > 0 {
        pending := pending.(height := height);
      }
    }

    method ToplevelClose()
      modifies this
      ensures View() == AfterClose(old(View()))
    {
      closed := true;
    }

    method FrameDone(time: uint32, again: bool)
      modifies this
      ensures View() == AfterFrameDone(old(View()), time, again)
    {
      requests := requests + [CallbackDestroyed];
      hasCallback := false;
      Render(time, again);
    }

    method LayerSurfaceConfigure(serial: uint32, width: uint32, height: uint32, again: bool)
      modifies this
      ensures View() == AfterLayerConfigure(old(View()), serial, width, height, again)
    {
      ghost var s := View();
      requests := requests + [AckConfigure(serial)];
      var resized := false;
      if config.width == 0 {
        config := config.(width := AsInt32(width));
        resized := true;
      }
      if config.height == 0 {
        config := config.(height := AsInt32(height));
        resized := true;
      }
      if resized || prevRender == 0 {
        ResizeSurface(config.width, config.height, factor);
      }
      assert View() == LayerSized(s, serial, width, height);
      Present(again);
    }

    method LayerSurfaceClosed()
      modifies this
      ensures View() == AfterClose(old(View()))
    {
      closed := true;
    }

    method SurfaceScale(f: int32)
      modifies this
      ensures View() == AfterScale(old(View()), f)
    {
      factor := f;
      RequestFrame();
    }

    method XdgInit(width: int32, height: int32, isOpaque: bool)
      modifies this
      ensures View() == AfterXdgInit(old(View()), width, height, isOpaque)
    {
      typ := XdgToplevelSurface;
      factor := 1;
      closed := false;
      pending := Config(width, height);
      ghost var sent := [ToplevelCreated];
      if isOpaque {
        hasRegion := true;
        sent := sent + [RegionAdded(width, height), OpaqueRegionSet];
      }
      requests := requests + (sent + [Committed]);
    }

    method LayerInit(layer: Layer, anchors: bv32, exclusive: int32, width: int32, height: int32, isOpaque: bool)
      modifies this
      ensures View() == AfterLayerInit(old(View()), layer, anchors, exclusive, width, height, isOpaque)
    {
      typ := LayerShellSurface;
      factor := 1;
      closed := false;
      config := Config(width, height);
      // The anchor, exclusive-zone and size requests, each sent only when its argument calls for it.
      ghost var sent := [LayerSurfaceCreated(layer)] + LayerSetup(anchors, exclusive, width, height);
      if isOpaque {
        hasRegion := true;
        sent := sent + [RegionAdded(width, height), OpaqueRegionSet];
      }
      requests := requests + (sent + [Committed]);
    }

    method XdgDeinit()
      modifies this
      ensures View() == AfterDeinit(old(View()), XdgToplevelSurface)
    {
      Release(XdgToplevelSurface);
    }

    method LayerDeinit()
      modifies this
      ensures View() == AfterDeinit(old(View()), LayerShellSurface)
    {
      Release(LayerShellSurface);
    }

    method Release(role: SurfaceType)
      modifies this
      ensures View() == AfterDeinit(old(View()), role)
    {
      ghost var callback: seq<Request> := [];
      if hasCallback {
        callback := [CallbackDestroyed];
      }
      ghost var freed: seq<Request> := [];
      if buffer.Some? {
        freed := [BufferDestroyed, Unmapped(buffer.value.size)];
      }
      ghost var region: seq<Request> := [];
      if hasRegion {
        region := [RegionDestroyed];
      }
      requests := requests + callback + freed + ([RoleDestroyed(role)] + region + [SurfaceDestroyed]);
      typ := RawSurface;
    }
  }
}
