/** The VP8 temporal-layers checker: it follows the temporal layer and key-frame status of
    the three VP8 reference buffers (last, golden, alt-ref) across frame configurations and
    rejects a configuration that references a buffer it may not, that names a temporal
    layer the stream does not have, or whose layer-sync bit is set wrongly. */
module TemporalLayers {

  /** `kNoTemporalIdx`: the packetizer temporal index of a stream without layers. */
  const NoTemporalIdx: int := 0xFF

  /** The `kReference` and `kUpdate` bits of `TemporalLayers::BufferFlags`. */
  datatype BufferFlags = BufferFlags(reference: bool, update: bool)

  /** `TemporalLayers::FrameConfig`, as far as the checker reads it. */
  datatype FrameConfig = FrameConfig(dropFrame: bool, packetizerTemporalIdx: int, layerSync: bool,
                                     lastBufferFlags: BufferFlags, goldenBufferFlags: BufferFlags,
                                     arfBufferFlags: BufferFlags)

  /** `BufferState`: the layer and key-frame status of the frame a buffer holds. */
  datatype Buffer = Buffer(temporalLayer: int, isKeyframe: bool)

  /** The state of a freshly constructed buffer: a key frame on layer 0. */
  const InitialBuffer: Buffer := Buffer(0, true)

  /** Whether a frame may reference a buffer: key frames may reference anything, other
      frames only key frames or frames of their own or lower layers. */
  predicate MayReference(b: Buffer, frameIsKeyframe: bool, temporalLayer: int)
  {
    frameIsKeyframe || b.isKeyframe || b.temporalLayer <= temporalLayer
  }

  /** `CheckAndUpdateBufferState`: whether the buffer passes, the buffer afterwards, and
      `need_sync` afterwards. */
  function BufferStep(b: Buffer, needSync: bool, frameIsKeyframe: bool, temporalLayer: int,
                      flags: BufferFlags): (r: (bool, Buffer, bool))
    ensures !r.0 <==> flags.reference && !MayReference(b, frameIsKeyframe, temporalLayer)
    ensures !r.0 ==> r.1 == b
    ensures r.0 && (flags.update || frameIsKeyframe) ==> r.1 == Buffer(temporalLayer, frameIsKeyframe)
    ensures !(flags.update || frameIsKeyframe) ==> r.1 == b
    ensures r.2 <==> needSync && !(flags.reference && b.temporalLayer > 0)
  {
    var sync := if flags.reference && b.temporalLayer > 0 then false else needSync;
    if flags.reference && !frameIsKeyframe && !b.isKeyframe && b.temporalLayer > temporalLayer then
      (false, b, sync)
    else if flags.update || frameIsKeyframe then
      (true, Buffer(temporalLayer, frameIsKeyframe), sync)
    else
      (true, b, sync)
  }

  /** The checker's three buffers. */
  datatype Buffers = Buffers(last: Buffer, golden: Buffer, arf: Buffer)

  /** Whether the configuration names a temporal layer the stream has. */
  predicate LayerIndexValid(numTemporalLayers: int, idx: int)
  {
    !(idx >= numTemporalLayers || (idx == NoTemporalIdx && numTemporalLayers > 1))
  }

  /** `CheckTemporalConfig`: the buffers afterwards and the verdict. The three buffers are
      checked in the order last, golden, alt-ref, and the first failure ends the check with
      the earlier buffers already updated. */
  function Checked(numTemporalLayers: int, s: Buffers, frameIsKeyframe: bool, c: FrameConfig): (r: (Buffers, bool))
    ensures !r.1 ==> !c.dropFrame
    ensures r.1 && !c.dropFrame ==> LayerIndexValid(numTemporalLayers, c.packetizerTemporalIdx)
    ensures !LayerIndexValid(numTemporalLayers, c.packetizerTemporalIdx) ==> r.0 == s
  {
    if c.dropFrame then (s, true)
    else if !LayerIndexValid(numTemporalLayers, c.packetizerTemporalIdx) then (s, false)
    else
      var idx := c.packetizerTemporalIdx;
      var sync0 := idx > 0 && idx != NoTemporalIdx;
      var (okLast, last, sync1) := BufferStep(s.last, sync0, frameIsKeyframe, idx, c.lastBufferFlags);
      if !okLast then (s.(last := last), false)
      else
        var (okGolden, golden, sync2) := BufferStep(s.golden, sync1, frameIsKeyframe, idx, c.goldenBufferFlags);
        if !okGolden then (s.(last := last, golden := golden), false)
        else
          var (okArf, arf, sync3) := BufferStep(s.arf, sync2, frameIsKeyframe, idx, c.arfBufferFlags);
          if !okArf then (Buffers(last, golden, arf), false)
          else (Buffers(last, golden, arf), sync3 == c.layerSync)
  }

  /** A dropped frame is always accepted and changes no buffer. */
  lemma DroppedFrameAccepted(n: int, s: Buffers, key: bool, c: FrameConfig)
    requires c.dropFrame
    ensures Checked(n, s, key, c) == (s, true)
  {
  }

  /** A configuration naming a layer the stream does not have is rejected unchanged. */
  lemma BadLayerIndexRejected(n: int, s: Buffers, key: bool, c: FrameConfig)
    requires !c.dropFrame && !LayerIndexValid(n, c.packetizerTemporalIdx)
    ensures Checked(n, s, key, c) == (s, false)
  {
  }

  /** An accepted frame references only buffers it may reference. */
  lemma AcceptedReferencesAreAllowed(n: int, s: Buffers, key: bool, c: FrameConfig)
    requires Checked(n, s, key, c).1 && !c.dropFrame
    ensures c.lastBufferFlags.reference ==> MayReference(s.last, key, c.packetizerTemporalIdx)
    ensures c.goldenBufferFlags.reference ==> MayReference(s.golden, key, c.packetizerTemporalIdx)
    ensures c.arfBufferFlags.reference ==> MayReference(s.arf, key, c.packetizerTemporalIdx)
  {
  }

  /** An accepted key frame leaves all three buffers holding a key frame of its layer. */
  lemma AcceptedKeyFrameRefreshesBuffers(n: int, s: Buffers, c: FrameConfig)
    requires Checked(n, s, true, c).1 && !c.dropFrame
    ensures var b := Buffer(c.packetizerTemporalIdx, true);
      Checked(n, s, true, c).0 == Buffers(b, b, b)
  {
  }

  /** Whether a referenced buffer holds a frame above the base layer. */
  predicate ReferencesUpperLayer(flags: BufferFlags, b: Buffer)
  {
    flags.reference && b.temporalLayer > 0
  }

  /** The layer-sync bit of an accepted, non-dropped frame is set exactly when the frame is
      on an upper layer and references no buffer holding an upper-layer frame. */
  lemma AcceptedSyncBitMeaning(n: int, s: Buffers, key: bool, c: FrameConfig)
    requires Checked(n, s, key, c).1 && !c.dropFrame
    ensures c.layerSync <==>
      (&& c.packetizerTemporalIdx > 0 && c.packetizerTemporalIdx != NoTemporalIdx
       && !ReferencesUpperLayer(c.lastBufferFlags, s.last)
       && !ReferencesUpperLayer(c.goldenBufferFlags, s.golden)
       && !ReferencesUpperLayer(c.arfBufferFlags, s.arf))
  {
  }

  /** A rejected configuration can still change buffers: a frame that updates the last
      buffer and then references an upper-layer golden buffer is rejected with the last
      buffer already overwritten. */
  lemma RejectionKeepsEarlierUpdates()
    ensures var s := Buffers(Buffer(0, true), Buffer(2, false), Buffer(0, true));
      var c := FrameConfig(false, 1, false, BufferFlags(false, true), BufferFlags(true, false), BufferFlags(false, false));
      Checked(3, s, false, c) == (s.(last := Buffer(1, false)), false)
  {
  }

  /** A reference buffer, updated in place through a pointer. */
  class BufferState {
    var temporalLayer: int
    var isKeyframe: bool

    function Value(): Buffer
      reads this
    {
      Buffer(temporalLayer, isKeyframe)
    }

    constructor()
      ensures Value() == InitialBuffer
    {
      temporalLayer := 0;
      isKeyframe := true;
    }
  }

  class TemporalLayersChecker {
    const numTemporalLayers: int
    const last: BufferState
    const golden: BufferState
    const arf: BufferState

    /** The three buffers are distinct objects. */
    predicate Valid()
      reads this
    {
      last != golden && golden != arf && last != arf
    }

    function Snapshot(): Buffers
      reads this, last, golden, arf
    {
      Buffers(last.Value(), golden.Value(), arf.Value())
    }

    constructor(numLayers: int)
      ensures Valid() && numTemporalLayers == numLayers
      ensures Snapshot() == Buffers(InitialBuffer, InitialBuffer, InitialBuffer)
      ensures fresh(last) && fresh(golden) && fresh(arf)
    {
      numTemporalLayers := numLayers;
      last := new BufferState();
      golden := new BufferState();
      arf := new BufferState();
    }

    /** `CheckAndUpdateBufferState`: `state` and `need_sync` are updated in place. */
    static method CheckAndUpdateBufferState(state: BufferState, needSync: bool, frameIsKeyframe: bool,
                                            temporalLayer: int, flags: BufferFlags)
      returns (ok: bool, needSyncOut: bool)
      modifies state
      ensures (ok, state.Value(), needSyncOut) == BufferStep(old(state.Value()), needSync, frameIsKeyframe, temporalLayer, flags)
    {
      needSyncOut := needSync;
      if flags.reference {
        if state.temporalLayer > 0 {
          needSyncOut := false;
        }
        if !frameIsKeyframe && !state.isKeyframe && state.temporalLayer > temporalLayer {
          return false, needSyncOut;
        }
      }
      if flags.update || frameIsKeyframe {
        state.temporalLayer := temporalLayer;
        state.isKeyframe := frameIsKeyframe;
      }
      ok := true;
    }

    /** `CheckTemporalConfig`. */
    method CheckTemporalConfig(frameIsKeyframe: bool, c: FrameConfig) returns (ok: bool)
      requires Valid()
      modifies last, golden, arf
      ensures (Snapshot(), ok) == Checked(numTemporalLayers, old(Snapshot()), frameIsKeyframe, c)
    {
      if c.dropFrame {
        return true;
      }
      if c.packetizerTemporalIdx >= numTemporalLayers
         || (c.packetizerTemporalIdx == NoTemporalIdx && numTemporalLayers > 1) {
        return false;
      }
      var needSync := c.packetizerTemporalIdx > 0 && c.packetizerTemporalIdx != NoTemporalIdx;
      ok, needSync := CheckAndUpdateBufferState(last, needSync, frameIsKeyframe, c.packetizerTemporalIdx, c.lastBufferFlags);
      if !ok {
        return false;
      }
      ok, needSync := CheckAndUpdateBufferState(golden, needSync, frameIsKeyframe, c.packetizerTemporalIdx, c.goldenBufferFlags);
      if !ok {
        return false;
      }
      ok, needSync := CheckAndUpdateBufferState(arf, needSync, frameIsKeyframe, c.packetizerTemporalIdx, c.arfBufferFlags);
      if !ok {
        return false;
      }
      ok := needSync == c.layerSync;
    }
  }
}
