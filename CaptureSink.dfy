// The Media Foundation stream sink of the UWP video capturer
// (video_capture_sink_winuwp.cc, `VideoCaptureStreamSinkWinUWP`): the
// table of which clock operation is valid in which stream state, the state
// changes of the clock callbacks, the sample queue and shutdown.
module CaptureSink {
  import opened Common

  /** `State`, in declaration order: TypeNotSet is 0, Paused is 4. */
  datatype State = TypeNotSet | Ready | Started | Stopped | Paused

  /** `StreamOperation`, in declaration order. */
  datatype Operation = OpSetMediaType | OpStart | OpRestart | OpPause | OpStop | OpProcessSample | OpPlaceMarker

  datatype Status = Ok | ErrNotInitialized | ErrInvalidRequest | ErrShutdown | ErrInvalidArg | ErrInvalidMediaType

  /** An item of the sample queue: a sample or a new media type. */
  datatype QueueItem = SampleItem(sample: int) | MediaTypeItem(mediaType: int)

  /** `PRESENTATION_CURRENT_POSITION`. */
  const PresentationCurrentPosition: int := 0x7fff_ffff_ffff_ffff

  function StateIndex(s: State): (i: nat)
    ensures i < 5
  {
    match s
    case TypeNotSet => 0
    case Ready => 1
    case Started => 2
    case Stopped => 3
    case Paused => 4
  }

  function OpIndex(op: Operation): (i: nat)
    ensures i < 7
  {
    match op
    case OpSetMediaType => 0
    case OpStart => 1
    case OpRestart => 2
    case OpPause => 3
    case OpStop => 4
    case OpProcessSample => 5
    case OpPlaceMarker => 6
  }

  /**
   * `ValidStateMatrix`, row by row as written; its rows are labelled
   * NotSet, Ready, Start, Pause, Stop and the columns SetType, Start,
   * Restart, Pause, Stop, Sample, Marker.
   */
  const ValidStateMatrix: seq<seq<bool>> := [
    [true, false, false, false, false, false, false],
    [true, true, false, true, true, false, true],
    [true, true, false, true, true, true, true],
    [true, true, true, true, true, true, true],
    [true, true, false, false, true, false, true]]

  /** The table as the code reads it: row by the state's enum value. */
  function IsValidAsWritten(s: State, op: Operation): (r: bool)
    ensures op == OpSetMediaType ==> r
    ensures s == TypeNotSet ==> (r <==> op == OpSetMediaType)
    ensures op == OpRestart ==> (r <==> s == Stopped)
  {
    ValidStateMatrix[StateIndex(s)][OpIndex(op)]
  }

  /** The row a state's label names: Paused reads the Pause row, Stopped the Stop row. */
  function LabelledRow(s: State): (i: nat)
    ensures i < 5
  {
    match s
    case TypeNotSet => 0
    case Ready => 1
    case Started => 2
    case Paused => 3
    case Stopped => 4
  }

  /** The table as its row labels describe it. */
  function IsValid(s: State, op: Operation): (r: bool)
    ensures op == OpSetMediaType ==> r
    ensures s == TypeNotSet ==> (r <==> op == OpSetMediaType)
    ensures op == OpRestart ==> (r <==> s == Paused)
  {
    ValidStateMatrix[LabelledRow(s)][OpIndex(op)]
  }

  /**
   * As written, Paused and Stopped swap rows: Restart is accepted only when
   * stopped, and a paused stream refuses samples, pausing and restarting.
   */
  lemma AsWrittenRestartOnlyFromStopped(s: State)
    ensures IsValidAsWritten(s, OpRestart) <==> s == Stopped
    ensures !IsValidAsWritten(Paused, OpRestart) && !IsValidAsWritten(Paused, OpProcessSample)
    ensures !IsValidAsWritten(Paused, OpPause)
    ensures IsValidAsWritten(Stopped, OpPause) && IsValidAsWritten(Stopped, OpProcessSample)
  {
  }

  /**
   * The swap matters only for restarting, pausing and taking samples: every
   * other operation is judged alike in both readings, so `Start`, `Stop`,
   * `SetCurrentMediaType` and markers behave as written.
   */
  lemma ReadingsDifferOnlyForRestartPauseAndSample(s: State, op: Operation)
    ensures op != OpRestart && op != OpPause && op != OpProcessSample ==>
      IsValid(s, op) == IsValidAsWritten(s, op)
    ensures op == OpRestart || op == OpPause || op == OpProcessSample ==>
      (IsValid(Paused, op) && !IsValidAsWritten(Paused, op)
       && !IsValid(Stopped, op) && IsValidAsWritten(Stopped, op))
  {
  }

  /** The two readings differ exactly by swapping the Paused and Stopped rows. */
  lemma ReadingsSwapPausedAndStopped(s: State, op: Operation)
    ensures s !in {Paused, Stopped} ==> IsValid(s, op) == IsValidAsWritten(s, op)
    ensures IsValid(Paused, op) == IsValidAsWritten(Stopped, op)
    ensures IsValid(Stopped, op) == IsValidAsWritten(Paused, op)
  {
  }

  /**
   * As labelled, the clock restarts only from a pause; a paused stream
   * still takes samples; a stopped one takes no samples and cannot pause.
   */
  lemma RestartOnlyFromPaused(s: State)
    ensures IsValid(s, OpRestart) <==> s == Paused
    ensures IsValid(Paused, OpProcessSample) && IsValid(Started, OpProcessSample)
    ensures !IsValid(Stopped, OpProcessSample) && !IsValid(Stopped, OpPause)
  {
  }

  /** Outcome of `ValidateOperation` for a given reading of the table. */
  function Validate(valid: bool, s: State): (r: Status)
    ensures r == Ok <==> valid
    ensures !valid && s == TypeNotSet ==> r == ErrNotInitialized
    ensures !valid && s != TypeNotSet ==> r == ErrInvalidRequest
  {
    if valid then Ok
    else if s == TypeNotSet then ErrNotInitialized
    else ErrInvalidRequest
  }

  /** `ValidateOperation` as written. */
  function ValidateOperationAsWritten(s: State, op: Operation): (r: Status)
    ensures r == Ok <==> IsValidAsWritten(s, op)
    ensures r == ErrNotInitialized <==> s == TypeNotSet && op != OpSetMediaType
    ensures r == Ok || r == ErrNotInitialized || r == ErrInvalidRequest
  {
    Validate(IsValidAsWritten(s, op), s)
  }

  /** `ValidateOperation`, with the table read by its labels. */
  function ValidateOperation(s: State, op: Operation): (r: Status)
    ensures r == Ok <==> IsValid(s, op)
    ensures r == ErrNotInitialized <==> s == TypeNotSet && op != OpSetMediaType
    ensures r == Ok || r == ErrNotInitialized || r == ErrInvalidRequest
  {
    Validate(IsValid(s, op), s)
  }

  /**
   * Before a media type is set only `OpSetMediaType` validates, and every
   * other operation is refused as not initialised, in both readings; and
   * setting a media type is always allowed.
   */
  lemma OnlySetMediaTypeBeforeType(op: Operation, s: State)
    ensures ValidateOperation(TypeNotSet, op) == Ok <==> op == OpSetMediaType
    ensures op != OpSetMediaType ==> ValidateOperation(TypeNotSet, op) == ErrNotInitialized
    ensures ValidateOperationAsWritten(TypeNotSet, op) == ValidateOperation(TypeNotSet, op)
    ensures ValidateOperation(s, OpSetMediaType) == Ok
  {
  }

  /** `VideoCaptureStreamSinkWinUWP`. */
  class StreamSink {
    var state: State
    var isShutdown: bool
    var getStartTimeFromSample: bool
    var startTime: int
    var currentType: Option<int>
    /** `_sampleQueue`. */
    var sampleQueue: seq<QueueItem>
    /** The asynchronous operations put on the work queue, in order. */
    var pendingOps: seq<Operation>

    constructor()
      ensures state == TypeNotSet && !isShutdown && !getStartTimeFromSample && startTime == 0
      ensures currentType == None && sampleQueue == [] && pendingOps == []
    {
      state := TypeNotSet;
      isShutdown := false;
      getStartTimeFromSample := false;
      startTime := 0;
      currentType := None;
      sampleQueue := [];
      pendingOps := [];
    }

    /**
     * `Start`: caches the start time, or takes it from the first sample
     * when the clock starts at its current position; the stream is then
     * started.
     */
    method Start(start: int) returns (r: Status)
      requires !isShutdown
      modifies this
      ensures r == ValidateOperation(old(state), OpStart)
      ensures r == Ok ==> state == Started && pendingOps == old(pendingOps) + [OpStart]
      ensures r == Ok && start != PresentationCurrentPosition ==> startTime == start && !getStartTimeFromSample
      ensures r == Ok && start == PresentationCurrentPosition ==> getStartTimeFromSample && startTime == old(startTime)
      ensures r != Ok ==> (state == old(state) && pendingOps == old(pendingOps)
        && startTime == old(startTime) && getStartTimeFromSample == old(getStartTimeFromSample))
      ensures sampleQueue == old(sampleQueue) && !isShutdown && currentType == old(currentType)
    {
      r := ValidateOperation(state, OpStart);
      if r == Ok {
        if start != PresentationCurrentPosition {
          startTime := start;
          getStartTimeFromSample := false;
        } else {
          getStartTimeFromSample := true;
        }
        state := Started;
        pendingOps := pendingOps + [OpStart];
      }
    }

    /** A clock callback without arguments: validate, then move to `target`. */
    method ClockChange(op: Operation, target: State) returns (r: Status)
      requires !isShutdown
      modifies this`state, this`pendingOps
      ensures r == ValidateOperation(old(state), op)
      ensures r == Ok ==> state == target && pendingOps == old(pendingOps) + [op]
      ensures r != Ok ==> state == old(state) && pendingOps == old(pendingOps)
    {
      r := ValidateOperation(state, op);
      if r == Ok {
        state := target;
        pendingOps := pendingOps + [op];
      }
    }

    /** `Stop`. */
    method Stop() returns (r: Status)
      requires !isShutdown
      modifies this`state, this`pendingOps
      ensures r == ValidateOperation(old(state), OpStop)
      ensures r == Ok ==> state == Stopped && pendingOps == old(pendingOps) + [OpStop]
      ensures r != Ok ==> state == old(state) && pendingOps == old(pendingOps)
    {
      r := ClockChange(OpStop, Stopped);
    }

    /** `Pause`, with the table read by its labels: a stopped stream cannot pause (as
        written it can, and a paused one cannot pause again). */
    method Pause() returns (r: Status)
      requires !isShutdown
      modifies this`state, this`pendingOps
      ensures r == ValidateOperation(old(state), OpPause)
      ensures r == Ok ==> state == Paused && pendingOps == old(pendingOps) + [OpPause]
      ensures r != Ok ==> state == old(state) && pendingOps == old(pendingOps)
    {
      r := ClockChange(OpPause, Paused);
    }

    /** `Restart`, with the table read by its labels: back to Started, from a pause only. */
    method Restart() returns (r: Status)
      requires !isShutdown
      modifies this`state, this`pendingOps
      ensures r == ValidateOperation(old(state), OpRestart)
      ensures r == Ok <==> old(state) == Paused
      ensures r == Ok ==> state == Started && pendingOps == old(pendingOps) + [OpRestart]
      ensures r != Ok ==> state == old(state) && pendingOps == old(pendingOps)
    {
      RestartOnlyFromPaused(state);
      r := ClockChange(OpRestart, Started);
    }

    /**
     * `ProcessSample`, with the table read by its labels: a sample is queued
     * when the state allows it, and a dispatch is scheduled unless the
     * stream is paused. As written a paused stream refuses every sample, so
     * the branch for a paused stream is never taken, and a stopped stream
     * takes samples.
     */
    method ProcessSample(sample: Option<int>) returns (r: Status)
      modifies this`sampleQueue, this`pendingOps
      ensures sample.None? ==> r == ErrInvalidArg
      ensures sample.Some? && isShutdown ==> r == ErrShutdown
      ensures sample.Some? && !isShutdown ==> r == ValidateOperation(state, OpProcessSample)
      ensures r == Ok ==> sampleQueue == old(sampleQueue) + [SampleItem(sample.value)]
      ensures r == Ok && state != Paused ==> pendingOps == old(pendingOps) + [OpProcessSample]
      ensures r != Ok ==> sampleQueue == old(sampleQueue)
      ensures r != Ok || state == Paused ==> pendingOps == old(pendingOps)
    {
      if sample.None? {
        return ErrInvalidArg;
      }
      r := Ok;
      if isShutdown {
        r := ErrShutdown;
      }
      if r == Ok {
        r := ValidateOperation(state, OpProcessSample);
      }
      if r == Ok {
        sampleQueue := sampleQueue + [SampleItem(sample.value)];
        if state != Paused {
          pendingOps := pendingOps + [OpProcessSample];
        }
      }
    }

    /**
     * `SetCurrentMediaType`: once a type is set a new one must be
     * supported; the first type makes the stream ready, and a type set
     * while streaming is queued as a format change.
     */
    method SetCurrentMediaType(mediaType: Option<int>, supported: bool) returns (r: Status)
      modifies this`state, this`currentType, this`sampleQueue, this`pendingOps
      ensures mediaType.None? ==> r == ErrInvalidArg
      ensures mediaType.Some? && isShutdown ==> r == ErrShutdown
      ensures r == Ok <==> mediaType.Some? && !isShutdown && (old(state) == TypeNotSet || supported)
      ensures r == Ok ==> currentType == mediaType
      ensures r == Ok && old(state) == TypeNotSet ==> state == Ready
      ensures StateIndex(state) >= StateIndex(old(state)) && (old(state) != TypeNotSet ==> state == old(state))
      ensures r == Ok && StateIndex(old(state)) > StateIndex(Ready) ==>
        (sampleQueue == old(sampleQueue) + [MediaTypeItem(mediaType.value)]
        && pendingOps == old(pendingOps) + [OpSetMediaType])
      ensures r != Ok || StateIndex(old(state)) <= StateIndex(Ready) ==>
        sampleQueue == old(sampleQueue) && pendingOps == old(pendingOps)
      ensures r != Ok ==> currentType == old(currentType) && state == old(state)
    {
      if mediaType.None? {
        return ErrInvalidArg;
      }
      if isShutdown {
        return ErrShutdown;
      }
      OnlySetMediaTypeBeforeType(OpSetMediaType, state);
      r := ValidateOperation(state, OpSetMediaType);
      if r != Ok {
        return;
      }
      if StateIndex(state) >= StateIndex(Ready) && !supported {
        return ErrInvalidMediaType;
      }
      currentType := mediaType;
      if StateIndex(state) < StateIndex(Ready) {
        state := Ready;
      } else if StateIndex(state) > StateIndex(Ready) {
        sampleQueue := sampleQueue + [MediaTypeItem(mediaType.value)];
        pendingOps := pendingOps + [OpSetMediaType];
      }
    }

    /** `Shutdown`: empties the queue and releases the type once; later calls change nothing. */
    method Shutdown() returns (r: Status)
      modifies this`isShutdown, this`sampleQueue, this`currentType
      ensures r == Ok && isShutdown
      ensures !old(isShutdown) ==> sampleQueue == [] && currentType == None
      ensures old(isShutdown) ==> sampleQueue == old(sampleQueue) && currentType == old(currentType)
    {
      if !isShutdown {
        while sampleQueue != []
          decreases |sampleQueue|
        {
          sampleQueue := sampleQueue[1..];
        }
        currentType := None;
        isShutdown := true;
      }
      r := Ok;
    }
  }
}
