// The WinRT video renderer (video_render_winrt.cc): a channel holds one
// frame between the video engine, which delivers frames, and the screen
// update thread, which forwards the held frame to the media source and
// marks it rendered. The channel is a one-slot mailbox: a frame delivered
// while the slot is full is dropped.
module VideoRender {

  /** A video frame, reduced to what the renderer reads. */
  datatype Frame = Frame(width: int, height: int, renderTimeMs: int)

  /** `VideoChannelWinRT`. */
  class Channel {
    var width: int
    var height: int
    var bufferIsUpdated: bool
    var videoFrame: Frame
    /** The frame sizes announced to the media source, in order. */
    var sizeChanges: seq<(int, int)>
    /** The frames forwarded to the media source, in order. */
    var forwarded: seq<Frame>

    /** The channel as a mailbox. */
    function Box(): Mailbox
      reads this
    {
      Mailbox(videoFrame, bufferIsUpdated, forwarded)
    }

    constructor()
      ensures width == 0 && height == 0 && !bufferIsUpdated
      ensures sizeChanges == [] && forwarded == []
    {
      width := 0;
      height := 0;
      bufferIsUpdated := false;
      videoFrame := Frame(0, 0, 0);
      sizeChanges := [];
      forwarded := [];
    }

    /** `FrameSizeChange`: records the size and tells the media source. */
    method FrameSizeChange(w: int, h: int) returns (r: int)
      modifies this`width, this`height, this`sizeChanges
      ensures r == 0 && width == w && height == h
      ensures sizeChanges == old(sizeChanges) + [(w, h)]
    {
      width := w;
      height := h;
      sizeChanges := sizeChanges + [(w, h)];
      r := 0;
    }

    /** `DeliverFrame`: fills the slot, or drops the frame when it is full. */
    method DeliverFrame(frame: Frame) returns (r: int)
      modifies this`videoFrame, this`bufferIsUpdated
      ensures old(bufferIsUpdated) ==> r == -1 && videoFrame == old(videoFrame) && bufferIsUpdated
      ensures !old(bufferIsUpdated) ==> r == 0 && videoFrame == frame && bufferIsUpdated
      ensures Box() == Apply(old(Box()), Deliver(frame))
    {
      if bufferIsUpdated {
        return -1;
      }
      videoFrame := frame;
      bufferIsUpdated := true;
      r := 0;
    }

    /** `RenderFrame`: announces a size change first, then delivers. */
    method RenderFrame(frame: Frame) returns (r: int)
      modifies this
      ensures width == frame.width && height == frame.height
      ensures (old(width), old(height)) != (frame.width, frame.height) ==>
        sizeChanges == old(sizeChanges) + [(frame.width, frame.height)]
      ensures (old(width), old(height)) == (frame.width, frame.height) ==> sizeChanges == old(sizeChanges)
      ensures old(bufferIsUpdated) ==> r == -1 && videoFrame == old(videoFrame)
      ensures !old(bufferIsUpdated) ==> r == 0 && videoFrame == frame
      ensures bufferIsUpdated && forwarded == old(forwarded)
    {
      if width != frame.width || height != frame.height {
        var changed := FrameSizeChange(frame.width, frame.height);
        if changed == -1 {
          return -1;
        }
      }
      r := DeliverFrame(frame);
    }

    /** `RenderOffFrame`: the held frame has been rendered; the slot is free. */
    method RenderOffFrame() returns (r: int)
      modifies this`bufferIsUpdated
      ensures r == 0 && !bufferIsUpdated
    {
      bufferIsUpdated := false;
      r := 0;
    }

    /** `IsUpdated`: whether the slot holds a frame not yet rendered. */
    method IsUpdated() returns (r: int, isUpdated: bool)
      ensures r == 0 && isUpdated == bufferIsUpdated
    {
      isUpdated := bufferIsUpdated;
      r := 0;
    }
  }

  /** `VideoRenderWinRT`: the channel it owns, if any. */
  class Renderer {
    var channel: Channel?

    constructor()
      ensures channel == null
    {
      channel := null;
    }

    /** `CreateChannel`: a fresh channel replaces the current one. */
    method CreateChannel() returns (c: Channel)
      modifies this
      ensures fresh(c) && channel == c
      ensures c.width == 0 && c.height == 0 && !c.bufferIsUpdated && c.forwarded == []
    {
      c := new Channel();
      channel := c;
    }

    /** `DeleteChannel`: the renderer no longer has a channel. */
    method DeleteChannel() returns (r: int)
      modifies this
      ensures r == 0 && channel == null
    {
      channel := null;
      r := 0;
    }

    /**
     * `UpdateRenderSurface`: -1 without a channel or without a new frame;
     * otherwise the held frame goes to the media source and the slot is
     * freed.
     */
    method UpdateRenderSurface() returns (r: int)
      modifies channel
      ensures channel == null ==> r == -1
      ensures channel != null && !old(channel.bufferIsUpdated) ==>
        r == -1 && channel.forwarded == old(channel.forwarded)
      ensures channel != null && old(channel.bufferIsUpdated) ==>
        && r == 0 && channel.forwarded == old(channel.forwarded) + [channel.videoFrame]
        && !channel.bufferIsUpdated
      ensures channel != null ==> channel.Box() == Apply(old(channel.Box()), Update)
      ensures channel != null ==> (channel.videoFrame == old(channel.videoFrame)
        && channel.width == old(channel.width) && channel.height == old(channel.height))
    {
      if channel == null {
        return -1;
      }
      var _, updated := channel.IsUpdated();
      if !updated {
        return -1;
      }
      channel.forwarded := channel.forwarded + [channel.videoFrame];
      var _ := channel.RenderOffFrame();
      r := 0;
    }
  }

  // ---------------------------------------------------------------------
  // The mailbox, step by step

  /** What happens to a channel: the engine delivers a frame, or the screen thread updates. */
  datatype Step = Deliver(frame: Frame) | Update

  /** The slot and the frames forwarded so far. */
  datatype Mailbox = Mailbox(held: Frame, full: bool, forwarded: seq<Frame>)

  /** One step of the mailbox, as `DeliverFrame` and `UpdateRenderSurface` do it. */
  function Apply(m: Mailbox, s: Step): (r: Mailbox)
    ensures m.forwarded <= r.forwarded && |r.forwarded| <= |m.forwarded| + 1
    ensures s.Deliver? && m.full ==> r == m
    ensures s.Deliver? && !m.full ==> r.full && r.held == s.frame && r.forwarded == m.forwarded
    ensures s.Update? ==> !r.full && (m.full <==> r.forwarded == m.forwarded + [m.held])
  {
    match s
    case Deliver(f) => if m.full then m else m.(held := f, full := true)
    case Update => if m.full then m.(full := false, forwarded := m.forwarded + [m.held]) else m
  }

  function Run(m: Mailbox, steps: seq<Step>): (r: Mailbox)
    ensures |r.forwarded| <= |m.forwarded| + |steps|
    decreases |steps|
  {
    if steps == [] then m else Run(Apply(m, steps[0]), steps[1..])
  }

  /** The delivered frames whose step's `keep` flag is set. */
  function KeptDelivered(steps: seq<Step>, keep: seq<bool>): (r: seq<Frame>)
    requires |keep| == |steps|
    ensures |r| <= |steps|
    ensures forall f :: f in r ==> Deliver(f) in steps
  {
    if steps == [] then []
    else (if steps[0].Deliver? && keep[0] then [steps[0].frame] else []) + KeptDelivered(steps[1..], keep[1..])
  }

  /** A run only appends to the forwarded frames. */
  lemma {:induction false} RunKeepsForwarded(m: Mailbox, steps: seq<Step>)
    ensures |Run(m, steps).forwarded| >= |m.forwarded|
    ensures Run(m, steps).forwarded[..|m.forwarded|] == m.forwarded
    decreases |steps|
  {
    if steps != [] {
      var m1 := Apply(m, steps[0]);
      RunKeepsForwarded(m1, steps[1..]);
      assert m1.forwarded[..|m.forwarded|] == m.forwarded;
    }
  }

  /** The frames a mailbox has yet to account for: those forwarded since `m`, then the one held. */
  function Outstanding(m: Mailbox, r: Mailbox): (s: seq<Frame>)
    requires |r.forwarded| >= |m.forwarded|
  {
    r.forwarded[|m.forwarded|..] + (if r.full then [r.held] else [])
  }

  /** `keep` selects, from the frames delivered by `steps`, what the run forwarded or holds. */
  ghost predicate Explains(m: Mailbox, steps: seq<Step>, keep: seq<bool>)
  {
    && |keep| == |steps|
    && |Run(m, steps).forwarded| >= |m.forwarded|
    && Outstanding(m, Run(m, steps)) == (if m.full then [m.held] else []) + KeptDelivered(steps, keep)
  }

  /**
   * The mailbox never invents, reorders or repeats a frame: the frames
   * forwarded during a run, followed by the one still held, are the frame
   * held at the start followed by some of the delivered frames, in delivery
   * order.
   */
  lemma {:induction false} MailboxForwardsDeliveredFrames(m: Mailbox, steps: seq<Step>)
    ensures exists keep :: Explains(m, steps, keep)
    decreases |steps|
  {
    if steps == [] {
      var keep: seq<bool> := [];
      assert m.forwarded[|m.forwarded|..] == [];
      assert Explains(m, steps, keep);
    } else {
      var m1 := Apply(m, steps[0]);
      MailboxForwardsDeliveredFrames(m1, steps[1..]);
      var keep1 :| Explains(m1, steps[1..], keep1);
      ExplainsStep(m, steps, keep1);
    }
  }

  /** One step in front of an explained run is explained by one more flag. */
  lemma ExplainsStep(m: Mailbox, steps: seq<Step>, keep1: seq<bool>)
    requires steps != [] && Explains(Apply(m, steps[0]), steps[1..], keep1)
    ensures Explains(m, steps, [steps[0].Deliver? && !m.full] + keep1)
  {
    var m1 := Apply(m, steps[0]);
    var r := Run(m1, steps[1..]);
    assert Run(m, steps) == r;
    var keep := [steps[0].Deliver? && !m.full] + keep1;
    assert keep[1..] == keep1;
    if steps[0].Update? && m.full {
      RunKeepsForwarded(m1, steps[1..]);
      assert m1.forwarded == m.forwarded + [m.held];
      assert r.forwarded[|m.forwarded|..] == [m.held] + r.forwarded[|m1.forwarded|..];
    }
  }
}
