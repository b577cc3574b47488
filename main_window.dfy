/** The application window of main.py, reduced to what it computes and what it
    owns: the capture region derived from a mouse drag, the check that rejects
    an empty region, and the single current VideoStream that a new selection
    replaces and that the Stop button and Exit stop. */
module MainWindow {
  import opened VideoStreaming

  /** The capture rectangle: top-left corner and size, in screen pixels. */
  datatype Region = Region(offsetX: int, offsetY: int, width: int, height: int)

  function Min(a: int, b: int): int {
    if a <= b then a else b
  }

  function Max(a: int, b: int): int {
    if a <= b then b else a
  }

  function Abs(a: int): nat {
    if a < 0 then -a else a
  }

  /** The region spanned by a drag from the press point to the release point:
      the offset is the componentwise minimum and the size is the maximum minus
      the offset, which is the distance between the two coordinates. */
  function SelectRegion(startX: int, startY: int, endX: int, endY: int): (r: Region)
    ensures r.offsetX <= startX && r.offsetX <= endX && (r.offsetX == startX || r.offsetX == endX)
    ensures r.offsetY <= startY && r.offsetY <= endY && (r.offsetY == startY || r.offsetY == endY)
    ensures r.width == Abs(startX - endX) && r.height == Abs(startY - endY)
  {
    var offsetX := Min(startX, endX);
    var offsetY := Min(startY, endY);
    Region(offsetX, offsetY, Max(startX, endX) - offsetX, Max(startY, endY) - offsetY)
  }

  /** The size check the release handler applies before starting a stream. */
  predicate Accepted(r: Region) {
    !(r.width <= 0 || r.height <= 0)
  }

  /** The region does not depend on the direction of the drag. */
  lemma SelectRegionSymmetric(startX: int, startY: int, endX: int, endY: int)
    ensures SelectRegion(startX, startY, endX, endY) == SelectRegion(endX, endY, startX, startY)
  {
  }

  /** Both drag points lie inside (on the border of) the selected region. */
  lemma SelectRegionCoversDrag(startX: int, startY: int, endX: int, endY: int)
    ensures var r := SelectRegion(startX, startY, endX, endY);
      && r.offsetX <= startX <= r.offsetX + r.width && r.offsetX <= endX <= r.offsetX + r.width
      && r.offsetY <= startY <= r.offsetY + r.height && r.offsetY <= endY <= r.offsetY + r.height
  {
  }

  /** A selection is accepted exactly when the two points differ in both
      coordinates. */
  lemma AcceptedIffDistinct(startX: int, startY: int, endX: int, endY: int)
    ensures Accepted(SelectRegion(startX, startY, endX, endY)) <==> startX != endX && startY != endY
  {
  }

  /** The worker arguments a stream started on region `r` runs with. */
  function ArgsFor(r: Region): WorkerArgs {
    WorkerArgs(1, r.width, r.height, r.offsetX, r.offsetY)
  }

  class Application {
    var offsetX: int
    var offsetY: int
    var videoWidth: int
    var videoHeight: int
    var videoStream: VideoStream?

    /** Every stream this application has created. */
    ghost var streams: set<VideoStream>

    /** The current stream, if any, was started; no other stream is running. */
    ghost predicate Valid()
      reads this, streams
    {
      && (videoStream != null ==> videoStream in streams && !videoStream.thread.Unassigned?)
      && forall s :: s in streams && s != videoStream ==> !s.thread.Running?
    }

    /** The streams whose worker is running. */
    ghost function Live(): set<VideoStream>
      reads this, streams
    {
      set s | s in streams && s.thread.Running?
    }

    /** At most one stream is running: only the current one can be. This
        follows from `Valid()` alone; what carries the property is that the
        constructor establishes `Valid()` and every method here preserves it. */
    lemma AtMostOneLive()
      requires Valid()
      ensures Live() <= (if videoStream == null then {} else {videoStream})
    {
    }

    constructor ()
      ensures Valid() && videoStream == null && streams == {} && Live() == {}
      ensures videoWidth == 640 && videoHeight == 480
    {
      offsetX, offsetY := 0, 0;
      videoWidth, videoHeight := 640, 480;
      videoStream := null;
      streams := {};
    }

    /** The Stop button: stops the current stream when there is one. */
    method StopStream()
      requires Valid()
      modifies videoStream
      ensures Valid() && Live() == {}
      ensures videoStream != null ==> videoStream.thread == Cleared
      ensures videoStream != null && old(videoStream.thread).Running? ==> videoStream.threadQuit
      ensures videoStream != null && old(videoStream.thread).Cleared? ==> unchanged(videoStream)
    {
      if videoStream != null {
        var raised := videoStream.Stop();
        assert !raised;
      }
    }

    /** Mouse release at the end of a drag that began at the press point:
        records the region; a region without area is rejected and leaves the
        current stream alone; otherwise the current stream is stopped before a
        new one is built on the region and started. */
    method OnButtonRelease(startX: int, startY: int, endX: int, endY: int, serverUrl: string)
      returns (accepted: bool)
      requires Valid()
      modifies this, videoStream
      ensures Valid()
      ensures Region(offsetX, offsetY, videoWidth, videoHeight) == SelectRegion(startX, startY, endX, endY)
      ensures accepted <==> Accepted(SelectRegion(startX, startY, endX, endY))
      ensures !accepted ==> videoStream == old(videoStream) && streams == old(streams)
      ensures !accepted && old(videoStream) != null ==> unchanged(old(videoStream))
      ensures accepted ==> old(videoStream) != null ==> old(videoStream).thread == Cleared
      ensures accepted && old(videoStream) != null && old(videoStream.thread).Running? ==> old(videoStream).threadQuit
      ensures accepted && old(videoStream) != null && old(videoStream.thread).Cleared? ==>
        old(videoStream).threadQuit == old(videoStream.threadQuit)
      ensures accepted ==> videoStream != null && fresh(videoStream)
      ensures accepted ==> videoStream.thread == Running(ArgsFor(SelectRegion(startX, startY, endX, endY)))
      ensures accepted ==> !videoStream.threadQuit
      ensures accepted ==> videoStream.serverUrl == serverUrl
      ensures accepted ==> streams == old(streams) + {videoStream} && Live() == {videoStream}
    {
      var region := SelectRegion(startX, startY, endX, endY);
      offsetX := region.offsetX;
      offsetY := region.offsetY;
      videoWidth := region.width;
      videoHeight := region.height;

      if videoWidth <= 0 || videoHeight <= 0 {
        return false;
      }

      StopStream();
      assert Live() == {};
      var stream := new VideoStream(videoWidth, videoHeight, offsetX, offsetY, serverUrl);
      videoStream := stream;
      streams := streams + {stream};
      stream.Start();
      accepted := true;
    }

    /** Exit: stops the current stream before the window is destroyed. */
    method Exit()
      requires Valid()
      modifies videoStream
      ensures Valid() && Live() == {}
      ensures videoStream != null ==> videoStream.thread == Cleared
      ensures videoStream != null && old(videoStream.thread).Running? ==> videoStream.threadQuit
      ensures videoStream != null && old(videoStream.thread).Cleared? ==> unchanged(videoStream)
    {
      StopStream();
    }
  }
}
