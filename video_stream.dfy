/** The capture worker of video_stream.py: the VideoStream object that owns the
    worker thread handle and its quit flag, and the worker's decode loop, which
    retries on EAGAIN, stops on any other error, drops video frames without a
    presentation timestamp and rebases the others onto the first one.

    The decoder is an abstract, finite sequence of read outcomes. The quit flag,
    which another thread sets, is abstracted by `quitTime`: the worker's
    observations of the flag are numbered (the check at the loop head before
    read r is observation 2r, the check at display time after read r is
    observation 2r + 1) and the flag is seen set exactly from observation
    `quitTime` on. Since the flag is never cleared during a run, this covers
    every sequence of observations the worker can make. */
module VideoStreaming {

  datatype Option<T> = None | Some(value: T)

  datatype Kind = Audio | Video

  /** A decoded frame: its kind and its presentation timestamp, if any. */
  datatype Frame = Frame(kind: Kind, pts: Option<int>)

  /** One call to the decoder: a frame, a "resource temporarily unavailable"
      error, or any other error. */
  datatype Outcome = Decoded(frame: Frame) | EAgain | OtherError

  predicate IsVideo(o: Outcome) {
    o.Decoded? && o.frame.kind == Video
  }

  predicate IsTimedVideo(o: Outcome) {
    IsVideo(o) && o.frame.pts.Some?
  }

  /** The quit flag is still clear at the loop-head check before read `r`. */
  predicate HeadCheckClear(quitTime: nat, r: nat) {
    2 * r < quitTime
  }

  /** The quit flag is still clear at the display-time check after read `r`. */
  predicate DisplayCheckClear(quitTime: nat, r: nat) {
    2 * r + 1 < quitTime
  }

  // ---------------------------------------------------------------------------
  // Specification functions over a prefix of the decoder's outcomes

  /** The timestamps of the video frames that carry one, in decode order. */
  function TimedPts(os: seq<Outcome>): seq<int> {
    if os == [] then []
    else
      var last := os[|os| - 1];
      TimedPts(os[..|os| - 1]) + (if IsTimedVideo(last) then [last.frame.pts.value] else [])
  }

  /** Number of video frames decoded. */
  function VideoCount(os: seq<Outcome>): nat {
    if os == [] then 0
    else VideoCount(os[..|os| - 1]) + (if IsVideo(os[|os| - 1]) then 1 else 0)
  }

  /** Number of video frames decoded without a timestamp. */
  function UntimedCount(os: seq<Outcome>): nat {
    if os == [] then 0
    else
      var last := os[|os| - 1];
      UntimedCount(os[..|os| - 1]) + (if IsVideo(last) && last.frame.pts.None? then 1 else 0)
  }

  /** Number of EAGAIN results. */
  function RetryCount(os: seq<Outcome>): nat {
    if os == [] then 0
    else RetryCount(os[..|os| - 1]) + (if os[|os| - 1].EAgain? then 1 else 0)
  }

  /** The baseline: the timestamp of the first video frame that has one. */
  function FirstPts(os: seq<Outcome>): Option<int> {
    if os == [] then None
    else if IsTimedVideo(os[0]) then os[0].frame.pts
    else FirstPts(os[1..])
  }

  /** The frames the worker forwards, as a closed form: every video frame that
      has a timestamp, rebased onto the first such timestamp. */
  function Forwarded(os: seq<Outcome>): seq<Frame> {
    var ts := TimedPts(os);
    seq(|ts|, k requires 0 <= k < |ts| => Frame(Video, Some(ts[k] - ts[0])))
  }

  /** After `n` calls, the last frame read was rebased but not handed to the
      preview, because the flag was found set at display time. */
  predicate Suppressed(os: seq<Outcome>, n: nat, quitTime: nat) {
    0 < n <= |os| && IsTimedVideo(os[n - 1]) && !DisplayCheckClear(quitTime, n - 1)
  }

  /** What the preview has been shown after `n` calls. */
  function Displayed(os: seq<Outcome>, n: nat, quitTime: nat): seq<Frame>
    requires n <= |os|
  {
    var fw := Forwarded(os[..n]);
    if Suppressed(os, n, quitTime) && fw != [] then fw[..|fw| - 1] else fw
  }

  // ---------------------------------------------------------------------------
  // Lemmas about the specification

  lemma {:induction false} TimedPtsSnoc(os: seq<Outcome>, o: Outcome)
    ensures TimedPts(os + [o]) == TimedPts(os) + (if IsTimedVideo(o) then [o.frame.pts.value] else [])
  {
    assert (os + [o])[..|os|] == os;
  }

  /** Appending an outcome to the prefix read so far moves the baseline only if
      none was set and the outcome is a timed video frame. */
  lemma {:induction false} FirstPtsSnoc(os: seq<Outcome>, o: Outcome)
    ensures FirstPts(os + [o]) ==
      if FirstPts(os).Some? then FirstPts(os)
      else if IsTimedVideo(o) then o.frame.pts
      else None
  {
    if os == [] {
      assert (os + [o])[1..] == [];
    } else {
      assert (os + [o])[0] == os[0];
      assert (os + [o])[1..] == os[1..] + [o];
      FirstPtsSnoc(os[1..], o);
    }
  }

  /** The front-to-back definition of the baseline agrees with the first
      element of the timed subsequence. */
  lemma {:induction false} FirstPtsIsHead(os: seq<Outcome>)
    ensures FirstPts(os).None? <==> TimedPts(os) == []
    ensures FirstPts(os).Some? ==> FirstPts(os).value == TimedPts(os)[0]
    decreases |os|
  {
    if os != [] {
      var init := os[..|os| - 1];
      var last := os[|os| - 1];
      assert os == init + [last];
      FirstPtsIsHead(init);
      FirstPtsSnoc(init, last);
    }
  }

  /** The baseline, once taken, never changes however much more is read. */
  lemma {:induction false} BaselineStable(os: seq<Outcome>, more: seq<Outcome>)
    requires FirstPts(os).Some?
    ensures FirstPts(os + more) == FirstPts(os)
  {
    if IsTimedVideo(os[0]) {
      assert (os + more)[0] == os[0];
    } else {
      assert (os + more)[0] == os[0];
      assert (os + more)[1..] == os[1..] + more;
      BaselineStable(os[1..], more);
    }
  }

  /** Every forwarded frame is a video frame whose timestamp is its decoded
      timestamp minus the baseline; the first one has timestamp 0. */
  lemma ForwardedRebased(os: seq<Outcome>)
    ensures |Forwarded(os)| == |TimedPts(os)|
    ensures Forwarded(os) != [] ==> FirstPts(os).Some? && Forwarded(os)[0] == Frame(Video, Some(0))
    ensures forall k :: 0 <= k < |Forwarded(os)| ==>
      Forwarded(os)[k].kind == Video &&
      Forwarded(os)[k].pts == Some(TimedPts(os)[k] - FirstPts(os).value)
  {
    FirstPtsIsHead(os);
  }

  /** Forwarded plus skipped equals the number of video frames decoded. */
  lemma {:induction false} ForwardedPlusSkipped(os: seq<Outcome>)
    ensures |Forwarded(os)| + UntimedCount(os) == VideoCount(os)
  {
    if os != [] {
      ForwardedPlusSkipped(os[..|os| - 1]);
    }
  }

  /** When the source's timestamps never decrease, the forwarded timeline is
      non-negative and never decreases either. */
  lemma ForwardedMonotone(os: seq<Outcome>)
    requires forall i, j :: 0 <= i <= j < |TimedPts(os)| ==> TimedPts(os)[i] <= TimedPts(os)[j]
    ensures forall k :: 0 <= k < |Forwarded(os)| ==>
      Forwarded(os)[k].pts.Some? && Forwarded(os)[k].pts.value >= 0
    ensures forall i, j :: 0 <= i <= j < |Forwarded(os)| ==>
      Forwarded(os)[i].pts.value <= Forwarded(os)[j].pts.value
  {
  }

  /** Appending one outcome extends the forwarded frames by at most that
      outcome's rebased frame. */
  lemma ForwardedSnoc(os: seq<Outcome>, o: Outcome)
    requires FirstPts(os + [o]).Some?
    ensures Forwarded(os + [o]) ==
      Forwarded(os) + (if IsTimedVideo(o) then [Frame(Video, Some(o.frame.pts.value - FirstPts(os + [o]).value))] else [])
  {
    TimedPtsSnoc(os, o);
    FirstPtsIsHead(os + [o]);
    FirstPtsIsHead(os);
    FirstPtsSnoc(os, o);
  }

  /** The preview is shown the forwarded frames, except the last one exactly
      when the flag was found set at display time; so it only ever receives
      rebased video frames. */
  lemma DisplayedPrefixOfForwarded(os: seq<Outcome>, n: nat, quitTime: nat)
    requires n <= |os|
    ensures var fw := Forwarded(os[..n]);
      && Displayed(os, n, quitTime) <= fw
      && |Displayed(os, n, quitTime)| == (if Suppressed(os, n, quitTime) then |fw| - 1 else |fw|)
    ensures forall k :: 0 <= k < |Displayed(os, n, quitTime)| ==>
      Displayed(os, n, quitTime)[k].kind == Video && Displayed(os, n, quitTime)[k].pts.Some?
  {
    if Suppressed(os, n, quitTime) {
      assert os[..n] == os[..n - 1] + [os[n - 1]];
      TimedPtsSnoc(os[..n - 1], os[n - 1]);
    }
  }

  /** One more read, when the previous one was not suppressed: the preview's
      frames grow by the new frame, rebased, exactly when it is a timed video
      frame and the flag is still clear at display time. */
  lemma DisplayedStep(os: seq<Outcome>, n: nat, quitTime: nat)
    requires n < |os|
    requires !Suppressed(os, n, quitTime)
    ensures FirstPts(os[..n + 1]).Some? <==> FirstPts(os[..n]).Some? || IsTimedVideo(os[n])
    ensures Displayed(os, n + 1, quitTime) ==
      Displayed(os, n, quitTime) +
      (if IsTimedVideo(os[n]) && DisplayCheckClear(quitTime, n)
       then [Frame(Video, Some(os[n].frame.pts.value - FirstPts(os[..n + 1]).value))]
       else [])
  {
    var before, o := os[..n], os[n];
    assert os[..n + 1] == before + [o];
    FirstPtsSnoc(before, o);
    if FirstPts(before + [o]).Some? {
      ForwardedSnoc(before, o);
    } else {
      FirstPtsIsHead(before + [o]);
      FirstPtsIsHead(before);
    }
  }

  // ---------------------------------------------------------------------------
  // The capture object

  /** The arguments the worker thread is started with. */
  datatype WorkerArgs = WorkerArgs(name: int, width: int, height: int, offsetX: int, offsetY: int)

  /** The private thread attribute: never assigned (before the first start),
      cleared to None by stop, or holding a started thread. */
  datatype ThreadSlot = Unassigned | Cleared | Running(args: WorkerArgs)

  class VideoStream {
    const videoWidth: int
    const videoHeight: int
    const offsetX: int
    const offsetY: int
    const serverUrl: string

    /** The state of the current quit event. The worker loop does not read
        this field: its parameter `quitTime` is the first observation at which
        the worker sees the write that `Stop` makes here. */
    var threadQuit: bool
    var thread: ThreadSlot

    constructor (videoWidth: int, videoHeight: int, offsetX: int, offsetY: int, serverUrl: string)
      ensures this.videoWidth == videoWidth && this.videoHeight == videoHeight
      ensures this.offsetX == offsetX && this.offsetY == offsetY
      ensures this.serverUrl == serverUrl
      ensures thread == Unassigned && !threadQuit
    {
      this.videoWidth := videoWidth;
      this.videoHeight := videoHeight;
      this.offsetX := offsetX;
      this.offsetY := offsetY;
      this.serverUrl := serverUrl;
      threadQuit := false;
      thread := Unassigned;
    }

    /** Installs a fresh, cleared quit event and starts a worker on this
        object's region. */
    method Start()
      modifies this
      ensures !threadQuit
      ensures thread == Running(WorkerArgs(1, videoWidth, videoHeight, offsetX, offsetY))
    {
      threadQuit := false;
      thread := Running(WorkerArgs(1, videoWidth, videoHeight, offsetX, offsetY));
    }

    /** Sets the quit flag, waits for the worker loop to finish and clears the
        handle. With no thread it does nothing, so a second stop is a no-op;
        before any start the attribute does not exist and the call raises. */
    method Stop() returns (raised: bool)
      modifies this
      ensures raised <==> old(thread).Unassigned?
      ensures old(thread).Running? ==> threadQuit && thread == Cleared
      ensures !old(thread).Running? ==> unchanged(this)
    {
      match thread
      case Unassigned =>
        raised := true;
      case Cleared =>
        raised := false;
      case Running(_) =>
        threadQuit := true;
        thread := Cleared;
        raised := false;
    }

    /** The worker's decode loop, run on `decoded` while the flag is seen set
        from observation `quitTime` on. Reports how many decoder calls were
        made, how many EAGAIN retries and untimed video frames were skipped,
        the baseline, the frames handed to the preview, and how many times the
        container was closed. */
    method GetAndDisplayFrame(decoded: seq<Outcome>, quitTime: nat)
      returns (calls: nat, retries: nat, skipped: nat, firstPts: Option<int>,
               shown: seq<Frame>, closes: nat)
      ensures calls <= |decoded|
      // a read happens only while the flag is clear
      ensures forall r :: 0 <= r < calls ==> HeadCheckClear(quitTime, r)
      // no error other than EAGAIN is read before the last read
      ensures forall r :: 0 <= r < calls - 1 ==> !decoded[r].OtherError?
      // the loop ends only on exhaustion, the flag, or an error that is not EAGAIN
      ensures calls == |decoded| || !HeadCheckClear(quitTime, calls)
           || (calls > 0 && decoded[calls - 1].OtherError?)
      ensures retries == RetryCount(decoded[..calls])
      ensures skipped == UntimedCount(decoded[..calls])
      ensures firstPts == FirstPts(decoded[..calls])
      ensures shown == Displayed(decoded, calls, quitTime)
      ensures closes == 1
    {
      calls, retries, skipped, firstPts, shown, closes := 0, 0, 0, None, [], 0;
      while HeadCheckClear(quitTime, calls)
        invariant calls <= |decoded|
        invariant forall r :: 0 <= r < calls ==> HeadCheckClear(quitTime, r)
        invariant forall r :: 0 <= r < calls ==> !decoded[r].OtherError?
        invariant retries == RetryCount(decoded[..calls])
        invariant skipped == UntimedCount(decoded[..calls])
        invariant firstPts == FirstPts(decoded[..calls])
        invariant shown == Displayed(decoded, calls, quitTime)
        invariant Suppressed(decoded, calls, quitTime) ==> !HeadCheckClear(quitTime, calls)
        decreases |decoded| - calls
      {
        if calls == |decoded| {
          // the decoder is exhausted: StopIteration is not an FFmpeg error
          break;
        }
        var outcome := decoded[calls];
        ghost var before := decoded[..calls];
        assert decoded[..calls + 1] == before + [outcome];
        FirstPtsSnoc(before, outcome);
        DisplayedStep(decoded, calls, quitTime);
        calls := calls + 1;
        match outcome
        case EAgain =>
          retries := retries + 1;
          continue;
        case OtherError =>
          break;
        case Decoded(frame) =>
          if frame.kind == Video {
            if frame.pts.None? {
              skipped := skipped + 1;
              continue;
            }
            if firstPts.None? {
              firstPts := frame.pts;
            }
            var rebased := Frame(Video, Some(frame.pts.value - firstPts.value));
            if DisplayCheckClear(quitTime, calls - 1) {
              shown := shown + [rebased];
            }
          }
      }
      closes := closes + 1;
    }
  }
}
