# De Kandar screen capture: verified model of the capture loop and region selection

De Kandar is a small desktop tool. The user drags a rectangle over the screen.
The tool then captures that region as video on a worker thread and shows the
frames in its window. This project models the two pieces of sequential logic
in it and proves properties of them in Dafny:

- `video_stream.dfy` (module `VideoStreaming`) covers video_stream.py.
  - The `VideoStream` object holds a worker thread handle and a quit flag. `Start` installs a cleared flag and a running worker. `Stop` sets the flag, joins and clears the handle.
  - The worker's decode loop, `GetAndDisplayFrame`, runs while the quit flag is clear.
  - An EAGAIN error means retry.
  - Any other error ends the loop. So does running out of decoder output.
  - Video frames without a presentation timestamp are dropped.
  - The first timestamped video frame sets the baseline. Every later frame is rebased onto it.
  - A frame reaches the preview only if the flag is still clear at display time.
  - The container is closed once, after the loop.
- `main_window.dfy` (module `MainWindow`) covers main.py.
  - The region arithmetic: the offset is the componentwise minimum, and the size is the maximum minus the offset.
  - Regions with no area are rejected.
  - `Application` holds a single current stream. The release handler stops it before it builds and starts a replacement. The Stop button and Exit also stop it.

The decoder is an abstract finite sequence of outcomes: a frame of some kind with an optional timestamp, `EAgain`, or `OtherError`. The other thread sets the quit flag. This is abstracted by a number `quitTime`. The worker's checks of the flag are numbered: the loop-head check before read r is check 2r, and the display-time check after read r is check 2r + 1. The flag is seen set from check `quitTime` on. The flag is never cleared during a run, so every sequence of observations the worker can make is one of these.

The loop is specified against closed-form functions of the prefix it has read:
- `TimedPts`: the timestamps of timed video frames.
- `FirstPts`: the baseline, defined front to back.
- `Forwarded`: every timed video frame, rebased onto the first timestamp.
- `Displayed`: the same, minus a last frame that was suppressed at display time.

Lemmas connect these functions to each other.

## Model

| member | source | states |
|---|---|---|
| `VideoStreaming.VideoStream.GetAndDisplayFrame` | video_stream.py:61-113 | Decoder calls happen only while the loop-head check sees the flag clear. Only the last call can be a non-EAGAIN error. The loop stops only on exhaustion, the flag or such an error, so EAGAIN never ends it. Retries, skipped untimed frames, the baseline and the frames shown all equal the specification functions on the prefix read. The container is closed exactly once. |
| `VideoStreaming.VideoStream.Start` | video_stream.py:47-53 | Installs a cleared quit flag and a running worker. The worker gets the arguments `(1, width, height, offset_x, offset_y)` of this stream. |
| `VideoStreaming.VideoStream.Stop` | video_stream.py:55-59 | For a running worker: sets the flag, joins and clears the handle. On a cleared handle it changes nothing, so a second stop is a no-op. It raises exactly when start was never called, because the attribute does not exist. |
| `VideoStreaming.VideoStream.constructor` | video_stream.py:31-45 | Stores the region and server URL. No thread is assigned yet. |
| `VideoStreaming.FirstPtsSnoc` | video_stream.py:100-101 | Reading one more outcome sets the baseline only if none was set and the outcome is a timed video frame. Otherwise the baseline is unchanged. |
| `VideoStreaming.FirstPtsIsHead` | video_stream.py:100-101 | The baseline is unset exactly when no timed video frame was read. Otherwise it is the first timed frame's timestamp. |
| `VideoStreaming.BaselineStable` | video_stream.py:100-101 | Once the baseline is set, reading any further outcomes leaves it unchanged. |
| `VideoStreaming.ForwardedRebased` | video_stream.py:99-102 | Every forwarded frame is a video frame. Its timestamp is its decoded timestamp minus the baseline. The first forwarded frame has timestamp 0. |
| `VideoStreaming.ForwardedPlusSkipped` | video_stream.py:92-97 | Forwarded frames plus skipped untimed frames equal the video frames decoded. |
| `VideoStreaming.ForwardedMonotone` | video_stream.py:99-102 | If the source's timestamps never decrease, every forwarded timestamp is non-negative and they never decrease. |
| `VideoStreaming.TimedPtsSnoc` | video_stream.py:92-102 | One more outcome extends the timed timestamps by that outcome's timestamp exactly when it is a timed video frame. |
| `VideoStreaming.ForwardedSnoc` | video_stream.py:99-102 | One more outcome extends the forwarded frames by its rebased frame exactly when it is a timed video frame. |
| `VideoStreaming.DisplayedPrefixOfForwarded` | video_stream.py:104-109 | The preview receives a prefix of the forwarded frames. It lacks only the last one, and only when the flag was set at display time. So it receives only timestamped video frames. |
| `VideoStreaming.DisplayedStep` | video_stream.py:92-109 | After a read whose frame was not suppressed, the next read adds that frame, rebased, to the preview. This happens exactly when it is a timed video frame and the flag is clear at display time. The baseline becomes set exactly when it was set already or this frame is timed video. |
| `MainWindow.SelectRegion` | main.py:137-140 | Each offset is at most both drag coordinates and equal to one of them, so it is the minimum. Width and height are the absolute differences of the coordinates, so they are never negative. |
| `MainWindow.SelectRegionSymmetric` | main.py:137-140 | Swapping the press and release points gives the same region. |
| `MainWindow.SelectRegionCoversDrag` | main.py:137-140 | Both drag points lie within the region. |
| `MainWindow.AcceptedIffDistinct` | main.py:146-148 | The width/height check accepts a selection exactly when the points differ in both coordinates. |
| `MainWindow.Application.constructor` | main.py:15-25 | No stream yet. The size defaults to 640x480. |
| `MainWindow.Application.AtMostOneLive` | main.py:154-164 | Under the application invariant, the only stream that can be running is the current one. |
| `MainWindow.Application.StopStream` | main.py:129-131 | With no stream it does nothing. Otherwise it delegates to the stream's stop, which never raises here because the current stream was started. A running stream gets its quit flag set and its handle cleared; an already-stopped one is unchanged. Afterwards no stream is running. |
| `MainWindow.Application.OnButtonRelease` | main.py:133-166 | The region fields always become the selected region. On a rejected selection, the stream slot and the old stream are unchanged. On an accepted one, the old stream is stopped (a running one gets its quit flag set) and a fresh stream on the region is started with a clear quit flag. That stream is then the only running one. |
| `MainWindow.Application.Exit` | main.py:190-196 | Stops the current stream as the Stop button does: a running one gets its quit flag set and its handle cleared, an already-stopped one is unchanged, and no stream is left running. |

## Left out

- Tk widgets, the full-screen overlay and the rubber-band rectangle (`on_button_press`, `on_mouse_move`) are UI side effects. The press point is a parameter of `OnButtonRelease`.
- Canvas coordinates are floats truncated by `int()`. The model takes integer coordinates.
- `av.open` and its options, `frame.to_image()` and `ImageTk.PhotoImage` are foreign library calls. Decoding is the abstract outcome sequence, and display is the `shown` sequence.
- Audio frames are forwarded nowhere, because the source ignores non-video frames.
- Real threads and interleavings are not modelled. The quit flag set by another thread is the `quitTime` abstraction, and `join` is the handle becoming `Cleared`. Sleep backoff and logging are not modelled.
- Re-entrancy is not modelled: the worker reads the flag attribute anew on each iteration, and a second `start` can swap it.
- The unused module-level asyncio loop is not modelled.
- `VideoStreaming.VideoStream.GetAndDisplayFrame` assumes that `av.open`, `frame.to_image()`, `ImageTk.PhotoImage` and `video_player.config` never raise. In the source these calls lie outside the `try` of video_stream.py:82-90, so such an exception ends the worker without `container.close()`. The promise of one close holds only when the loop itself exits.
- `VideoStreaming.VideoStream.constructor` takes `serverUrl` as a required parameter; the default `""` of video_stream.py:38 is not modelled. The one caller always passes a URL.
- The hard-coded server URL and secret are not modelled. The URL is a parameter of `OnButtonRelease`.
- The construction call in main.py:155-163 passes `api_secret`, which the `VideoStream` constructor does not declare. As written it would raise a TypeError. The model calls the constructor with the parameters the constructor declares.
- `Application.offset_x`/`offset_y` do not exist in main.py before the first release. The model starts them at 0. The unused `Application.__thread` attribute and `video_player` are not modelled.
- `MainWindow.Application.Exit`: destroying the window and `sys.exit()` are not modelled.
