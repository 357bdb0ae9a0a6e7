/** The camera capture component (src/components/CameraCapture.tsx): a media
    stream that is opened, stopped and reopened, and a captured still. The
    browser's camera grant and the canvas encoding are parameters: a start
    attempt yields a stream or fails, a capture yields the encoded frame or
    nothing (no video, canvas or drawing context). */
module CameraCaptureComponent {
  import opened Types

  /** `canvas.toDataURL('image/jpeg', 0.8)` prefixes the encoded frame with
      this. */
  const JpegDataUrlPrefix: string := "data:image/jpeg;base64,"

  /** A media stream, as the identities of its tracks. */
  datatype MediaStream = MediaStream(tracks: seq<nat>)

  function JpegDataUrl(payload: string): (url: string)
    ensures |url| >= 5 && url[..5] == "data:"
    ensures |url| == |JpegDataUrlPrefix| + |payload| && url[|JpegDataUrlPrefix|..] == payload
  {
    JpegDataUrlPrefix + payload
  }

  class CameraCapture {
    var stream: Option<MediaStream>
    var capturedImage: Option<string>

    /** A still and a live stream never coexist: capturing stops the camera,
        and only a retake, which drops the still, starts it again. */
    predicate Valid()
      reads this
    {
      capturedImage.Some? ==> stream.None?
    }

    /** The state before the mount-time start attempt. */
    constructor ()
      ensures Valid() && stream.None? && capturedImage.None?
    {
      stream, capturedImage := None, None;
    }

    /** startCamera: the granted stream, or, when access fails, the stream
        as it was. It runs at mount and on retake, never over a still. */
    method StartCamera(granted: Option<MediaStream>)
      requires capturedImage.None?
      modifies this
      ensures Valid()
      ensures stream == if granted.Some? then granted else old(stream)
      ensures capturedImage == old(capturedImage)
    {
      if granted.Some? {
        stream := granted;
      }
    }

    /** stopCamera: without a stream nothing happens; otherwise every track of
        the stream is stopped (returned in `stopped`) and the stream cleared. */
    method StopCamera() returns (stopped: seq<nat>)
      modifies this
      ensures Valid()
      ensures stopped == if old(stream).Some? then old(stream).value.tracks else []
      ensures stream.None? && capturedImage == old(capturedImage)
    {
      stopped := [];
      if stream.Some? {
        var tracks := stream.value.tracks;
        var i := 0;
        while i < |tracks|
          invariant 0 <= i <= |tracks|
          invariant stopped == tracks[..i]
        {
          stopped := stopped + [tracks[i]];
          i := i + 1;
        }
        assert tracks[..|tracks|] == tracks;
        stream := None;
      }
    }

    /** capturePhoto: with a drawn frame the still is recorded as a JPEG data
        URL and the camera stops; without video, canvas or context nothing
        happens. The button exists only while no still is shown. */
    method CapturePhoto(frame: Option<string>) returns (stopped: seq<nat>)
      requires Valid()
      modifies this
      ensures Valid()
      ensures old(capturedImage).None? && frame.Some? ==>
                capturedImage == Some(JpegDataUrl(frame.value)) && stream.None? &&
                stopped == (if old(stream).Some? then old(stream).value.tracks else [])
      ensures old(capturedImage).Some? || frame.None? ==>
                capturedImage == old(capturedImage) && stream == old(stream) && stopped == []
    {
      if capturedImage.Some? || frame.None? {
        return [];
      }
      capturedImage := Some(JpegDataUrl(frame.value));
      stopped := StopCamera();
    }

    /** confirmCapture: hands the still to `onCapture` (the result) only when
        there is one, then stops the camera. */
    method ConfirmCapture() returns (delivered: Option<string>, stopped: seq<nat>)
      requires Valid()
      modifies this
      ensures Valid()
      ensures delivered == old(capturedImage)
      ensures delivered.Some? ==> stream.None? && stopped == []
      ensures delivered.None? ==> stream == old(stream) && stopped == []
      ensures capturedImage == old(capturedImage)
    {
      delivered := capturedImage;
      stopped := [];
      if capturedImage.Some? {
        stopped := StopCamera();
      }
    }

    /** retake: the still is dropped and the camera started again. */
    method Retake(granted: Option<MediaStream>)
      requires Valid()
      modifies this
      ensures Valid()
      ensures capturedImage.None?
      ensures stream == if granted.Some? then granted else old(stream)
    {
      capturedImage := None;
      StartCamera(granted);
    }

    /** handleCancel: the camera is stopped before `onCancel` is called. */
    method HandleCancel() returns (stopped: seq<nat>, cancelled: bool)
      requires Valid()
      modifies this
      ensures Valid()
      ensures stopped == if old(stream).Some? then old(stream).value.tracks else []
      ensures stream.None? && cancelled && capturedImage == old(capturedImage)
    {
      stopped := StopCamera();
      cancelled := true;
    }
  }
}
