// SD-card storage and the MJPEG recorder (src/storage.cpp).
//
// The card is a map from path to contents plus a set of directories; an
// Arduino `String` is a sequence of bytes. What the SD library reports
// (mount result, open result, bytes written, remove and mkdir results) is
// an input of each operation.

module Storage {
  import opened Common

  // ---------------------------------------------------------------------
  // Video file format: a sequence of records, each a 4-byte little-endian
  // length followed by that many bytes of JPEG data.
  // ---------------------------------------------------------------------

  /** The length header as the ESP32 (little-endian) stores a `uint32_t`. */
  function Le32(n: u32): (b: seq<byte>)
    ensures |b| == 4
  {
    [n % 0x100, (n / 0x100) % 0x100, (n / 0x1_0000) % 0x100, n / 0x100_0000]
  }

  function DecodeLe32(b: seq<byte>): (n: u32)
    requires |b| == 4
  {
    (b[0] as int) + 0x100 * (b[1] as int) + 0x1_0000 * (b[2] as int) + 0x100_0000 * (b[3] as int)
  }

  lemma Le32RoundTrip(n: u32)
    ensures DecodeLe32(Le32(n)) == n
  {
    var q1 := n / 0x100;
    var q2 := q1 / 0x100;
    DivideTwice(n);
    DivideTwice(q1);
    assert n / 0x100_0000 == q2 / 0x100 by {
      DivideTwice(n / 0x1_0000);
      assert n / 0x100_0000 == (n / 0x1_0000) / 0x100;
    }
  }

  /** Dividing by 0x100 twice divides by 0x1_0000. */
  lemma DivideTwice(x: nat)
    ensures x / 0x1_0000 == (x / 0x100) / 0x100
    ensures x == x % 0x100 + 0x100 * (x / 0x100)
  {
    var q1 := x / 0x100;
    var q2 := q1 / 0x100;
    assert x == (x % 0x100 + 0x100 * (q1 % 0x100)) + 0x1_0000 * q2;
  }

  /** One record of a video file. */
  function Record(frame: seq<byte>): seq<byte>
  {
    Le32(ToU32(|frame|)) + frame
  }

  /** The bytes of a video file holding `frames`, in order. */
  function VideoBytes(frames: seq<seq<byte>>): seq<byte>
  {
    if |frames| == 0 then [] else Record(frames[0]) + VideoBytes(frames[1..])
  }

  /** Splitting a video file back into its frames; None when a record is cut short. */
  function ParseVideo(bytes: seq<byte>): Option<seq<seq<byte>>>
    decreases |bytes|
  {
    if |bytes| == 0 then Some([])
    else if |bytes| < 4 then None
    else
      var n := DecodeLe32(bytes[..4]);
      if |bytes| - 4 < n then None
      else match ParseVideo(bytes[4 + n..])
        case None => None
        case Some(rest) => Some([bytes[4..4 + n]] + rest)
  }

  predicate FramesFit(frames: seq<seq<byte>>)
  {
    forall i :: 0 <= i < |frames| ==> |frames[i]| < 0x1_0000_0000
  }

  /** A reader that follows the length headers gets back exactly the frames written. */
  lemma {:induction false} ParseVideoRoundTrip(frames: seq<seq<byte>>)
    requires FramesFit(frames)
    ensures ParseVideo(VideoBytes(frames)) == Some(frames)
    decreases |frames|
  {
    if |frames| > 0 {
      var f := frames[0];
      var bytes := VideoBytes(frames);
      Le32RoundTrip(|f|);
      assert bytes[..4] == Le32(|f|);
      assert bytes[4..4 + |f|] == f;
      assert bytes[4 + |f|..] == VideoBytes(frames[1..]);
      ParseVideoRoundTrip(frames[1..]);
      assert [f] + frames[1..] == frames;
    }
  }

  /** Appending one record to a video file appends one frame to what it holds. */
  lemma {:induction false} VideoBytesAppend(frames: seq<seq<byte>>, f: seq<byte>)
    ensures VideoBytes(frames + [f]) == VideoBytes(frames) + Record(f)
    decreases |frames|
  {
    if |frames| == 0 {
      assert VideoBytes([f]) == Record(f) + VideoBytes([]);
    } else {
      assert (frames + [f])[1..] == frames[1..] + [f];
      VideoBytesAppend(frames[1..], f);
    }
  }

  /** The directory the recorder creates on first use. */
  const RECORDINGS_DIR: string := "/recordings"

  class SdCard {
    /** sd_mounted */
    var mounted: bool
    /** the files on the card */
    var files: map<string, seq<byte>>
    /** the directories on the card */
    var dirs: set<string>
    /** recording_active (the video file is open exactly while it is set) */
    var recordingActive: bool
    /** frame_count: complete frames written to the current recording */
    var frameCount: nat
    /** path of the open video file */
    var videoPath: string

    constructor (initialFiles: map<string, seq<byte>>, initialDirs: set<string>)
      ensures !mounted && files == initialFiles && dirs == initialDirs
      ensures !recordingActive && frameCount == 0
    {
      mounted := false;
      files := initialFiles;
      dirs := initialDirs;
      recordingActive := false;
      frameCount := 0;
      videoPath := "";
    }

    /** initSDCard: mounted exactly when the card mounts and a card is present. */
    method Init(mountOk: bool, cardPresent: bool) returns (ok: bool)
      modifies this`mounted
      ensures ok == (mountOk && cardPresent) && mounted == ok
    {
      mounted := mountOk && cardPresent;
      ok := mounted;
    }

    /** deinitSDCard */
    method Deinit()
      modifies this`mounted
      ensures !mounted
    {
      mounted := false;
    }

    /** SD.exists: a file or a directory. */
    predicate Exists(path: string)
      reads this
    {
      path in files || path in dirs
    }

    /**
     * What the open video file holds: the file's bytes, or nothing when the
     * path has been removed from under it.
     */
    function Contents(path: string): seq<byte>
      reads this
    {
      if path in files then files[path] else []
    }

    /** fileExists: false whenever the card is not mounted. */
    predicate FileExists(path: string)
      reads this
      ensures FileExists(path) <==> mounted && Exists(path)
    {
      mounted && Exists(path)
    }

    /** readFile: the whole file, byte by byte; "" when unmounted or the file cannot be opened. */
    method ReadFile(path: string, openOk: bool) returns (content: seq<byte>)
      ensures mounted && openOk && path in files ==> content == files[path]
      ensures !mounted || !openOk || path !in files ==> content == []
    {
      if !mounted || !openOk || path !in files {
        return [];
      }
      var data := files[path];
      content := [];
      var pos := 0;
      while pos < |data|
        invariant 0 <= pos <= |data|
        invariant content == data[..pos]
      {
        content := content + [data[pos]];
        pos := pos + 1;
      }
      assert data[..pos] == data;
    }

    /**
     * writeFile: FILE_WRITE replaces the file with what was written; success
     * exactly when every byte was written.
     */
    method WriteFile(path: string, content: seq<byte>, openOk: bool, written: nat) returns (ok: bool)
      requires written <= |content|
      modifies this`files
      ensures ok <==> mounted && openOk && written == |content|
      ensures mounted && openOk ==> files == old(files)[path := content[..written]]
      ensures !mounted || !openOk ==> files == old(files)
      ensures FileExists(path) <==> old(FileExists(path)) || (mounted && openOk)
    {
      if !mounted || !openOk {
        return false;
      }
      files := files[path := content[..written]];
      ok := written == |content|;
    }

    /** deleteFile: deleting an absent path succeeds; a present one is removed if the card allows it. */
    method DeleteFile(path: string, removeOk: bool) returns (ok: bool)
      modifies this`files, this`dirs
      ensures !mounted ==> !ok && files == old(files) && dirs == old(dirs)
      ensures mounted && !old(Exists(path)) ==> ok && files == old(files) && dirs == old(dirs)
      ensures mounted && old(Exists(path)) ==> (ok == removeOk &&
        files == (if removeOk then old(files) - {path} else old(files)) &&
        dirs == (if removeOk then old(dirs) - {path} else old(dirs)))
      ensures ok <==> mounted && !FileExists(path)
    {
      if !mounted {
        return false;
      }
      if Exists(path) {
        if removeOk {
          files := files - {path};
          dirs := dirs - {path};
        }
        return removeOk;
      }
      return true;
    }

    /** createDirectory: an existing path succeeds unchanged; otherwise mkdir decides. */
    method CreateDirectory(path: string, mkdirOk: bool) returns (ok: bool)
      modifies this`dirs
      ensures !mounted ==> !ok && dirs == old(dirs)
      ensures mounted && old(Exists(path)) ==> ok && dirs == old(dirs)
      ensures mounted && !old(Exists(path)) ==> (ok == mkdirOk &&
        dirs == (if mkdirOk then old(dirs) + {path} else old(dirs)))
      ensures ok <==> FileExists(path)
    {
      if !mounted {
        return false;
      }
      if !Exists(path) {
        if mkdirOk {
          dirs := dirs + {path};
        }
        return mkdirOk;
      }
      return true;
    }

    /**
     * initVideoRecording: needs a mounted card; closes a recording still in
     * progress, creates the recordings directory if needed and starts an
     * empty video file with no frames counted. A failed open leaves the
     * earlier recording closed and no new one started.
     */
    method InitVideoRecording(path: string, mkdirOk: bool, openOk: bool) returns (ok: bool)
      modifies this
      ensures mounted == old(mounted)
      ensures !old(mounted) ==> (!ok && files == old(files) && dirs == old(dirs) &&
        recordingActive == old(recordingActive) && frameCount == old(frameCount) && videoPath == old(videoPath))
      ensures ok <==> old(mounted) && openOk
      ensures old(mounted) ==>
        dirs == (if !old(Exists(RECORDINGS_DIR)) && mkdirOk then old(dirs) + {RECORDINGS_DIR} else old(dirs))
      ensures ok ==> (recordingActive && frameCount == 0 && videoPath == path &&
        files == old(files)[path := []])
      ensures old(mounted) && !openOk ==> (!recordingActive && files == old(files) &&
        videoPath == old(videoPath) && frameCount == (if old(recordingActive) then 0 else old(frameCount)))
      ensures old(mounted) ==> (IsVideoRecording() <==> ok)
    {
      if !mounted {
        return false;
      }
      if recordingActive {
        var _ := FinalizeVideoRecording();
      }
      if !Exists(RECORDINGS_DIR) && mkdirOk {
        dirs := dirs + {RECORDINGS_DIR};
      }
      if !openOk {
        return false;
      }
      files := files[path := []];
      videoPath := path;
      recordingActive := true;
      frameCount := 0;
      ok := true;
    }

    /**
     * writeFrameToVideo: nothing is written unless recording; otherwise the
     * bytes of the length header that were written (`headerWritten`, whose
     * count the source never checks), then the frame bytes that were
     * written, are appended, and the frame counts exactly when its data was
     * written whole, however short the header write was.
     */
    method WriteFrameToVideo(frame: seq<byte>, headerWritten: nat, written: nat) returns (ok: bool)
      requires headerWritten <= 4 && written <= |frame|
      modifies this`files, this`frameCount
      ensures !recordingActive ==> !ok && files == old(files) && frameCount == old(frameCount)
      ensures recordingActive ==>
        files == old(files)[videoPath := old(Contents(videoPath)) + Le32(ToU32(|frame|))[..headerWritten] + frame[..written]]
      ensures ok <==> recordingActive && written == |frame|
      ensures ok && headerWritten == 4 ==> files[videoPath] == old(Contents(videoPath)) + Record(frame)
      ensures frameCount == old(frameCount) + (if ok then 1 else 0)
    {
      if !recordingActive {
        return false;
      }
      files := files[videoPath := Contents(videoPath) + Le32(ToU32(|frame|))[..headerWritten] + frame[..written]];
      if written != |frame| {
        return false;
      }
      frameCount := frameCount + 1;
      ok := true;
    }

    /** finalizeVideoRecording: false when nothing is recording; otherwise stops and resets the count. */
    method FinalizeVideoRecording() returns (ok: bool)
      modifies this`recordingActive, this`frameCount
      ensures ok == old(recordingActive)
      ensures !recordingActive && !IsVideoRecording()
      ensures frameCount == (if ok then 0 else old(frameCount))
    {
      if !recordingActive {
        return false;
      }
      recordingActive := false;
      frameCount := 0;
      ok := true;
    }

    /** isVideoRecording */
    predicate IsVideoRecording()
      reads this
      ensures IsVideoRecording() <==> recordingActive
    {
      recordingActive
    }
  }

  /**
   * A recording made of complete writes only holds exactly the frames
   * written, and a reader recovers them from the file.
   */
  lemma RecordingReadsBack(frames: seq<seq<byte>>, f: seq<byte>)
    requires FramesFit(frames + [f])
    ensures ParseVideo(VideoBytes(frames) + Record(f)) == Some(frames + [f])
  {
    VideoBytesAppend(frames, f);
    ParseVideoRoundTrip(frames + [f]);
  }
}
