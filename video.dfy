/** Trim and volume selection of `VideoProcessor` (src/video_processor.py):
    each setter validates its arguments and either raises, leaving the
    selection as it was, or updates exactly the fields it names. */
module Video {
  import opened Wrappers

  /** The exceptions the setters raise, with their messages. */
  datatype PyError = FileNotFound(message: string) | ValueError(message: string)

  /** How a call ended: normally, or by raising. */
  datatype Status = Ok | Raised(error: PyError)

  /** `VideoSelection`: the selected file and its trim and volume settings. */
  class VideoSelection {
    var path: Option<string>
    var startTime: real
    var endTime: real
    var volume: real

    constructor(path: Option<string>, startTime: real, endTime: real, volume: real)
      ensures this.path == path && this.startTime == startTime
      ensures this.endTime == endTime && this.volume == volume
    {
      this.path := path;
      this.startTime := startTime;
      this.endTime := endTime;
      this.volume := volume;
    }
  }

  /** The checks of `update_trim`, in order: negative times first, then a start
      after a non-zero end. An end of 0 leaves the trim open-ended. */
  function TrimError(start: real, end: real): (e: Option<PyError>)
    ensures e.Some? ==> e.value.ValueError?
  {
    if start < 0.0 || end < 0.0 then Some(ValueError("Start and end times must be non-negative"))
    else if end != 0.0 && start > end then Some(ValueError("Start time cannot exceed end time"))
    else None
  }

  /** The check of `set_volume`. */
  function VolumeError(volume: real): (e: Option<PyError>)
    ensures e.Some? ==> e.value.ValueError?
  {
    if !(0.0 <= volume <= 1.0) then Some(ValueError("Volume must be between 0 and 1")) else None
  }

  /** A trim is accepted exactly when both times are non-negative and, unless
      the end is 0, the start does not pass the end; a negative time is
      reported before an inverted range. */
  lemma TrimAccepted(start: real, end: real)
    ensures TrimError(start, end) == None <==> 0.0 <= start && 0.0 <= end && (end != 0.0 ==> start <= end)
    ensures (start < 0.0 || end < 0.0) ==>
      TrimError(start, end) == Some(ValueError("Start and end times must be non-negative"))
    ensures 0.0 <= end < start && end != 0.0 ==>
      TrimError(start, end) == Some(ValueError("Start time cannot exceed end time"))
    ensures 0.0 <= start ==> TrimError(start, 0.0) == None
  {
  }

  /** A volume is accepted exactly when it lies in [0, 1]. */
  lemma VolumeAccepted(volume: real)
    ensures VolumeError(volume) == None <==> 0.0 <= volume <= 1.0
  {
  }

  /** The status a call ends with after a check. */
  function StatusOf(e: Option<PyError>): Status {
    match e
    case None => Ok
    case Some(err) => Raised(err)
  }

  /** `VideoProcessor`: holds one selection for its whole life and changes it
      only through the validating setters. */
  class VideoProcessor {
    const selection: VideoSelection

    /** What the setters maintain: volume in [0, 1], non-negative times, and a
        start no later than a non-zero end. */
    ghost predicate Valid()
      reads this, selection
    {
      && 0.0 <= selection.volume <= 1.0
      && 0.0 <= selection.startTime && 0.0 <= selection.endTime
      && (selection.endTime != 0.0 ==> selection.startTime <= selection.endTime)
    }

    /** `VideoProcessor()`: no file, no trim, full volume. */
    constructor()
      ensures fresh(selection)
      ensures selection.path == None && selection.startTime == 0.0
      ensures selection.endTime == 0.0 && selection.volume == 1.0
      ensures Valid()
    {
      selection := new VideoSelection(None, 0.0, 0.0, 1.0);
    }

    /** `select_file(file_path)`, with the file system's answer to
        `path.exists()` given as `pathExists`. */
    method SelectFile(filePath: string, pathExists: string -> bool) returns (status: Status)
      modifies selection
      ensures !pathExists(filePath) ==>
        status == Raised(FileNotFound("Video file not found: " + filePath)) && unchanged(selection)
      ensures pathExists(filePath) ==>
        && status == Ok && selection.path == Some(filePath)
        && selection.startTime == old(selection.startTime) && selection.endTime == old(selection.endTime)
        && selection.volume == old(selection.volume)
      ensures old(Valid()) ==> Valid()
    {
      if !pathExists(filePath) {
        return Raised(FileNotFound("Video file not found: " + filePath));
      }
      selection.path := Some(filePath);
      status := Ok;
    }

    /** `update_trim(start, end)` */
    method UpdateTrim(start: real, end: real) returns (status: Status)
      modifies selection
      ensures status == StatusOf(TrimError(start, end))
      ensures status.Raised? ==> unchanged(selection)
      ensures status.Ok? ==>
        && selection.startTime == start && selection.endTime == end
        && selection.path == old(selection.path) && selection.volume == old(selection.volume)
      ensures old(Valid()) ==> Valid()
    {
      if start < 0.0 || end < 0.0 {
        return Raised(ValueError("Start and end times must be non-negative"));
      }
      if end != 0.0 && start > end {
        return Raised(ValueError("Start time cannot exceed end time"));
      }
      selection.startTime := start;
      selection.endTime := end;
      status := Ok;
    }

    /** `set_volume(volume)` */
    method SetVolume(volume: real) returns (status: Status)
      modifies selection
      ensures status == StatusOf(VolumeError(volume))
      ensures status.Raised? ==> unchanged(selection)
      ensures status.Ok? ==>
        && selection.volume == volume
        && selection.path == old(selection.path) && selection.startTime == old(selection.startTime)
        && selection.endTime == old(selection.endTime)
      ensures old(Valid()) ==> Valid()
    {
      if !(0.0 <= volume <= 1.0) {
        return Raised(ValueError("Volume must be between 0 and 1"));
      }
      selection.volume := volume;
      status := Ok;
    }
  }
}
