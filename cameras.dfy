/** The server's disk camera and its scan loop (server/src/cameras.rs): a
    cursor over the image files of a directory, and a fixed-length loop
    that turns each image into a point-cloud chunk on the outbound queue. */
module Cameras {
  import opened Wrappers
  import opened Geometry
  import opened Calibration
  import opened ImgProc
  import Protocol
  import opened Channel
  import ServerMotor

  type Path = string

  /** One entry of a directory listing: a path, or an entry whose metadata
      could not be read. */
  datatype DirEntry = Entry(path: Path) | Unreadable

  /** The outcome of `read_dir`: the listing in the order the file system
      returns it, or the error that prevented reading the directory. */
  datatype ReadDir = ReadDirFailed(error: string) | Listing(entries: seq<DirEntry>)

  /** The errors a scan ends with: the camera has no more images, or the
      outbound queue has no receiver. */
  datatype ScanError = NoMoreImages | QueueClosed

  /** The `Display` text of a scan error. */
  function ErrorText(e: ScanError): (s: string)
    ensures e.NoMoreImages? ==> s == "No more images"
    ensures e.QueueClosed? ==> s == "sending on a closed channel"
  {
    match e
    case NoMoreImages => "No more images"
    case QueueClosed => "sending on a closed channel"
  }

  /** The readable entries of a listing, in listing order. */
  function ReadablePaths(entries: seq<DirEntry>): (r: seq<Path>)
    ensures |r| <= |entries|
    ensures forall p :: p in r <==> Entry(p) in entries
  {
    if entries == [] then []
    else
      var last := entries[|entries| - 1];
      assert entries == entries[..|entries| - 1] + [last];
      ReadablePaths(entries[..|entries| - 1]) + (if last.Entry? then [last.path] else [])
  }

  /** The angle the turntable moves between two frames: 5 degrees. */
  const AnglePerStep: real := ToRadians(5.0)

  /** `steps`: a full turn divided by the step angle, rounded up. In exact
      arithmetic this is 72. */
  function ScanSteps(): (n: int)
    ensures n == 72
  {
    assert 2.0 * Pi / AnglePerStep == 72.0;
    Ceil(2.0 * Pi / AnglePerStep)
  }

  /** The chunk the scan sends for one image file. */
  function ChunkOf(path: Path, decode: Path -> GrayImage, calib: Calibration, trig: Trig): Protocol.Response
    requires ValidCalibration(calib)
  {
    Protocol.PointCloud(Triangulation(decode(path), calib, trig))
  }

  /** The chunks the scan sends for a run of image files, in order. */
  function Chunks(paths: seq<Path>, decode: Path -> GrayImage, calib: Calibration, trig: Trig): (r: seq<Protocol.Response>)
    requires ValidCalibration(calib)
    ensures |r| == |paths|
  {
    seq(|paths|, i requires 0 <= i < |paths| => ChunkOf(paths[i], decode, calib, trig))
  }

  /** What one scan does: the chunks it sends, the number of images it
      consumes, and what it returns. */
  datatype Acquisition = Acquisition(chunks: seq<Protocol.Response>, used: nat, result: Result<seq<Point3>, ScanError>)

  /** The scan from a cursor position, as a function: with a live queue it
      sends one chunk per image until the 72 steps are done or the images
      run out; with no receiver it fails on the first send, after consuming
      the first image. */
  function Acquire(paths: seq<Path>, cursor: nat, decode: Path -> GrayImage, calib: Calibration, trig: Trig,
                   receiverAlive: bool): (out: Acquisition)
    requires cursor <= |paths|
    requires ValidCalibration(calib)
  {
    var available := |paths| - cursor;
    if !receiverAlive then
      if available == 0 then Acquisition([], 0, Err(NoMoreImages)) else Acquisition([], 1, Err(QueueClosed))
    else if available >= ScanSteps() then
      Acquisition(Chunks(paths[cursor..cursor + ScanSteps()], decode, calib, trig), ScanSteps(), Ok([]))
    else
      Acquisition(Chunks(paths[cursor..], decode, calib, trig), available, Err(NoMoreImages))
  }

  /** A scan succeeds exactly when the queue is live and at least 72
      images remain; it then consumes exactly 72 images, sends one chunk
      per image, and returns an empty cloud. */
  lemma AcquireSucceeds(paths: seq<Path>, cursor: nat, decode: Path -> GrayImage, calib: Calibration, trig: Trig,
                        receiverAlive: bool)
    requires cursor <= |paths|
    requires ValidCalibration(calib)
    ensures var out := Acquire(paths, cursor, decode, calib, trig, receiverAlive);
            && (out.result.Ok? <==> receiverAlive && |paths| - cursor >= 72)
            && (out.result.Ok? ==> out.result.value == [] && out.used == 72 && |out.chunks| == 72)
  {
  }

  /** Whatever the outcome, the scan never consumes more images than
      remain or than there are steps, and sends one chunk for each image
      it consumed, except the one whose send failed. */
  lemma AcquireBounds(paths: seq<Path>, cursor: nat, decode: Path -> GrayImage, calib: Calibration, trig: Trig,
                      receiverAlive: bool)
    requires cursor <= |paths|
    requires ValidCalibration(calib)
    ensures var out := Acquire(paths, cursor, decode, calib, trig, receiverAlive);
            && out.used <= |paths| - cursor
            && out.used <= 72
            && |out.chunks| == (if out.result == Err(QueueClosed) then out.used - 1 else out.used)
            && (out.result == Err(NoMoreImages) ==> cursor + out.used == |paths|)
  {
  }

  /** The scan in closed form where the loop stops early: with `i`
      images sent, the next step finds no image, or (on the first step)
      no receiver. */
  lemma AcquireStopsAt(paths: seq<Path>, cursor: nat, decode: Path -> GrayImage, calib: Calibration, trig: Trig,
                       receiverAlive: bool, i: nat, failure: ScanError)
    requires cursor + i <= |paths|
    requires ValidCalibration(calib)
    requires i < 72
    requires i > 0 ==> receiverAlive
    requires failure == NoMoreImages ==> cursor + i == |paths|
    requires failure == QueueClosed ==> !receiverAlive && i == 0 && cursor < |paths|
    ensures Acquire(paths, cursor, decode, calib, trig, receiverAlive)
         == Acquisition(Chunks(paths[cursor..cursor + i], decode, calib, trig),
                        if failure == QueueClosed then 1 else i, Err(failure))
  {
    if failure == NoMoreImages {
      assert paths[cursor..] == paths[cursor..cursor + i];
    }
  }

  class DiskCamera {
    /** The image files, in directory listing order. */
    const paths: seq<Path>
    /** How many of them `get_image` has handed out. */
    var cursor: nat
    /** Reading and decoding an image file, which is not modelled. */
    const decode: Path -> GrayImage

    ghost predicate Valid()
      reads this
    {
      cursor <= |paths|
    }

    constructor (paths: seq<Path>, decode: Path -> GrayImage)
      ensures Valid()
      ensures this.paths == paths && this.decode == decode && cursor == 0
    {
      this.paths := paths;
      this.decode := decode;
      cursor := 0;
    }

    /** `DiskCamera::from_directory`: the readable entries of the listing,
        in listing order and unsorted; a failing `read_dir` is returned. */
    static method FromDirectory(dir: ReadDir, decode: Path -> GrayImage) returns (r: Result<DiskCamera, string>)
      ensures dir.ReadDirFailed? ==> r == Err(dir.error)
      ensures dir.Listing? ==> r.Ok? && fresh(r.value) && r.value.Valid()
                               && r.value.paths == ReadablePaths(dir.entries) && r.value.cursor == 0
                               && r.value.decode == decode
    {
      if dir.ReadDirFailed? {
        return Err(dir.error);
      }
      var camera := new DiskCamera(ReadablePaths(dir.entries), decode);
      return Ok(camera);
    }

    /** `DiskCamera::get_image`: the next image, each file at most once;
        after the last one, the "No more images" error, forever. */
    method GetImage() returns (r: Result<GrayImage, ScanError>)
      requires Valid()
      modifies this
      ensures Valid()
      ensures old(cursor) < |paths| ==> r == Ok(decode(paths[old(cursor)])) && cursor == old(cursor) + 1
      ensures old(cursor) == |paths| ==> r == Err(NoMoreImages) && cursor == old(cursor)
    {
      if cursor < |paths| {
        r := Ok(decode(paths[cursor]));
        cursor := cursor + 1;
      } else {
        r := Err(NoMoreImages);
      }
    }

    /** One step of the scan loop: take the next image, process it
        (stepping the motor once) and send its points; report the error
        that ends the scan, if any. */
    method AcquireOne(index: int, calib: Calibration, trig: Trig, motor: ServerMotor.StepperMotor,
                      queue: Channel<Protocol.Response>) returns (failure: Option<ScanError>)
      requires Valid()
      requires ValidCalibration(calib)
      modifies this, motor, queue
      ensures Valid()
      ensures queue.receiverAlive == old(queue.receiverAlive)
      ensures old(cursor) == |paths| ==>
                failure == Some(NoMoreImages) && cursor == old(cursor)
                && queue.queue == old(queue.queue) && motor.trace == old(motor.trace)
      ensures old(cursor) < |paths| ==>
                && cursor == old(cursor) + 1
                && failure == (if queue.receiverAlive then None else Some(QueueClosed))
                && queue.queue == (if queue.receiverAlive then old(queue.queue) + [ChunkOf(paths[old(cursor)], decode, calib, trig)]
                                   else old(queue.queue))
                && (motor.kind == ServerMotor.Nema ==> motor.trace == old(motor.trace) + ServerMotor.StepTrace(1))
                && (motor.kind == ServerMotor.Mock ==> motor.trace == old(motor.trace))
    {
      var image := GetImage();
      if image.Err? {
        return Some(image.error);
      }
      var newPoints := ProcessImage(image.value, index, AnglePerStep, calib, trig, motor);
      var sent := queue.Send(Protocol.PointCloud(newPoints));
      failure := if sent then None else Some(QueueClosed);
    }

    /** `acquire_from_camera`: 72 steps, each taking one image, running it
        through `process_image` (which steps the motor once) and sending
        its points as one chunk; the first failure ends the scan and is
        returned. The returned cloud is never filled. */
    method AcquireFromCamera(calib: Calibration, trig: Trig, motor: ServerMotor.StepperMotor,
                             queue: Channel<Protocol.Response>) returns (r: Result<seq<Point3>, ScanError>)
      requires Valid()
      requires ValidCalibration(calib)
      modifies this, motor, queue
      ensures Valid()
      ensures var out := Acquire(paths, old(cursor), decode, calib, trig, old(queue.receiverAlive));
              && r == out.result
              && cursor == old(cursor) + out.used
              && queue.queue == old(queue.queue) + out.chunks
              && queue.receiverAlive == old(queue.receiverAlive)
              && (motor.kind == ServerMotor.Nema ==>
                    motor.trace == old(motor.trace) + ServerMotor.Repeat(ServerMotor.StepTrace(1), out.used))
              && (motor.kind == ServerMotor.Mock ==> motor.trace == old(motor.trace))
    {
      var pointCloud: seq<Point3> := [];
      var steps := Ceil(2.0 * Pi / AnglePerStep);
      assert steps == ScanSteps();
      var i := 0;
      while i < steps
        invariant 0 <= i <= steps
        invariant Valid()
        invariant cursor == old(cursor) + i
        invariant queue.queue == old(queue.queue) + Chunks(paths[old(cursor)..cursor], decode, calib, trig)
        invariant queue.receiverAlive == old(queue.receiverAlive)
        invariant i > 0 ==> queue.receiverAlive
        invariant motor.kind == ServerMotor.Nema ==>
                    motor.trace == old(motor.trace) + ServerMotor.Repeat(ServerMotor.StepTrace(1), i)
        invariant motor.kind == ServerMotor.Mock ==> motor.trace == old(motor.trace)
      {
        ghost var done := paths[old(cursor)..cursor];
        var failure := AcquireOne(i, calib, trig, motor, queue);
        if failure.Some? {
          AcquireStopsAt(paths, old(cursor), decode, calib, trig, old(queue.receiverAlive), i, failure.value);
          return Err(failure.value);
        }
        assert paths[old(cursor)..cursor] == done + [paths[cursor - 1]];
        assert Chunks(paths[old(cursor)..cursor], decode, calib, trig)
            == Chunks(done, decode, calib, trig) + [ChunkOf(paths[cursor - 1], decode, calib, trig)];
        i := i + 1;
      }
      return Ok(pointCloud);
    }
  }
}
