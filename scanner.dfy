/** The scanner object the server drives (server/src/scanner.rs): the
    motor, the camera and the calibration, plus the laser flags and the
    motor position that `status` reports. */
module Scanner {
  import opened Wrappers
  import opened Geometry
  import opened Calibration
  import opened Protocol
  import opened Channel
  import opened Cameras
  import ServerMotor

  class Scanner {
    const motor: ServerMotor.StepperMotor
    const camera: DiskCamera
    const calibration: Calibration
    /** The floating-point functions the pipeline calls. */
    const trig: Trig
    var laser1: bool
    var laser2: bool
    var motorPosition: real

    ghost predicate Valid()
      reads this, camera
    {
      camera.Valid() && ValidCalibration(calibration)
    }

    /** `Scanner::new`, once the logger, motor, camera and calibration
        exist: both lasers off and the motor at position 0. */
    constructor (camera: DiskCamera, motor: ServerMotor.StepperMotor, calibration: Calibration, trig: Trig)
      requires camera.Valid() && ValidCalibration(calibration)
      ensures Valid()
      ensures this.camera == camera && this.motor == motor && this.calibration == calibration && this.trig == trig
      ensures !laser1 && !laser2 && motorPosition == 0.0
    {
      this.camera := camera;
      this.motor := motor;
      this.calibration := calibration;
      this.trig := trig;
      laser1 := false;
      laser2 := false;
      motorPosition := 0.0;
    }

    /** `start`: one scan with the scanner's own camera, calibration and
        motor, sending into the given queue; the returned cloud is
        discarded and any error is passed on. */
    method Start(queue: Channel<Response>) returns (r: Result<(), ScanError>)
      requires Valid()
      modifies camera, motor, queue
      ensures Valid()
      ensures var out := Acquire(camera.paths, old(camera.cursor), camera.decode, calibration, trig, old(queue.receiverAlive));
              && (r.Ok? <==> out.result.Ok?)
              && (r.Err? ==> r.error == out.result.error)
              && camera.cursor == old(camera.cursor) + out.used
              && queue.queue == old(queue.queue) + out.chunks
              && queue.receiverAlive == old(queue.receiverAlive)
              && (motor.kind == ServerMotor.Nema ==>
                    motor.trace == old(motor.trace) + ServerMotor.Repeat(ServerMotor.StepTrace(1), out.used))
              && (motor.kind == ServerMotor.Mock ==> motor.trace == old(motor.trace))
      ensures laser1 == old(laser1) && laser2 == old(laser2) && motorPosition == old(motorPosition)
    {
      var cloud := camera.AcquireFromCamera(calibration, trig, motor, queue);
      if cloud.Err? {
        return Err(cloud.error);
      }
      return Result.Ok(());
    }

    /** `stop`: does nothing. */
    method Stop()
      ensures unchanged(this)
    {
    }

    /** `status`: advance the motor position by one and report it, with
        the laser flags, which nothing ever changes. */
    method Status() returns (s: StatusData)
      modifies this
      ensures motorPosition == old(motorPosition) + 1.0
      ensures laser1 == old(laser1) && laser2 == old(laser2)
      ensures s == StatusData(LasersData(laser1, laser2), motorPosition)
    {
      motorPosition := motorPosition + 1.0;
      s := StatusData(LasersData(laser1, laser2), motorPosition);
    }
  }

  /** n successive `status` calls report positions p+1, ..., p+n, where p
      is the position before the first; on a new scanner, the k-th call
      reports k. */
  method StatusReports(scanner: Scanner, n: nat) returns (reports: seq<StatusData>)
    modifies scanner
    ensures |reports| == n
    ensures scanner.motorPosition == old(scanner.motorPosition) + n as real
    ensures forall k :: 0 <= k < n ==>
              reports[k] == StatusData(LasersData(old(scanner.laser1), old(scanner.laser2)),
                                       old(scanner.motorPosition) + (k + 1) as real)
  {
    reports := [];
    while |reports| < n
      invariant |reports| <= n
      invariant scanner.motorPosition == old(scanner.motorPosition) + |reports| as real
      invariant scanner.laser1 == old(scanner.laser1) && scanner.laser2 == old(scanner.laser2)
      invariant forall k :: 0 <= k < |reports| ==>
                  reports[k] == StatusData(LasersData(old(scanner.laser1), old(scanner.laser2)),
                                           old(scanner.motorPosition) + (k + 1) as real)
    {
      var s := scanner.Status();
      reports := reports + [s];
    }
  }
}
