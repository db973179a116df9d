# 3d_scanner in Dafny

A model of the core of the 3d_scanner laser scanner. A turntable carries the
object past a camera and two laser fans. For each frame the server finds the
laser stripe row by row and triangulates it into 3D points. It sends one
point-cloud chunk per frame to the client over a WebSocket.

The model covers:

- laser detection and triangulation, with the calibration transforms;
- the disk camera and its 72-step scan loop;
- the scanner object;
- the server's reader loop, writer drain and accept loop;
- the two stepper-motor drivers, as traces of pin patterns;
- the sorted disk loader of the standalone tool;
- the viewer's point generators;
- the web client's `cmd;payload` framing.

Floating point is idealised over `real`:

- `cos`, `sin`, `tan` and the XYZ Euler rotation are opaque functions, held in a `Trig` record (module `Geometry`).
- The predicate `Lawful` states what the proofs need of them: exact values at zero, and an orthogonal rotation.
- These laws are assumed of the opaque rotation. `Calibration.EulerLawAt` and `Calibration.EulerLawAtZero` show that a rotation built as the product Rx Ry Rz of elementary rotations meets them, wherever cos² + sin² = 1 and cos 0 = 1, sin 0 = 0. That the opaque rotation is such a product is not proved.
- The division in the laser-plane projection gives `NonFinite` on a zero denominator. The divisions by `meters_per_px` are unguarded in the code too; the model assumes that value non-zero (`ValidCalibration`).

Side effects are modelled as state:

- Pin writes are an append-only `trace` of patterns.
- An mpsc channel is a class holding a `seq` queue.
- The socket is a finite list of read outcomes.
- Image decoding, JSON encoding and `any_orthonormal_vector` are function parameters.

Behaviour of the code worth noting:

- Every bright run in a row is emitted, not only the first.
- The x of a run is (first + last bright column) / 2. A run lit on columns 100..119 gives 109.5 (`ImgProc.StripeExample`).
- No per-step rotation is applied to new points. The rotation lines in `process_image` are commented out.
- `img_plane_2_cam` inverts "rotate, then translate by (0, 0, -focal_length)". That is `from_rotation_translation`, not translate-then-rotate.
- The server's disk camera hands out images in listing order, unsorted. Only the standalone tool's loader sorts.
- The scan loop never fills the cloud it returns. The final `Ok` reply comes from the server's `replay`, not from the scan.
- The message types follow `server.rs`. `msg/src/lib.rs` is an older revision.

## Model

| member | source | states |
|---|---|---|
| Geometry.ToRadians | server/src/calibration.rs:14 | degrees to radians: 0 maps to 0, 180 to pi, and the result is positive exactly when the angle is |
| Geometry.Lerp | scanner_ui/src/draw.rs:24 | `lerp` gives the first end at parameter 0 and the second at 1 |
| Calibration.AngleRad | server/src/calibration.rs:13-15 | `angle_rad` times 180 is the angle times pi; 0 degrees gives 0 |
| Calibration.FocalLengthPx | server/src/calibration.rs:45-47 | `focal_length_px` times `meters_per_px` is `focal_length` |
| Calibration.RadiansOf | server/src/calibration.rs:28-30 | zero Euler angles in degrees are zero radians |
| Calibration.AsAffine | server/src/calibration.rs:25-33 | the affine's translation is the pose translation, where the origin lands |
| Calibration.AsAffineRigid | server/src/calibration.rs:25-33 | the pose's linear part is orthogonal, so distances between points are kept |
| Calibration.AsAffineZeroRotation | server/src/calibration.rs:25-33 | with all Euler angles zero, `as_affine` maps p to p + translation |
| Calibration.ImgPlane2CamInverse | server/src/calibration.rs:58-65 | `img_plane_2_cam` and "rotate by the tilt, add (0, 0, -focal_length)" undo each other in both orders |
| Calibration.ImgPlane2CamZeroRotation | server/src/calibration.rs:59-64 | with no tilt, `img_plane_2_cam` adds (0, 0, +focal_length), in length units |
| Calibration.ImgPlane2WorldSteps | server/src/imgproc.rs:79 | the product `as_affine() * img_plane_2_cam()` applies `img_plane_2_cam` first |
| Calibration.ImgPlane2WorldRigid | server/src/imgproc.rs:79 | the image-plane-to-world map is a rigid motion (orthogonal linear part) |
| Calibration.EulerMatrixOrthogonal | server/src/calibration.rs:26-31 | the XYZ Euler product of elementary rotations is orthogonal |
| Calibration.EulerMatrixAtZero | server/src/calibration.rs:26-31 | the XYZ Euler product at zero angles is the identity |
| Calibration.EulerLawAt | server/src/calibration.rs:26-31 | where the opaque rotation is the Rx Ry Rz product of unit (cos, sin) pairs, it is orthogonal, as `Lawful` assumes |
| Calibration.EulerLawAtZero | server/src/calibration.rs:26-31 | where the opaque rotation at zero angles is that product, with cos 0 = 1 and sin 0 = 0, it is the identity, as `Lawful` assumes |
| ImgProc.RunStart | server/src/imgproc.rs:92-97 | the start of the maximal bright run ending before column j: all of it is bright and the pixel before it is dark |
| ImgProc.DetectLaserPoints | server/src/imgproc.rs:87-109 | the nested loops over the registers `laser_start`/`laser_end` compute exactly the reference definition `Detected` |
| ImgProc.DarkRowNoPoints | server/src/imgproc.rs:92-105 | a row with no pixel above 30 yields no point |
| ImgProc.DarkImageNoPoints | server/src/imgproc.rs:89-107 | an image with no pixel above 30 yields no point |
| ImgProc.RowPointsBounds | server/src/imgproc.rs:99-104 | every point of a row has y = the row index and 1 <= x <= width - 2 |
| ImgProc.EmittedRunAppears | server/src/imgproc.rs:99-104 | every bright run ended by a dark pixel (past the column-0 sentinel) yields its midpoint |
| ImgProc.RowPointIsRunMidpoint | server/src/imgproc.rs:99-104 | every point of a row is the midpoint of such a run |
| ImgProc.RowPointsBefore | server/src/imgproc.rs:99-104 | a point emitted within the first n columns has x <= n - 2 |
| ImgProc.NoPointsInsideRun | server/src/imgproc.rs:92-98 | reading bright columns emits nothing |
| ImgProc.RowPointsIncreasing | server/src/imgproc.rs:92-106 | within a row, x strictly increases: left to right, one point per closed run, none repeated |
| ImgProc.ImagePointsRowOrder | server/src/imgproc.rs:89-107 | points come row by row with y within the image, and left to right (strictly increasing x) within a row |
| ImgProc.ImagePointsInsideFrame | server/src/imgproc.rs:89-107 | when every row holds `width` pixels, every point has 1 <= x <= width - 2 and 0 <= y < height |
| ImgProc.SingleRunPrefix | server/src/imgproc.rs:92-106 | for a row with one run a..b, the first n columns yield its midpoint once column b+1 has been read |
| ImgProc.SingleRunPoints | server/src/imgproc.rs:90-106 | one closed run gives one point at (start + end)/2, with start 0 recorded as 1; a run reaching the last column, or a lone bright pixel at column 0, gives none |
| ImgProc.StripeExample | server/src/imgproc.rs:100-101 | a 640-pixel row lit on columns 100..119 gives the single point (109.5, y) |
| ImgProc.Centre | server/src/imgproc.rs:43-53 | a detected (x, y) becomes (x - width/2, y - height/2, focal_length_px) |
| ImgProc.SplitBySign | server/src/imgproc.rs:57-63 | the right laser gets exactly the points with x >= 0, the left exactly those with x < 0 |
| ImgProc.SplitIsPartition | server/src/imgproc.rs:55-63 | the two lists together hold every centred point once (lengths add up, multisets union) |
| ImgProc.SplitByLaser | server/src/imgproc.rs:55-63 | the loop builds the two lists in input order |
| ImgProc.ProjectOnLaserPlane | server/src/imgproc.rs:111-119 | non-finite exactly when z tan(angle) + x = 0; otherwise a multiple of p lying on x + z tan(angle) = baseline_px |
| ImgProc.ProjectionUnique | server/src/imgproc.rs:111-119 | the projection is the only multiple of p on the laser plane |
| ImgProc.ProjectAll | server/src/imgproc.rs:66-73 | one projected point per input point |
| ImgProc.Centred | server/src/imgproc.rs:49-53 | one centred point per detected point |
| ImgProc.CentredInsideFrame | server/src/imgproc.rs:43-53 | for a well-formed frame every centred point lies within half the frame of the axis, at depth focal_length_px |
| ImgProc.Triangulate | server/src/imgproc.rs:40-85 | the pipeline computes `Triangulation`: right-laser projections, then left, scaled by meters_per_px and moved to the world |
| ImgProc.TriangulationLayout | server/src/imgproc.rs:75-84 | one output per detected point: first the right points in input order, then the left ones, each the world image of its own projection |
| ImgProc.TriangulationOfDarkImage | server/src/imgproc.rs:40-85 | a dark image triangulates to no point |
| ImgProc.WorldPointOnLaserPlane | server/src/imgproc.rs:79-84 | every finite world point, taken back to image-plane pixels, lies on its laser's plane |
| ImgProc.RoundTripToPixels | server/src/imgproc.rs:79-84 | scaling by meters_per_px and the world map are undone by the inverse map and the reciprocal scale |
| ImgProc.ProcessImage | server/src/imgproc.rs:9-38 | steps the motor exactly once and returns the triangulation unchanged, whatever the step index and angle |
| Cameras.ErrorText | server/src/cameras.rs:84 | the scan errors read "No more images" and the mpsc send error text |
| Cameras.ReadablePaths | server/src/cameras.rs:69-75 | a path is kept exactly when its entry is readable; no more paths than entries |
| Cameras.ScanSteps | server/src/cameras.rs:98-99 | ceil(2 pi / 5 degrees) is 72 in exact arithmetic |
| Cameras.Chunks | server/src/cameras.rs:100-107 | one chunk per image |
| Cameras.AcquireSucceeds | server/src/cameras.rs:100-109 | a scan succeeds exactly when the queue is live and 72 images remain; it then uses 72 images, sends 72 chunks and returns an empty cloud |
| Cameras.AcquireBounds | server/src/cameras.rs:100-107 | a scan uses at most 72 images and no more than remain; it sends one chunk per image used, less the one whose send failed; running out of images means the cursor reached the end |
| Cameras.AcquireStopsAt | server/src/cameras.rs:100-107 | a scan that stops after i images, on a missing image or (first step only) a dead queue, sends their i chunks and returns that error |
| Cameras.DiskCamera.constructor | server/src/cameras.rs:76-78 | the camera starts before its first path |
| Cameras.DiskCamera.FromDirectory | server/src/cameras.rs:68-79 | a failed `read_dir` is returned; otherwise the readable entries, in listing order |
| Cameras.DiskCamera.GetImage | server/src/cameras.rs:81-86 | the next path's image with the cursor advanced, or "No more images" with nothing changed |
| Cameras.DiskCamera.AcquireOne | server/src/cameras.rs:101-106 | one step: an image, one motor step and one chunk sent, or the error that stops the scan |
| Cameras.DiskCamera.AcquireFromCamera | server/src/cameras.rs:90-110 | result, cursor, queue and motor trace are those of `Acquire` on the old state |
| Scanner.Scanner.constructor | server/src/scanner.rs:31-39 | a new scanner has both lasers off and motor position 0 |
| Scanner.Scanner.Start | server/src/scanner.rs:47-55 | runs the scan with its own calibration and motor, passes on the error, and leaves the lasers and position alone |
| Scanner.Scanner.Stop | server/src/scanner.rs:57 | changes nothing |
| Scanner.Scanner.Status | server/src/scanner.rs:59-68 | adds 1 to the motor position and reports the new value with the unchanged laser flags |
| Scanner.StatusReports | server/src/scanner.rs:59-67 | n status calls report p+1, ..., p+n; on a new scanner the k-th reports k |
| Protocol.CommandName | server/src/server.rs:155 | the `{:?}` names of the commands |
| Channel.Channel.Send | server/src/server.rs:129-134 | appends the message when the receiver lives, and fails leaving the queue unchanged otherwise |
| Channel.Channel.TryRecv | client/src/app.rs:43 | takes the oldest message, or nothing from an empty queue |
| Server.CommandDispatch | server/src/server.rs:142-166 | chunks are point clouds and the reply never is; Replay replies `Ok` exactly when the queue is live and 72 images remain; Status pushes nothing |
| Server.FrameDispatch | server/src/server.rs:104-127 | one reply per frame, never a point cloud; only a parsed command can push chunks or change the scanner |
| Server.Session | server/src/server.rs:86-135 | consumes at most the given reads and at least one; with a dead queue it sends nothing and stops after one read |
| Server.ProcessMessage | server/src/server.rs:142-157 | the reply, queue and scanner state are those of `CommandDispatch`; Replay errors become "Error processing command Replay: ..." |
| Server.Replay | server/src/server.rs:159-166 | `Ok` once the scan succeeds; its error otherwise; queue, cursor and trace as for the scan |
| Server.Respond | server/src/server.rs:104-127 | the reply and effects of one frame are those of `FrameDispatch` |
| Server.ReadOne | server/src/server.rs:88-134 | one read: a frame is answered and its reply queued, and the loop goes on only if the queue took it; any other read outcome ends the loop |
| Server.HandleConnection | server/src/server.rs:86-135 | the queue, scanner state and reads consumed are those of `Session` |
| Server.OneReplyPerFrame | server/src/server.rs:86-135 | with a live queue every frame gets exactly one reply (Close and errors included), and only a failed or closed read ends the loop |
| Server.NothingReadAfterEnd | server/src/server.rs:88-100 | once a read fails or the connection closes, later input changes nothing |
| Server.Encoded | server/src/server.rs:66-76 | at most one text frame per response |
| Server.DrainQueue | server/src/server.rs:64-84 | empties the queue and writes the responses that serialise, oldest first |
| Server.EncodedAppend | server/src/server.rs:66-82 | writing keeps queue order across any split of the queue |
| Server.EncodedAll | server/src/server.rs:66-82 | when every response serialises, all are written, one frame each, in order |
| Server.ServeConnection | server/src/server.rs:53-140 | one connection: a new queue, the reader loop, then the writer's frames |
| Server.Serve | server/src/server.rs:14-48 | the accept loop as a function; the scanner state stays consistent with its camera |
| Server.Connections | server/src/server.rs:14-39 | one read list per attempt that got through accept, peer lookup and handshake |
| Server.ServedInOrder | server/src/server.rs:14-48 | the j-th transcript is the j-th connection's session, run from the state the earlier connections left; failed attempts change nothing |
| Server.ServeFinalState | server/src/server.rs:14-48 | the final scanner state is that of serving every connection in arrival order |
| Server.EveryConnectionServed | server/src/server.rs:14-48 | one transcript per connection that got through; failed accepts, peer lookups and handshakes are skipped |
| Server.RunWebsocketServer | server/src/server.rs:14-50 | transcripts and final scanner state are those of `Serve` |
| ServerMotor.StepTrace | server/src/motor.rs:77-83 | `step(n)` writes n patterns, the k-th being row k mod 4 of DOUBLE_PHASE_STEPPING |
| ServerMotor.StepperMotor.constructor | server/src/motor.rs:94 | a new motor has written nothing |
| ServerMotor.StepperMotor.Step | server/src/motor.rs:48-86 | the Nema driver appends `StepTrace(steps)`, starting again at row 0; the mock writes nothing |
| ServerMotor.StepperMotor.StepsPerRev | server/src/motor.rs:44-46 | 200 for the Nema 17, 0 for the mock |
| ServerMotor.StepperMotor.Name | server/src/motor.rs:88-90 | "Nema 17" and "Mock Motor" |
| ServerMotor.DoublePhaseTwoHigh | server/src/motor.rs:58-63 | every DOUBLE_PHASE_STEPPING row drives exactly two pins High |
| ServerMotor.DoublePhaseNeighbours | server/src/motor.rs:58-63 | cyclically consecutive rows differ in exactly two pins |
| ServerMotor.StepZero | server/src/motor.rs:77 | `step(0)` writes nothing |
| ServerMotor.RepeatedSingleSteps | server/src/motor.rs:77-79 | n calls of `step(1)`, as the scan makes them, all write row 0 |
| ServerMotor.SingleStepsDiffer | server/src/motor.rs:77-79 | two `step(1)` calls write a different trace from one `step(2)` |
| RootMotor.StepperMotor.constructor | src/motor.rs:11-20 | a new motor has written nothing |
| RootMotor.StepperMotor.Step | src/motor.rs:22-41 | appends the four STEP_SEQUENCE rows, in order, once per step |
| RootMotor.FullTraceRows | src/motor.rs:32-37 | `step(n)` writes 4n patterns, the i-th being row i mod 4 |
| RootMotor.EndsOnLastRow | src/motor.rs:32-33 | for n > 0 the trace ends on row 3 |
| RootMotor.StepZero | src/motor.rs:32 | `step(0)` writes nothing |
| RootMotor.StepSequenceTwoHigh | src/motor.rs:25-30 | every STEP_SEQUENCE row drives exactly two pins High |
| RootMotor.StepSequenceNeighbours | src/motor.rs:25-30 | cyclically consecutive rows differ in exactly two pins |
| RootCameras.LexLeTotal | src/cameras.rs:28 | any two paths are ordered one way or the other |
| RootCameras.LexLeTrans | src/cameras.rs:28 | the path order is transitive |
| RootCameras.LexLeAntisymmetric | src/cameras.rs:28 | paths ordered both ways are equal |
| RootCameras.SortPaths | src/cameras.rs:28 | `files.sort()` leaves the array ascending and a permutation of its old contents |
| RootCameras.InsertLast | src/cameras.rs:28 | one insertion step extends the sorted prefix by one and permutes the array |
| RootCameras.DiskLoaderCamera.constructor | src/cameras.rs:14-18 | `new` hands out exactly the given paths, in the given order |
| RootCameras.DiskLoaderCamera.FromDirectory | src/cameras.rs:20-30 | a failed `read_dir` is returned; otherwise the readable entries, sorted ascending |
| RootCameras.DiskLoaderCamera.GetImage | src/cameras.rs:34-43 | the next path's image, or `None` with nothing changed |
| RootCameras.GetImages | src/cameras.rs:34-43 | n calls return `Some` exactly while paths remain, each path's image once and in order, then `None` forever |
| Draw.CircumferencePoints | scanner_ui/src/draw.rs:4-6 | 360 points, one per degree |
| Draw.Rings | scanner_ui/src/draw.rs:13-16 | n rings hold 360 n points |
| Draw.Tube | scanner_ui/src/draw.rs:36-40 | n side rings hold 360 n points |
| Draw.PointBuffer.Circumference | scanner_ui/src/draw.rs:3-9 | appends the 360 points of the circumference and keeps the earlier contents |
| Draw.PointBuffer.Circle | scanner_ui/src/draw.rs:11-17 | appends the 20 rings of the disc |
| Draw.PointBuffer.Cylinder | scanner_ui/src/draw.rs:29-42 | appends base disc, side rings and top disc |
| Draw.CircumferenceOnCircle | scanner_ui/src/draw.rs:4-6 | with orthonormal v1, v2 and cos^2 + sin^2 = 1, each point is at distance r from the centre |
| Draw.RingsLayout | scanner_ui/src/draw.rs:13-16 | ring s occupies points 360 s .. 360 s + 359 |
| Draw.CircleLayout | scanner_ui/src/draw.rs:11-17 | 7200 points; ring s has radius s r / 20; the first ring is all the centre; radius r is never drawn |
| Draw.TubeLayout | scanner_ui/src/draw.rs:36-40 | side ring s is centred s/20 of the way from the origin to the top |
| Draw.CylinderLayout | scanner_ui/src/draw.rs:29-42 | 21600 points: base disc, 20 side rings, top disc |
| Draw.Segment | scanner_ui/src/draw.rs:19-27 | 20 points at parameters t/20; the first is p1 and p2 is never included unless it equals p1 |
| Draw.LerpReachesEndOnlyAtOne | scanner_ui/src/draw.rs:24 | below parameter 1, `lerp` reaches the far end only when the ends coincide |
| Client.CommandWord | client/src/app.rs:30-34 | the command words hold no ';', and "status" is the Status request's |
| Client.FormatFrame | client/src/app.rs:29-35 | a frame exactly when the payload serialises; a status request is "status;{}" |
| Client.Split | client/src/app.rs:45 | `split(';')` gives at least one piece and no piece holds ';' |
| Client.SplitJoin | client/src/app.rs:45 | joining the pieces with ';' gives the text back |
| Client.SplitWhole | client/src/app.rs:45 | a text with no ';' is one piece |
| Client.SplitFrame | client/src/app.rs:45-47 | field 0 of "cmd;payload" is cmd; field 1 is the payload up to its first ';' |
| Client.FirstPiece | client/src/app.rs:45-47 | the first piece is a prefix, and the whole text exactly when there is no ';' |
| Client.DecodeFrame | client/src/app.rs:44-54 | a text with no ';' panics; the only error is "Unknown command" |
| Client.DecodeFrameFields | client/src/app.rs:44-54 | a text holding ';' is refused with "Unknown command" exactly when field 0 is not "status"; a status text is decoded from field 1, and panics when that fails |
| Client.FrameRoundTrip | client/src/app.rs:35-54 | framing round-trips exactly for payloads without ';'; other commands are refused |
| Client.TryReceiveMessage | client/src/app.rs:42-58 | "No message available" on an empty queue, otherwise the oldest text decoded and removed |
| Client.SendMessage | client/src/app.rs:29-40 | writes "cmd;payload", returns the serialisation failure, and panics when the socket write fails |

## Left out

- Floating point: f32 rounding, NaN propagation, and the values of `to_radians`, `tan`, `cos`, `sin` and `Quat::from_euler`. These are idealised over `real` or kept opaque. The count of 72 scan steps holds in exact arithmetic only.
- `meters_per_px` is assumed non-zero (`ValidCalibration`). The source divides by it unchecked.
- `load_calibration` and every JSON encoding and decoding are left out: they are library code, passed in as functions.
- `Scanner::new` is not modelled in full: building the logger, motor and camera, and logging the camera, is I/O. The constructor takes the built parts.
- The PiCamera driver (server/src/cameras.rs:113-293) is hardware capture and is not part of this model.
- The motors' GPIO pins, `Gpio::new` and the `sleep` between writes are hardware. The model records only the patterns written.
- Logging and telemetry calls are left out: they have no effect on any result.
- Threads, `Arc<Mutex<..>>` and the channel internals are left out. The writer is run after the reader, which gives the same written order because the queue is FIFO. Interleavings are not modelled.
- The UI event loop, the GPU pipeline, the client's egui and WebSocket callbacks, and both `main` entry points are left out.
- Image file reading and decoding are a function parameter.
- Server.HandleConnection: the socket is a finite list of read outcomes, so the loop also ends when the list does; the source waits for the next read.
- Server.Serve: the connection attempts are a finite list, so the accept loop ends when the list does; `server.incoming()` never ends. A failed `TcpListener::bind` (server/src/server.rs:11), which returns its error before any connection, is not modelled.
- Server.DrainQueue: a failed socket write is only logged in the source. The model lists every frame handed to the socket, not whether it arrived.
- ImgProc.DetectLaserPoints: `u32` overflow of `laser_start + laser_end` is not modelled; rows narrower than 2^31 pixels never reach it.
- Scanner.Scanner.Status: the position is a `real`. In f32, adding 1 stops changing the value above 2^24 calls.
- Client.SendMessage: the serde error text is not modelled; the failure carries a fixed message.
- RootCameras.LexLe: `PathBuf` compares component by component. For the entries of one directory, which share the directory prefix and differ in a file name without separators, that equals comparing the texts lexicographically by code point, as modelled.
