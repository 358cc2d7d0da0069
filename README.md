# BasicMove: a verified model of the Baxter "basic poke" controller

This project models the `BasicMove` controller of the cs473 Baxter project
(`cs473_baxter/scripts/basic_poke.py`) in Dafny. The controller drives one arm of
a Baxter robot. It does four things:

- **Pose resolution** (`_find_jp`). It appends a stamped Cartesian pose to the one
  IK request it created at construction, waits for the IK service, sends the
  request, and reads the answer's validity flag at index 0. A set flag gives the
  dictionary `dict(zip(names, positions))` of the answer's first joint state.
  An unset flag, a timed-out wait or a raised service call gives `False`. An
  empty `isValid` list, or a set flag with an empty `joints` list, raises an
  `IndexError` that escapes.
- **Guarded actuation** (`move_to_coords`). It moves the arm only when resolution
  produced a dictionary.
- **Power bookkeeping**. The constructor reads the robot's enabled flag and then
  enables the robot.
- **Shutdown** (`clean_shutdown`). It leaves control mode. It then disables the
  robot only if the robot was disabled at startup and reports enabled now.

The ROS and Baxter libraries become collaborator classes (`baxter.dfy`):

- `RobotEnable` holds the live enabled flag.
- `Limb` is the arm's command interface.
- `IkRequest` holds the shared pose list.
- `IkService` is the service proxy and logs every request it sends.

The power and arm commands go into one `Journal`, so their order across the two
interfaces can be stated. The IK solver is an oracle. Its answer (`IkReply`) is
an input: the wait timed out, the call raised, or a response with `isValid` and
`joints` sequences.

Files:

- `messages.dfy`: the ROS message values.
- `joint_maps.dfy`: `dict(zip(...))`.
- `baxter.dfy`: the collaborators.
- `basic_poke.dfy`: the controller and the script's fixed sequence in `main`.

Floating-point values (coordinates, quaternions, joint angles) are `real`. They
are only compared, never computed with.

Behaviour of the code that a reader might not expect, kept as written:

- **Shared request.** The code keeps one request and appends every pose to it,
  where a fresh request per resolution would send only the new pose. The model
  keeps the accumulation. `StaleAnswer` and `RepeatedPoses` show what it leads to: with a
  service that answers every pose of the request, each resolution after the
  first returns the answer for the *first* pose ever requested.
- **Failure kinds.** The code returns `False` for an IK timeout, a failed call and
  an invalid flag alike, so a caller cannot tell a timeout from an unreachable
  pose. The model conflates them, as the code does.
- **Repeated shutdown.** A second shutdown is not a no-op: the code leaves
  control mode on every call. `ShutdownTwice` proves that two
  shutdowns leave control mode twice but disable at most once, and that the second one leaves the power state as the first left it.
- **Uncaught IndexError.** An answer with an empty `isValid` list, or a set flag
  with an empty `joints` list, raises an `IndexError` that the code does not
  catch. The model carries it as
  `Raises(IndexError)` / `Throws(IndexError)`, and `main` stops at that point.

## Model

| member | source | states |
|---|---|---|
| `JointMaps.DictZip` | cs473_baxter/scripts/basic_poke.py:47 | the dictionary's keys are exactly the names within the zipped prefix; `zip` stops at the shorter of the two sequences |
| `JointMaps.DictZipAtLast` | cs473_baxter/scripts/basic_poke.py:47 | each zipped name maps to the angle paired with its last occurrence |
| `JointMaps.DictZipOfDistinct` | cs473_baxter/scripts/basic_poke.py:47 | with N distinct names and N angles, the dictionary has exactly N entries and each name maps to the angle at its own index |
| `JointMaps.RepeatedNameKeepsLast` | cs473_baxter/scripts/basic_poke.py:47 | a repeated name keeps the angle of its later occurrence |
| `Baxter.RobotEnable.constructor` | cs473_baxter/scripts/basic_poke.py:32 | the power interface starts with the robot's power state as found and attached to the robot's command journal |
| `Baxter.RobotEnable.ChangeExternally` | cs473_baxter/scripts/basic_poke.py:74 | the live flag the shutdown hook re-reads may have been changed by something other than the controller; no command reaches the journal |
| `Baxter.RobotEnable.State` | cs473_baxter/scripts/basic_poke.py:33 | `state().enabled` reports the live flag and changes nothing |
| `Baxter.RobotEnable.Enable` | cs473_baxter/scripts/basic_poke.py:35 | after `enable()` the robot is enabled whatever it was before; one enable command is logged |
| `Baxter.RobotEnable.Disable` | cs473_baxter/scripts/basic_poke.py:76 | after `disable()` the robot is disabled; one disable command is logged |
| `Baxter.Limb.constructor` | cs473_baxter/scripts/basic_poke.py:24 | the limb interface is for the named arm and sends to the robot's command journal |
| `Baxter.Limb.MoveToNeutral` | cs473_baxter/scripts/basic_poke.py:57 | logs exactly one neutral move |
| `Baxter.Limb.MoveToJointPositions` | cs473_baxter/scripts/basic_poke.py:63 | logs exactly one joint move carrying the given map |
| `Baxter.Limb.ExitControlMode` | cs473_baxter/scripts/basic_poke.py:73 | logs exactly one exit from control mode |
| `Baxter.IkRequest.constructor` | cs473_baxter/scripts/basic_poke.py:28 | a new request has no poses |
| `Baxter.IkRequest.Append` | cs473_baxter/scripts/basic_poke.py:39 | `pose_stamp.append` adds the pose at the end and keeps the earlier entries |
| `Baxter.IkService.constructor` | cs473_baxter/scripts/basic_poke.py:27 | the service proxy is bound to the given endpoint and has sent nothing |
| `Baxter.IkService.Call` | cs473_baxter/scripts/basic_poke.py:43 | the proxy sends the request's whole current pose list |
| `BasicPoke.IkServiceName` | cs473_baxter/scripts/basic_poke.py:26 | the endpoint is the limb name between `ExternalTools/` and `/PositionKinematicsNode/IKService` |
| `BasicPoke.IkServiceNameInjective` | cs473_baxter/scripts/basic_poke.py:26 | distinct limbs get distinct IK endpoints |
| `BasicPoke.RightEndpoint` | cs473_baxter/scripts/basic_poke.py:81 | the script's right arm uses `ExternalTools/right/PositionKinematicsNode/IKService` |
| `BasicPoke.AccumulatedAfterAppend` | cs473_baxter/scripts/basic_poke.py:39-43 | appending a pose and then sending the whole list keeps every sent request a non-empty prefix of the shared list, each longer than the one before |
| `BasicPoke.RequestsGrow` | cs473_baxter/scripts/basic_poke.py:28-43 | because the request is shared, the k-th request sent (counting from 0) holds at least k+1 poses, and each request starts with all poses of every earlier one |
| `BasicPoke.ResolveReply` | cs473_baxter/scripts/basic_poke.py:41-54 | a joint map comes out exactly when the answer's flag at index 0 is set (and it has a joint state), and it is the `dict(zip)` of that first joint state; a timed-out wait, a raised call or an unset flag give `False` |
| `BasicPoke.IkSends` | cs473_baxter/scripts/basic_poke.py:42-43 | a round trip sends nothing exactly when the wait for the service timed out, and sends at most one request |
| `BasicPoke.Actuation` | cs473_baxter/scripts/basic_poke.py:62-66 | at most one command follows resolution: the joint move carrying the resolved map, issued whenever there is one (an empty map included) and otherwise nothing |
| `BasicPoke.ShouldDisable` | cs473_baxter/scripts/basic_poke.py:74 | the hook's condition: not enabled at startup and enabled now |
| `BasicPoke.ShutdownCommands` | cs473_baxter/scripts/basic_poke.py:73-76 | the hook's commands in order: exit control mode, then a disable when `ShouldDisable` holds; its properties are stated by `ShutdownOrder` |
| `BasicPoke.ShutdownOrder` | cs473_baxter/scripts/basic_poke.py:71-76 | shutdown leaves control mode first and once; it disables once exactly when the robot was disabled at startup and is enabled now; it never enables |
| `BasicPoke.BasicMove.constructor` | cs473_baxter/scripts/basic_poke.py:23-35 | the IK endpoint is derived from the limb name; the request starts empty; the snapshot equals the power state before `enable()`; exactly one enable is issued, and afterwards the robot is enabled |
| `BasicPoke.BasicMove.FindJp` | cs473_baxter/scripts/basic_poke.py:38-54 | the pose is appended to the shared request; the whole list is sent unless the wait timed out; the result is `ResolveReply` of the answer; no robot command is issued |
| `BasicPoke.BasicMove.SetNeutral` | cs473_baxter/scripts/basic_poke.py:56-57 | issues exactly one neutral move and leaves power state and IK request alone |
| `BasicPoke.BasicMove.MoveToCoords` | cs473_baxter/scripts/basic_poke.py:59-66 | returns true exactly when resolution gave a map, and then sends that map once; returns false exactly on `False`, with no robot command; on an escaping IndexError, no robot command is issued |
| `BasicPoke.BasicMove.MoveToJp` | cs473_baxter/scripts/basic_poke.py:68-69 | forwards the given map unchanged, once, and does not touch the power state |
| `BasicPoke.BasicMove.CleanShutdown` | cs473_baxter/scripts/basic_poke.py:71-76 | records the exit from control mode first, then a disable exactly when `not _init_state` and the robot currently reports enabled; power is on afterwards exactly when it was on before and this call did not disable it |
| `BasicPoke.StaleAnswer` | cs473_baxter/scripts/basic_poke.py:39-44 | with a service that answers each pose, the result of a round trip is the solution of the first pose in the shared request |
| `BasicPoke.RepeatedPoses` | cs473_baxter/scripts/basic_poke.py:38-44 | two resolutions on a fresh controller send `[p1]` and then `[p1, p2]`, and both return the answer for `p1` |
| `BasicPoke.ShutdownTwice` | cs473_baxter/scripts/basic_poke.py:71-76 | a second shutdown leaves control mode again but never disables again; afterwards power is on exactly when it was on before the first call and the first call did not disable it |
| `BasicPoke.RightPose` | cs473_baxter/scripts/basic_poke.py:90-108 | the hard-coded target pose, in frame `base`, stamped with the time given |
| `BasicPoke.InitialJoints` | cs473_baxter/scripts/basic_poke.py:112-120 | the seven hard-coded joint angles of the named pose |
| `BasicPoke.InitialJointsAreRightArm` | cs473_baxter/scripts/basic_poke.py:112-120 | every joint of the named pose is a right-arm joint (`right_` and two characters) |
| `BasicPoke.MainCommands` | cs473_baxter/scripts/basic_poke.py:81-122 | `main` sends two to four commands: first the enable, then the neutral move; it never disables and never leaves control mode |
| `BasicPoke.MainActuatesOnlyResolved` | cs473_baxter/scripts/basic_poke.py:86-122 | every joint move `main` sends is the literal `initial` map or the map of an answer whose index-0 flag was set |
| `BasicPoke.RunMain` | cs473_baxter/scripts/basic_poke.py:78-122 | `main`'s fixed order: enable, neutral, at most one IK request holding the one hard-coded pose, the resolved move if any, then the literal joint move. `move_to_coords` ends with the IndexError exactly when the answer raises it, which skips the literal move; otherwise it returns whether a map was resolved |
| `BasicPoke.PokeSession` | cs473_baxter/scripts/basic_poke.py:78-122 | `main`, any outside change of the power state, then the shutdown hook: exactly one enable; one disable exactly when the robot was disabled at startup and is enabled when the hook runs; power ends on exactly when it was on at startup and at shutdown, so with no outside change the robot ends in its startup power state |
| `BasicPoke.PowerCounts` | cs473_baxter/scripts/basic_poke.py:32-76 | over a whole run, the journal holds exactly one enable, and one disable exactly when the robot started disabled and is enabled when the hook runs |

## Left out

- `cs473_baxter/scripts/webcam.py` is not part of this model. It is camera capture, a GUI loop and file output. As written it does not parse, and its `main` calls a function that does not exist.
- ROS node start-up (`rospy.init_node`) is not modelled. Neither is registering the shutdown hook (`rospy.on_shutdown`) or delivering it asynchronously. `PokeSession` calls the hook as an ordinary method once `main`'s sequence ends, including when an exception escapes `move_to_coords`. No concurrency is modelled.
- The IK solver is not modelled. It is an oracle whose answer the caller supplies.
- The physical motion and blocking behaviour of `baxter_interface` are not modelled. Its commands are recorded in the journal and nothing more.
- The 5.0-second timeout of `wait_for_service` and all timing are left out. A timeout is only one of the possible answers.
- Floating-point content is opaque: values are `real` and are only compared. This covers the hard-coded pose and joint literals. `rospy.Time.now()` is a parameter.
- Console output (`print`, `rospy.logerr`) is left out.
- Failures inside the Baxter library are not modelled: `state()`, `enable()` or `disable()` failing, or the limb or service proxy failing to connect. The source does not catch them, so they would end the script before or outside the modelled steps.
- PokeSession: an outside change of the power state is modelled at one point only, after `main`'s sequence and before the hook. A change before the constructor reads the flag (basic_poke.py line 33) only changes the startup state, which is `robotEnabled`. A change between that read and `enable()` is overwritten by `enable()`. After `enable()` no step of `main` reads the flag, so any later change, including one during `main`, only alters what the hook reads, which is `enabledAtShutdown`.
- IkSends: a `CallRaised` answer is logged as a sent request, so "sent" means the call was attempted. A `ServiceException` may come from a connection that failed before the request left; the model does not tell that case apart.
- `ServiceException` and `ROSException` are modelled as the two exception classes the code catches. Their subclasses are not told apart.
