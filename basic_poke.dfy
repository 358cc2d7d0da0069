/** The BasicMove controller: it resolves a Cartesian pose into joint angles
    through the IK service, moves the limb only when resolution produced a
    joint map, and on shutdown leaves control mode and disables the robot
    again if it found it disabled at startup and it is enabled now.

    The robot's commands are read off the journal its power and limb
    interfaces share; the IK requests off the service proxy's log. */
module BasicPoke {
  import opened Messages
  import opened JointMaps
  import opened Baxter

  // ---------------------------------------------------------------------
  // The IK endpoint name

  const IkServicePrefix := "ExternalTools/"
  const IkServiceSuffix := "/PositionKinematicsNode/IKService"

  /** The IK endpoint of a limb: the limb name between a fixed prefix and a
      fixed suffix. */
  function IkServiceName(limb: string): (s: string)
    ensures |s| == |IkServicePrefix| + |limb| + |IkServiceSuffix|
    ensures s[..|IkServicePrefix|] == IkServicePrefix
    ensures s[|IkServicePrefix|..|s| - |IkServiceSuffix|] == limb
    ensures s[|s| - |IkServiceSuffix|..] == IkServiceSuffix
  {
    IkServicePrefix + limb + IkServiceSuffix
  }

  /** Distinct limbs talk to distinct IK endpoints. */
  lemma IkServiceNameInjective(a: string, b: string)
    requires IkServiceName(a) == IkServiceName(b)
    ensures a == b
  {
    var s := IkServiceName(a);
    assert a == s[|IkServicePrefix|..|s| - |IkServiceSuffix|];
  }

  // ---------------------------------------------------------------------
  // Counting commands in the journal

  /** How many times command c occurs in cmds. */
  function Count(cmds: seq<Command>, c: Command): nat
  {
    if cmds == [] then 0 else (if cmds[0] == c then 1 else 0) + Count(cmds[1..], c)
  }

  /** Counting distributes over concatenation. */
  lemma {:induction false} CountAppend(a: seq<Command>, b: seq<Command>, c: Command)
    ensures Count(a + b, c) == Count(a, c) + Count(b, c)
  {
    if a == [] {
      assert a + b == b;
    } else {
      assert (a + b)[1..] == a[1..] + b;
      CountAppend(a[1..], b, c);
    }
  }

  /** A command occurs exactly when it is counted. */
  lemma {:induction false} CountPositive(cmds: seq<Command>, c: Command)
    ensures Count(cmds, c) > 0 <==> c in cmds
  {
    if cmds != [] {
      CountPositive(cmds[1..], c);
      assert cmds == [cmds[0]] + cmds[1..];
    }
  }

  // ---------------------------------------------------------------------
  // The shared IK request

  /** The i-th request sent is a non-empty prefix of the pose list. */
  ghost predicate SentPrefix(sent: seq<seq<PoseStamped>>, poses: seq<PoseStamped>, i: int)
    requires 0 <= i < |sent|
  {
    0 < |sent[i]| && sent[i] <= poses
  }

  /** The i-th request sent is shorter than the j-th. */
  ghost predicate SentShorter(sent: seq<seq<PoseStamped>>, i: int, j: int)
    requires 0 <= i < j < |sent|
  {
    |sent[i]| < |sent[j]|
  }

  /** The requests sent so far, against the shared pose list: each is a
      non-empty prefix of the list, and each is longer than the one before. */
  ghost predicate Accumulated(sent: seq<seq<PoseStamped>>, poses: seq<PoseStamped>)
  {
    && (forall i {:trigger SentPrefix(sent, poses, i)} :: 0 <= i < |sent| ==> SentPrefix(sent, poses, i))
    && (forall i, j {:trigger SentShorter(sent, i, j)} :: 0 <= i < j < |sent| ==> SentShorter(sent, i, j))
  }

  /** Appending a pose keeps the earlier requests prefixes of the list, and
      sending the whole list next keeps the requests growing. */
  lemma AccumulatedAfterAppend(sent: seq<seq<PoseStamped>>, poses: seq<PoseStamped>, p: PoseStamped)
    requires Accumulated(sent, poses)
    ensures Accumulated(sent, poses + [p])
    ensures Accumulated(sent + [poses + [p]], poses + [p])
  {
    var longer := poses + [p];
    var sent' := sent + [longer];
    forall i | 0 <= i < |sent|
      ensures SentPrefix(sent, longer, i) && SentPrefix(sent', longer, i)
    {
      assert SentPrefix(sent, poses, i);
      assert sent'[i] == sent[i] == longer[..|sent[i]|];
    }
    assert SentPrefix(sent', longer, |sent|);
    forall i, j | 0 <= i < j < |sent'|
      ensures SentShorter(sent', i, j)
    {
      assert SentPrefix(sent, poses, i);
      if j < |sent| {
        assert SentShorter(sent, i, j);
      }
    }
  }

  /** The consequence of sharing one request: the k-th request sent (from 0)
      holds at least k + 1 poses, and every request starts with all the
      poses of every earlier one. */
  lemma {:induction false} RequestsGrow(sent: seq<seq<PoseStamped>>, poses: seq<PoseStamped>)
    requires Accumulated(sent, poses)
    ensures forall i :: 0 <= i < |sent| ==> i < |sent[i]|
    ensures forall i, j :: 0 <= i < j < |sent| ==> sent[i] <= sent[j]
  {
    var n := |sent|;
    if n > 0 {
      var front := sent[..n - 1];
      forall i | 0 <= i < n - 1
        ensures SentPrefix(front, poses, i)
      {
        assert SentPrefix(sent, poses, i);
      }
      forall i, j | 0 <= i < j < n - 1
        ensures SentShorter(front, i, j)
      {
        assert SentShorter(sent, i, j);
      }
      RequestsGrow(front, poses);
      assert forall i :: 0 <= i < n - 1 ==> sent[i] == front[i];
      assert SentPrefix(sent, poses, n - 1);
      if n > 1 {
        assert SentShorter(sent, n - 2, n - 1);
      }
    }
    forall i, j | 0 <= i < j < n
      ensures sent[i] <= sent[j]
    {
      assert SentPrefix(sent, poses, i) && SentPrefix(sent, poses, j) && SentShorter(sent, i, j);
      assert sent[i] == poses[..|sent[i]|] && sent[j] == poses[..|sent[j]|];
    }
  }

  // ---------------------------------------------------------------------
  // Interpreting an IK answer

  datatype PythonError = IndexError

  /** What `_find_jp` gives back: a joint map, `False`, or an exception that
      escapes it (an empty `isValid` or `joints` list is indexed at 0 and
      that IndexError is not caught). */
  datatype FindResult = Joints(joints: JointMap) | NoJoints | Raises(error: PythonError)

  /** The outcome of one round trip of `_find_jp`. A joint map comes only
      from an answer whose flag at index 0 is set, and it is the dictionary
      of that answer's first joint state; a wait that timed out, a call that
      raised and an unset flag all give `False`. */
  function ResolveReply(reply: IkReply): (r: FindResult)
    ensures r.Joints? <==> reply.Response? && |reply.isValid| > 0 && reply.isValid[0] && |reply.joints| > 0
    ensures r.Joints? ==> r.joints == DictZip(reply.joints[0].name, reply.joints[0].position)
    ensures r.NoJoints? <==> !reply.Response? || (|reply.isValid| > 0 && !reply.isValid[0])
  {
    match reply
    case WaitTimedOut => NoJoints
    case CallRaised(_) => NoJoints
    case Response(isValid, joints) =>
      if |isValid| == 0 then Raises(IndexError)
      else if !isValid[0] then NoJoints
      else if |joints| == 0 then Raises(IndexError)
      else Joints(DictZip(joints[0].name, joints[0].position))
  }

  /** The requests one round trip sends: none when the wait timed out,
      otherwise the whole shared pose list. A call that raised counts as
      sent: the request was handed to the proxy, whether or not it left. */
  function IkSends(reply: IkReply, request: seq<PoseStamped>): (sends: seq<seq<PoseStamped>>)
    ensures |sends| <= 1
    ensures sends == [] <==> reply.WaitTimedOut?
  {
    if reply.WaitTimedOut? then [] else [request]
  }

  /** The limb commands `move_to_coords` issues after resolution: the map,
      once, exactly when there is one (an empty map included, since a
      dictionary never equals `False`). */
  function Actuation(f: FindResult): (cmds: seq<Command>)
    ensures |cmds| <= 1
    ensures forall c :: c in cmds ==> f.Joints? && c == Motion(JointPositions(f.joints))
    ensures f.Joints? ==> cmds == [Motion(JointPositions(f.joints))]
  {
    if f.Joints? then [Motion(JointPositions(f.joints))] else []
  }

  /** What `move_to_coords` returns, or the exception that escapes it. */
  datatype CoordsResult = Returns(moved: bool) | Throws(error: PythonError)

  // ---------------------------------------------------------------------
  // Shutdown

  /** `clean_shutdown` disables the robot exactly when it was disabled at
      startup and reports enabled now. */
  function ShouldDisable(initState: bool, enabledNow: bool): bool
  {
    !initState && enabledNow
  }

  /** The commands of `clean_shutdown`, in order. */
  function ShutdownCommands(initState: bool, enabledNow: bool): seq<Command>
  {
    [Motion(ExitControl)] + (if ShouldDisable(initState, enabledNow) then [Power(PowerOff)] else [])
  }

  /** Shutdown leaves control mode first and once; it disables once when
      the robot was disabled at startup and is enabled now, and otherwise
      never; it never enables. */
  lemma ShutdownOrder(initState: bool, enabledNow: bool)
    ensures ShutdownCommands(initState, enabledNow)[0] == Motion(ExitControl)
    ensures Count(ShutdownCommands(initState, enabledNow), Motion(ExitControl)) == 1
    ensures Count(ShutdownCommands(initState, enabledNow), Power(PowerOff)) == (if !initState && enabledNow then 1 else 0)
    ensures Power(PowerOn) !in ShutdownCommands(initState, enabledNow)
  {
    var t := ShutdownCommands(initState, enabledNow);
    CountAppend([Motion(ExitControl)], t[1..], Motion(ExitControl));
    CountAppend([Motion(ExitControl)], t[1..], Power(PowerOff));
    assert t == [Motion(ExitControl)] + t[1..];
  }

  // ---------------------------------------------------------------------
  // The controller

  class BasicMove {
    const journal: Journal
    const limb: Limb
    const ikSrv: string
    const iksvc: IkService
    const ikreq: IkRequest
    const rs: RobotEnable
    /** The robot's enabled flag as read at construction, before `enable()`. */
    const initState: bool

    /** The limb and the power interface log into the controller's journal,
        and the requests sent so far accumulate in the shared request. */
    ghost predicate Valid()
      reads iksvc, ikreq
    {
      && limb.journal == journal
      && rs.journal == journal
      && Accumulated(iksvc.sent, ikreq.poseStamp)
    }

    /** Connects to the limb and its IK endpoint, creates the one request
        every later resolution appends to, snapshots the robot's enabled
        flag and then enables the robot. `robotEnabled` is the robot's power
        state when the controller is created. */
    constructor (limbName: string, robotEnabled: bool)
      ensures Valid()
      ensures fresh(journal) && fresh(limb) && fresh(iksvc) && fresh(ikreq) && fresh(rs)
      ensures limb.name == limbName
      ensures ikSrv == IkServiceName(limbName) && iksvc.name == ikSrv && iksvc.sent == []
      ensures ikreq.poseStamp == []
      ensures initState == robotEnabled
      ensures rs.enabled && journal.commands == [Power(PowerOn)]
    {
      var j := new Journal();
      journal := j;
      limb := new Limb(limbName, j);
      ikSrv := IkServiceName(limbName);
      iksvc := new IkService(IkServiceName(limbName));
      ikreq := new IkRequest();
      var robot := new RobotEnable(robotEnabled, j);
      var e := robot.State();
      rs := robot;
      initState := e;
      new;
      rs.Enable();
    }

    /** `_find_jp`: appends the pose to the shared request, waits for the
        service, sends the request and interprets the answer. It never
        commands the robot. */
    method FindJp(position: PoseStamped, reply: IkReply) returns (r: FindResult)
      requires Valid()
      modifies ikreq, iksvc
      ensures Valid()
      ensures ikreq.poseStamp == old(ikreq.poseStamp) + [position]
      ensures iksvc.sent == old(iksvc.sent) + IkSends(reply, ikreq.poseStamp)
      ensures r == ResolveReply(reply)
    {
      AccumulatedAfterAppend(iksvc.sent, ikreq.poseStamp, position);
      ikreq.Append(position);
      match reply
      case WaitTimedOut =>
        r := NoJoints;
      case CallRaised(_) =>
        iksvc.Call(ikreq);
        r := NoJoints;
      case Response(isValid, joints) =>
        iksvc.Call(ikreq);
        if |isValid| == 0 {
          r := Raises(IndexError);
        } else if isValid[0] {
          if |joints| == 0 {
            r := Raises(IndexError);
          } else {
            r := Joints(DictZip(joints[0].name, joints[0].position));
          }
        } else {
          r := NoJoints;
        }
    }

    /** `set_neutral`: forwards one neutral move and nothing else. */
    method SetNeutral()
      requires Valid()
      modifies journal
      ensures Valid()
      ensures journal.commands == old(journal.commands) + [Motion(Neutral)]
    {
      limb.MoveToNeutral();
    }

    /** `move_to_coords`: resolves the pose and moves the limb only to a
        resolved map; returns whether it moved. */
    method MoveToCoords(pose: PoseStamped, reply: IkReply) returns (o: CoordsResult)
      requires Valid()
      modifies ikreq, iksvc, journal
      ensures Valid()
      ensures ikreq.poseStamp == old(ikreq.poseStamp) + [pose]
      ensures iksvc.sent == old(iksvc.sent) + IkSends(reply, ikreq.poseStamp)
      ensures o == Returns(true) <==> ResolveReply(reply).Joints?
      ensures o == Returns(false) <==> ResolveReply(reply).NoJoints?
      ensures ResolveReply(reply).Raises? ==> o == Throws(ResolveReply(reply).error)
      ensures journal.commands == old(journal.commands) + Actuation(ResolveReply(reply))
    {
      var limbJoints := FindJp(pose, reply);
      match limbJoints
      case Joints(m) =>
        limb.MoveToJointPositions(m);
        o := Returns(true);
      case NoJoints =>
        o := Returns(false);
      case Raises(e) =>
        o := Throws(e);
    }

    /** `move_to_jp`: forwards the given map unchanged. */
    method MoveToJp(position: JointMap)
      requires Valid()
      modifies journal
      ensures Valid()
      ensures journal.commands == old(journal.commands) + [Motion(JointPositions(position))]
    {
      limb.MoveToJointPositions(position);
    }

    /** `clean_shutdown`: leaves control mode, then disables the robot only
        when it was disabled at startup and is enabled now. */
    method CleanShutdown()
      requires Valid()
      modifies journal, rs
      ensures Valid()
      ensures journal.commands == old(journal.commands) + ShutdownCommands(initState, old(rs.enabled))
      ensures rs.enabled == (old(rs.enabled) && !ShouldDisable(initState, old(rs.enabled)))
    {
      limb.ExitControlMode();
      var enabled := rs.State();
      if !initState && enabled {
        rs.Disable();
      }
    }
  }

  // ---------------------------------------------------------------------
  // The shared request, seen through an IK service that answers each pose

  /** A solver's answer for one pose. */
  datatype Solution = Unsolvable | Solved(joints: JointState)

  /** The answer of a service that solves every pose of the request with
      `solve`, one flag and one joint state per pose. */
  function HonestReply(solve: PoseStamped -> Solution, request: seq<PoseStamped>): IkReply
  {
    Response(seq(|request|, i requires 0 <= i < |request| => solve(request[i]).Solved?),
             seq(|request|, i requires 0 <= i < |request| =>
               match solve(request[i]) case Solved(j) => j case Unsolvable => JointState([], [])))
  }

  /** What `_find_jp` gives for a request holding only this solution. */
  function Answer(s: Solution): FindResult
  {
    match s
    case Unsolvable => NoJoints
    case Solved(j) => Joints(DictZip(j.name, j.position))
  }

  /** Because index 0 is read, the outcome of a round trip is the solution
      of the FIRST pose of the shared request, whatever was appended after. */
  lemma StaleAnswer(solve: PoseStamped -> Solution, request: seq<PoseStamped>)
    requires |request| > 0
    ensures ResolveReply(HonestReply(solve, request)) == Answer(solve(request[0]))
  {
  }

  /** Two resolutions on a fresh controller: the request grows to both
      poses, both are sent in full, and the second answer is the first
      pose's. */
  method RepeatedPoses(bm: BasicMove, first: PoseStamped, second: PoseStamped, solve: PoseStamped -> Solution)
    returns (r1: FindResult, r2: FindResult)
    requires bm.Valid() && bm.ikreq.poseStamp == []
    modifies bm.ikreq, bm.iksvc
    ensures bm.Valid()
    ensures bm.ikreq.poseStamp == [first, second]
    ensures bm.iksvc.sent == old(bm.iksvc.sent) + [[first], [first, second]]
    ensures r1 == Answer(solve(first)) && r2 == Answer(solve(first))
  {
    StaleAnswer(solve, [first]);
    r1 := bm.FindJp(first, HonestReply(solve, [first]));
    assert bm.ikreq.poseStamp == [first];
    StaleAnswer(solve, [first, second]);
    r2 := bm.FindJp(second, HonestReply(solve, [first, second]));
    assert bm.ikreq.poseStamp == [first, second];
  }

  /** Shutting down twice leaves control mode twice but disables at most
      once: after the first call the robot is disabled or was enabled at
      startup. */
  method ShutdownTwice(bm: BasicMove)
    requires bm.Valid()
    modifies bm.journal, bm.rs
    ensures bm.Valid()
    ensures bm.journal.commands == old(bm.journal.commands)
              + ShutdownCommands(bm.initState, old(bm.rs.enabled)) + [Motion(ExitControl)]
    ensures bm.rs.enabled == (old(bm.rs.enabled) && !ShouldDisable(bm.initState, old(bm.rs.enabled)))
  {
    bm.CleanShutdown();
    bm.CleanShutdown();
  }

  // ---------------------------------------------------------------------
  // The script's fixed sequence

  const RightLimb := "right"

  /** The script's arm talks to the right arm's IK endpoint. */
  lemma RightEndpoint()
    ensures IkServiceName(RightLimb) == "ExternalTools/right/PositionKinematicsNode/IKService"
  {
    assert IkServicePrefix + "right" + IkServiceSuffix == "ExternalTools/right/PositionKinematicsNode/IKService";
  }

  /** The hard-coded target pose, stamped with the current time in frame
      "base". */
  function RightPose(now: Time): PoseStamped
  {
    PoseStamped(
      Header(now, "base"),
      Pose(Point(0.656982770038, -0.852598021641, 0.0388609422173),
           Quaternion(0.367048116303, 0.885911751787, -0.108908281936, 0.261868353356)))
  }

  /** The hard-coded joint positions of the named-pose move. */
  function InitialJoints(): (m: JointMap)
    ensures |m| == 7
  {
    map["right_s0" := 0.573325318817,
        "right_s1" := -0.268063142377,
        "right_w0" := -0.125786424463,
        "right_w1" := -1.48872835294,
        "right_w2" := -0.299509748492,
        "right_e0" := 0.322135965088,
        "right_e1" := 1.90060219402]
  }

  /** The named pose sets the seven joints of the right arm and no other. */
  lemma InitialJointsAreRightArm()
    ensures forall k :: k in InitialJoints() ==> |k| == 8 && k[..6] == "right_"
  {
  }

  /** The commands `main` sends for one IK answer: enable, neutral, the
      resolved move if any, then the named-pose move, which is skipped when
      an exception escapes `move_to_coords`. */
  function MainCommands(reply: IkReply): (cmds: seq<Command>)
    ensures 2 <= |cmds| <= 4
    ensures cmds[0] == Power(PowerOn) && cmds[1] == Motion(Neutral)
    ensures Power(PowerOff) !in cmds && Motion(ExitControl) !in cmds
  {
    [Power(PowerOn), Motion(Neutral)] + Actuation(ResolveReply(reply))
    + (if ResolveReply(reply).Raises? then [] else [Motion(JointPositions(InitialJoints()))])
  }

  /** In `main`, every joint move is either the literal named pose or the
      map of an answer whose flag at index 0 was set. */
  lemma MainActuatesOnlyResolved(reply: IkReply, m: JointMap)
    requires Motion(JointPositions(m)) in MainCommands(reply)
    ensures m == InitialJoints()
            || (reply.Response? && |reply.isValid| > 0 && reply.isValid[0] && |reply.joints| > 0
                && m == DictZip(reply.joints[0].name, reply.joints[0].position))
  {
  }

  /** `main`, up to the end of its fixed sequence. `robotEnabled` is the
      robot's power state at startup, `now` the time stamp of the target
      pose, `reply` the IK service's answer. */
  method RunMain(robotEnabled: bool, now: Time, reply: IkReply) returns (bm: BasicMove, o: CoordsResult)
    ensures fresh(bm) && fresh(bm.journal) && fresh(bm.rs) && fresh(bm.ikreq) && fresh(bm.iksvc)
    ensures bm.Valid()
    ensures bm.initState == robotEnabled && bm.rs.enabled
    ensures bm.ikSrv == "ExternalTools/right/PositionKinematicsNode/IKService"
    ensures bm.ikreq.poseStamp == [RightPose(now)]
    ensures bm.iksvc.sent == IkSends(reply, [RightPose(now)])
    ensures o == if ResolveReply(reply).Raises? then Throws(IndexError) else Returns(ResolveReply(reply).Joints?)
    ensures bm.journal.commands == MainCommands(reply)
  {
    RightEndpoint();
    bm := new BasicMove(RightLimb, robotEnabled);
    bm.SetNeutral();
    o := bm.MoveToCoords(RightPose(now), reply);
    if o.Returns? {
      bm.MoveToJp(InitialJoints());
    }
  }

  /** The whole run: `main`, then whatever else changes the robot's power
      state before the hook runs (`enabledAtShutdown` is the flag the hook
      reads), then the shutdown hook. The robot is enabled exactly once; it
      is disabled once exactly when it was disabled at startup and is
      enabled at shutdown, and never otherwise. */
  method PokeSession(robotEnabled: bool, now: Time, reply: IkReply, enabledAtShutdown: bool)
    returns (bm: BasicMove)
    ensures fresh(bm) && bm.Valid()
    ensures bm.journal.commands == MainCommands(reply) + ShutdownCommands(robotEnabled, enabledAtShutdown)
    ensures Count(bm.journal.commands, Power(PowerOn)) == 1
    ensures Count(bm.journal.commands, Power(PowerOff)) == if !robotEnabled && enabledAtShutdown then 1 else 0
    ensures bm.rs.enabled == (robotEnabled && enabledAtShutdown)
    ensures enabledAtShutdown ==> bm.rs.enabled == robotEnabled
  {
    var o;
    bm, o := RunMain(robotEnabled, now, reply);
    bm.rs.ChangeExternally(enabledAtShutdown);
    bm.CleanShutdown();
    PowerCounts(reply, robotEnabled, enabledAtShutdown);
  }

  /** The power commands of a whole run: one enable, and one disable
      exactly when the robot was disabled at startup and is enabled when
      the hook runs. */
  lemma PowerCounts(reply: IkReply, robotEnabled: bool, enabledAtShutdown: bool)
    ensures Count(MainCommands(reply) + ShutdownCommands(robotEnabled, enabledAtShutdown), Power(PowerOn)) == 1
    ensures Count(MainCommands(reply) + ShutdownCommands(robotEnabled, enabledAtShutdown), Power(PowerOff))
            == if !robotEnabled && enabledAtShutdown then 1 else 0
  {
    var f := ResolveReply(reply);
    var named: seq<Command> := if f.Raises? then [] else [Motion(JointPositions(InitialJoints()))];
    var parts := [Power(PowerOn), Motion(Neutral)] + Actuation(f) + named;
    var tail := ShutdownCommands(robotEnabled, enabledAtShutdown);
    forall c | c == Power(PowerOn) || c == Power(PowerOff)
      ensures Count(parts + tail, c) == (if c == Power(PowerOn) then 1 else 0) + Count(tail, c)
    {
      CountAppend(parts, tail, c);
      CountAppend([Power(PowerOn), Motion(Neutral)] + Actuation(f), named, c);
      CountAppend([Power(PowerOn), Motion(Neutral)], Actuation(f), c);
      assert [Power(PowerOn), Motion(Neutral)][1..] == [Motion(Neutral)] && [Motion(Neutral)][1..] == [];
      assert Count([Power(PowerOn), Motion(Neutral)], c) == (if c == Power(PowerOn) then 1 else 0);
      assert Actuation(f) == [] || Actuation(f)[1..] == [];
      assert named == [] || named[1..] == [];
    }
    ShutdownOrder(robotEnabled, enabledAtShutdown);
    CountPositive(tail, Power(PowerOn));
  }
}
