/** The collaborators the controller talks to: the robot's power interface
    (baxter_interface.RobotEnable), one limb's actuation interface
    (baxter_interface.Limb), the IK request object with its pose list, and
    the IK service proxy. The robot's two interfaces log the commands they
    receive in one shared journal, so their relative order is kept; the IK
    proxy logs the requests it sends. The physical effect of a command is
    not modelled. */
module Baxter {
  import opened Messages

  datatype PowerCommand = PowerOn | PowerOff
  datatype LimbCommand = Neutral | JointPositions(positions: JointMap) | ExitControl

  /** A command received by the robot: to its power interface or to the arm. */
  datatype Command = Power(power: PowerCommand) | Motion(motion: LimbCommand)

  /** Every command the robot received, in the order it received them,
      whichever interface it came through. */
  class Journal {
    var commands: seq<Command>

    constructor ()
      ensures commands == []
    {
      commands := [];
    }
  }

  /** The robot's power state: the live enabled flag. Enable and disable
      commands are logged in the journal. */
  class RobotEnable {
    var enabled: bool
    const journal: Journal

    constructor (enabled: bool, journal: Journal)
      ensures this.enabled == enabled && this.journal == journal
    {
      this.enabled := enabled;
      this.journal := journal;
    }

    /** `state().enabled`: reads the live flag, without changing anything. */
    method State() returns (e: bool)
      ensures e == enabled
    {
      e := enabled;
    }

    /** `enable()`: afterwards the robot is enabled, whatever it was before. */
    method Enable()
      modifies this, journal
      ensures enabled && journal.commands == old(journal.commands) + [Power(PowerOn)]
    {
      enabled := true;
      journal.commands := journal.commands + [Power(PowerOn)];
    }

    /** The power state changed by something other than this controller
        (an e-stop, another node); nothing reaches the journal. */
    method ChangeExternally(e: bool)
      modifies this
      ensures enabled == e
    {
      enabled := e;
    }

    /** `disable()`: afterwards the robot is disabled. */
    method Disable()
      modifies this, journal
      ensures !enabled && journal.commands == old(journal.commands) + [Power(PowerOff)]
    {
      enabled := false;
      journal.commands := journal.commands + [Power(PowerOff)];
    }
  }

  /** One arm's actuation interface; its commands are logged in the journal. */
  class Limb {
    const name: string
    const journal: Journal

    constructor (name: string, journal: Journal)
      ensures this.name == name && this.journal == journal
    {
      this.name := name;
      this.journal := journal;
    }

    /** `move_to_neutral()` */
    method MoveToNeutral()
      modifies journal
      ensures journal.commands == old(journal.commands) + [Motion(Neutral)]
    {
      journal.commands := journal.commands + [Motion(Neutral)];
    }

    /** `move_to_joint_positions(positions)` */
    method MoveToJointPositions(positions: JointMap)
      modifies journal
      ensures journal.commands == old(journal.commands) + [Motion(JointPositions(positions))]
    {
      journal.commands := journal.commands + [Motion(JointPositions(positions))];
    }

    /** `exit_control_mode()` */
    method ExitControlMode()
      modifies journal
      ensures journal.commands == old(journal.commands) + [Motion(ExitControl)]
    {
      journal.commands := journal.commands + [Motion(ExitControl)];
    }
  }

  /** `SolvePositionIKRequest`: a mutable list of stamped poses. */
  class IkRequest {
    var poseStamp: seq<PoseStamped>

    constructor ()
      ensures poseStamp == []
    {
      poseStamp := [];
    }

    /** `pose_stamp.append(p)` */
    method Append(p: PoseStamped)
      modifies this
      ensures poseStamp == old(poseStamp) + [p]
    {
      poseStamp := poseStamp + [p];
    }
  }

  /** `rospy.ServiceProxy` for the IK service: its endpoint name and the
      pose lists of the requests sent through it, in order. */
  class IkService {
    const name: string
    var sent: seq<seq<PoseStamped>>

    constructor (name: string)
      ensures this.name == name && sent == []
    {
      this.name := name;
      sent := [];
    }

    /** Sends the request's current pose list. The answer is the oracle's
        and is handed to the caller separately. */
    method Call(request: IkRequest)
      modifies this
      ensures sent == old(sent) + [request.poseStamp]
    {
      sent := sent + [request.poseStamp];
    }
  }
}
