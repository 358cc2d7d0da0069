/** Values exchanged with the robot's ROS services: stamped poses
    (geometry_msgs), joint states and the answer of the inverse-kinematics
    service (baxter_core_msgs). Floating-point fields are `real` values that
    the model only compares, never computes with. */
module Messages {

  /** Joint names such as "right_s0" and the angles they are sent to. */
  type JointName = string
  type JointMap = map<JointName, real>

  datatype Point = Point(x: real, y: real, z: real)
  datatype Quaternion = Quaternion(x: real, y: real, z: real, w: real)
  datatype Pose = Pose(position: Point, orientation: Quaternion)

  /** A ROS time stamp; `rospy.Time.now()` is an input of the model. */
  datatype Time = Time(secs: nat, nsecs: nat)
  datatype Header = Header(stamp: Time, frameId: string)
  datatype PoseStamped = PoseStamped(header: Header, pose: Pose)

  /** One joint configuration: parallel sequences of names and angles. */
  datatype JointState = JointState(name: seq<JointName>, position: seq<real>)

  /** The two exception classes the IK round trip is guarded against. */
  datatype RosException = ServiceException | ROSException

  /** What one IK round trip yields, as its caller sees it: the wait for the
      service raised (it gave up after its 5.0 second timeout), the call
      itself raised, or the service answered with one validity flag and one
      joint state per pose of the request. The IK solver is an oracle: its
      answer is an input of the model. */
  datatype IkReply =
    | WaitTimedOut
    | CallRaised(error: RosException)
    | Response(isValid: seq<bool>, joints: seq<JointState>)
}
