/** The error codes of the protocol that the modelled components use. */
module ErrorCodes {
  const INVALID_PARAM := 1000
  const INVALID_MESSAGE := 1001
  const REQUEST_TIMEOUT := 1002
  const NOT_REGISTERED := 1003
  const MOTION_EXEC_FAILED := 3001
  const EMERGENCY_STOP := 3002
  const ROBOT_BUSY := 3003
  const TARGET_OFFLINE := 4000
}
