/** Messages and states a master exchanges with one vehicle. */
module MasterTypes {
  import opened Common
  import opened Orders

  datatype ConnectionState = ONLINE | OFFLINE | CONNECTIONBROKEN

  datatype AGVState = STATE_UNKNOWN | AVAILABLE | UNAVAILABLE | ERROR

  datatype OperatingMode = AUTOMATIC | SEMIAUTOMATIC | MANUAL | SERVICE | TEACHIN

  datatype EStop = AUTOACK | MANUAL_ACK | REMOTE | NO_STOP

  datatype ActionStatus = WAITING | INITIALIZING | RUNNING | PAUSED | FINISHED | FAILED

  /** The parts of a State message that the master's order handling reads. */
  datatype State = State(
    headerId: uint32,
    orderId: string,
    orderUpdateId: uint32,
    lastNodeId: string,
    lastNodeSequenceId: uint32,
    nodeStates: seq<string>,
    edgeStates: seq<string>,
    actionStates: seq<ActionStatus>,
    newBaseRequest: Option<bool>,
    paused: Option<bool>,
    positionInitialized: Option<bool>,
    operatingMode: OperatingMode,
    eStop: EStop)

  datatype InstantActions = InstantActions(actions: seq<Action>)

  /** The master drives the vehicle only in these modes. */
  predicate MasterInControl(mode: OperatingMode) {
    mode == AUTOMATIC || mode == SEMIAUTOMATIC
  }

  predicate AllActionsTerminal(actions: seq<ActionStatus>) {
    forall i :: 0 <= i < |actions| ==> actions[i] == FINISHED || actions[i] == FAILED
  }
}
