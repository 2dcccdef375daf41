/**
 * The frequency-hopping state/event matrix `FH_stateMatrix` and the state
 * machine instance `FH_FSM` (wisunfan_mac/fh/fh_global.c). States and
 * events are numbered in the order of the matrix rows and columns.
 */
module FhGlobal {
  import opened FhStateMachine

  const ST_HOP: nat := 0
  const ST_TX: nat := 1
  const ST_RX: nat := 2
  const ST_ASYNC: nat := 3
  const ST_EDFE: nat := 4
  const NUM_STATES: nat := 5

  const EVT_UC_TIMER: nat := 0
  const EVT_BC_TIMER: nat := 1
  const EVT_RX_START: nat := 2
  const EVT_RX_DONE: nat := 3
  const EVT_TX_START: nat := 4
  const EVT_TX_DONE: nat := 5
  const EVT_ASYNC_START: nat := 6
  const EVT_ASYNC_DONE: nat := 7
  const EVT_EDFE_START: nat := 8
  const EVT_EDFE_RCV: nat := 9
  const EVT_EDFE_FIN: nat := 10
  const NUM_EVENTS: nat := 11

  /** The row of `FH_stateMatrix` for one state, one cell per event. */
  function Row(state: nat): (row: seq<Cell>)
    requires state < NUM_STATES
    ensures |row| == NUM_EVENTS
  {
    if state == ST_HOP then
      [Cell(ST_HOP, UpdateRadioUcChannel), Cell(ST_HOP, UpdateRadioBcChannel),
       Cell(ST_RX, NoAction), Cell(ST_HOP, Assert),
       Cell(ST_TX, NoAction), Cell(ST_HOP, Assert),
       Cell(ST_ASYNC, ProcAsyncReq), Cell(ST_HOP, Assert),
       Cell(ST_EDFE, StartEdfeReq), Cell(ST_EDFE, ProcEdfeReq),
       Cell(ST_HOP, NoAction)]
    else if state == ST_TX then
      [Cell(ST_TX, PendUcChUpdate), Cell(ST_TX, PendBcChUpdate),
       Cell(ST_TX, Assert), Cell(ST_TX, Assert),
       Cell(ST_TX, Assert), Cell(ST_HOP, UpdateHopping),
       Cell(ST_TX, Assert), Cell(ST_TX, Assert),
       Cell(ST_TX, NoAction), Cell(ST_TX, Assert),
       Cell(ST_TX, Assert)]
    else if state == ST_RX then
      [Cell(ST_RX, PendUcChUpdate), Cell(ST_RX, PendBcChUpdate),
       Cell(ST_RX, Assert), Cell(ST_HOP, UpdateHopping),
       Cell(ST_RX, Assert), Cell(ST_RX, Assert),
       Cell(ST_RX, RequeuePkt), Cell(ST_RX, Assert),
       Cell(ST_RX, NoAction), Cell(ST_EDFE, ProcEdfeReq),
       Cell(ST_RX, Assert)]
    else if state == ST_ASYNC then
      [Cell(ST_ASYNC, PendUcChUpdate), Cell(ST_ASYNC, PendBcChUpdate),
       Cell(ST_ASYNC, NoAction), Cell(ST_ASYNC, NoAction),
       Cell(ST_ASYNC, Assert), Cell(ST_ASYNC, ProcAsyncReq),
       Cell(ST_ASYNC, Assert), Cell(ST_HOP, UpdateHopping),
       Cell(ST_ASYNC, Assert), Cell(ST_ASYNC, Assert),
       Cell(ST_ASYNC, Assert)]
    else
      [Cell(ST_EDFE, PendUcChUpdate), Cell(ST_EDFE, PendBcChUpdate),
       Cell(ST_EDFE, NoAction), Cell(ST_EDFE, NoAction),
       Cell(ST_EDFE, NoAction), Cell(ST_EDFE, NoAction),
       Cell(ST_EDFE, RequeuePkt), Cell(ST_EDFE, Assert),
       Cell(ST_EDFE, NoAction), Cell(ST_EDFE, ProcEdfeReq),
       Cell(ST_HOP, UpdateHopping)]
  }

  /** `FH_stateMatrix` flattened row by row, as `FHSM_event` indexes it. */
  function Matrix(): (m: seq<Cell>)
    ensures |m| == NUM_STATES * NUM_EVENTS
  {
    Row(ST_HOP) + Row(ST_TX) + Row(ST_RX) + Row(ST_ASYNC) + Row(ST_EDFE)
  }

  /** The flattened matrix holds row `s` at offset `s * NUM_EVENTS`. */
  lemma MatrixAt(s: nat, e: nat)
    requires s < NUM_STATES && e < NUM_EVENTS
    ensures Matrix()[s * NUM_EVENTS + e] == Row(s)[e]
  {
  }

  /** Every cell leads to one of the five states: the FH machine never
      reaches a state its bounds check would refuse. */
  lemma {:induction false} MatrixClosed(s: nat, e: nat)
    requires s < NUM_STATES && e < NUM_EVENTS
    ensures Matrix()[s * NUM_EVENTS + e].nextState < NUM_STATES
  {
    MatrixAt(s, e);
  }

  /** From HOP, TX_START goes to TX, RX_START to RX, and the channel timers
      keep hopping while they retune the radio. */
  lemma HopTransitions()
    ensures Row(ST_HOP)[EVT_TX_START].nextState == ST_TX
    ensures Row(ST_HOP)[EVT_RX_START].nextState == ST_RX
    ensures Row(ST_HOP)[EVT_UC_TIMER] == Cell(ST_HOP, UpdateRadioUcChannel)
    ensures Row(ST_HOP)[EVT_BC_TIMER] == Cell(ST_HOP, UpdateRadioBcChannel)
  {
  }

  /** The event that ends each activity returns the machine to HOP. */
  lemma DoneReturnsToHop()
    ensures Row(ST_TX)[EVT_TX_DONE] == Cell(ST_HOP, UpdateHopping)
    ensures Row(ST_RX)[EVT_RX_DONE] == Cell(ST_HOP, UpdateHopping)
    ensures Row(ST_ASYNC)[EVT_ASYNC_DONE] == Cell(ST_HOP, UpdateHopping)
    ensures Row(ST_EDFE)[EVT_EDFE_FIN] == Cell(ST_HOP, UpdateHopping)
  {
  }

  /** Outside HOP a channel timer never changes the state; it only marks
      the channel update as pending. */
  lemma TimersOnlyPend(s: nat)
    requires ST_HOP < s < NUM_STATES
    ensures Row(s)[EVT_UC_TIMER] == Cell(s, PendUcChUpdate)
    ensures Row(s)[EVT_BC_TIMER] == Cell(s, PendBcChUpdate)
  {
  }

  /**
   * `FH_FSM`: the FH matrix with its dimensions, starting (and having
   * been) in HOP, with `FSM_transaction_debug` as the transition hook.
   */
  method NewFhFsm(dbg: DebugBuffer) returns (fsm: StateMachine)
    requires dbg.Valid()
    ensures fresh(fsm) && fsm.Valid()
    ensures fsm.matrix == Matrix() && fsm.maxStates == NUM_STATES && fsm.maxEvents == NUM_EVENTS
    ensures fsm.currentState == ST_HOP && fsm.previousState == ST_HOP && fsm.traced && fsm.debug == dbg
  {
    fsm := new StateMachine(Matrix(), NUM_STATES, NUM_EVENTS, ST_HOP, true, dbg);
  }

  /**
   * Driving the FH machine with any event keeps it in one of its five
   * states, and a valid event moves it along the matrix.
   */
  method FhEvent(fsm: StateMachine, event: nat) returns (status: FhStatus, action: Action)
    requires fsm.Valid() && fsm.matrix == Matrix() && fsm.maxStates == NUM_STATES && fsm.maxEvents == NUM_EVENTS
    requires fsm.currentState < NUM_STATES
    modifies fsm`previousState, fsm`currentState, fsm.debug`idx, fsm.debug.stateEvt
    ensures fsm.Valid() && fsm.currentState < NUM_STATES
    ensures status == Success <==> event < NUM_EVENTS
    ensures event < NUM_EVENTS ==>
      fsm.previousState == old(fsm.currentState) && Cell(fsm.currentState, action) == Row(old(fsm.currentState))[event]
  {
    ghost var s := fsm.currentState;
    if event < NUM_EVENTS {
      MatrixClosed(s, event);
      MatrixAt(s, event);
    }
    status, action := fsm.Event(event);
  }
}
