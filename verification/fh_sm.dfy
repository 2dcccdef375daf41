/**
 * The table-driven state machine of the frequency-hopping module
 * (wisunfan_mac/fh/fh_sm.c): `FHSM_event` looks the (state, event) cell up
 * in a flattened state/event matrix, moves to the cell's next state and
 * runs the cell's action; `FSM_transaction_debug` records state changes in
 * a ring of 16-bit (state, event) words.
 *
 * Actions are named, not run: `Event` returns the action of the cell it
 * used, and what the action does to the radio is not part of this model.
 */
module FhStateMachine {
  import Arith

  /** `FHAPI_status` as far as these functions return it. */
  datatype FhStatus = Success | Err

  /** The action functions the FH matrix refers to. */
  datatype Action =
    | UpdateRadioUcChannel   // FHMGR_updateRadioUCChannel
    | UpdateRadioBcChannel   // FHMGR_updateRadioBCChannel
    | PendUcChUpdate         // FHMGR_pendUcChUpdate
    | PendBcChUpdate         // FHMGR_pendBcChUpdate
    | UpdateHopping          // FHMGR_updateHopping
    | ProcAsyncReq           // FHDATA_procASYNCReq
    | StartEdfeReq           // FHDATA_startEDFEReq
    | ProcEdfeReq            // FHDATA_procEDFEReq
    | RequeuePkt             // FHDATA_requeuePkt
    | NoAction               // FHUTIL_noAction
    | Assert                 // FHUTIL_assert

  /** `FSM_actionCell_t`: where an event leads and what it runs. */
  datatype Cell = Cell(nextState: nat, action: Action)

  /** The 16-bit debug word for a state change: the low byte of the state
      over the low byte of the event. */
  function DebugEntry(state: nat, event: nat): (w: nat)
    ensures w < 0x1_0000
  {
    (state % 0x100) * 0x100 + event % 0x100
  }

  /** A debug word gives back the state and event it recorded, when both
      fit in a byte. */
  lemma {:induction false} DebugEntryDecode(state: nat, event: nat)
    requires state < 0x100 && event < 0x100
    ensures DebugEntry(state, event) / 0x100 == state && DebugEntry(state, event) % 0x100 == event
  {
    var w := DebugEntry(state, event);
    assert w == state * 0x100 + event;
  }

  /** The next index of the debug ring: one on, back to 0 at the end. */
  function NextDebugIndex(idx: nat, size: nat): (r: nat)
    requires idx < size
    ensures r < size
    ensures r == 0 <==> idx == size - 1
    ensures r != 0 ==> r == idx + 1
  {
    if idx + 1 >= size then 0 else idx + 1
  }

  /** `FHFSM_debugBuffer_t`: a ring of debug words and its write index. */
  class DebugBuffer {
    const stateEvt: array<nat>
    var idx: nat

    ghost predicate Valid()
      reads this
    {
      0 < stateEvt.Length && idx < stateEvt.Length
    }

    /** A zero-initialised ring of `size` entries. */
    constructor (size: nat)
      requires 0 < size
      ensures Valid() && fresh(stateEvt) && stateEvt.Length == size && idx == 0
    {
      stateEvt := new nat[size](_ => 0);
      idx := 0;
    }

    /**
     * `FSM_transaction_debug`: store the (state, event) word at the write
     * index and advance it, wrapping to 0 at the ring size. Always
     * succeeds.
     */
    method Record(currState: nat, event: nat) returns (status: FhStatus)
      requires Valid()
      modifies this`idx, stateEvt
      ensures Valid() && status == Success
      ensures stateEvt[..] == old(stateEvt[..])[old(idx) := DebugEntry(currState, event)]
      ensures idx == NextDebugIndex(old(idx), stateEvt.Length)
    {
      var i := idx;
      var temp := event % 0x100;
      temp := temp + (currState % 0x100) * 0x100;
      stateEvt[i] := temp;
      i := i + 1;
      if i >= stateEvt.Length {
        i := 0;
      }
      idx := i;
      return Success;
    }
  }

  /**
   * `FSM_stateMachine_t`: the flattened matrix (row `s` holds the cells of
   * state `s`, one per event), its dimensions, the previous and current
   * state, and the optional transition hook, which in this model is the
   * debug recorder (`traced`).
   */
  class StateMachine {
    const matrix: seq<Cell>
    const maxStates: nat
    const maxEvents: nat
    var previousState: nat
    var currentState: nat
    const traced: bool
    const debug: DebugBuffer

    ghost predicate Valid()
      reads this, debug
    {
      |matrix| == maxStates * maxEvents && debug.Valid()
    }

    constructor (m: seq<Cell>, states: nat, events: nat, initial: nat, hook: bool, dbg: DebugBuffer)
      requires |m| == states * events && dbg.Valid()
      ensures Valid()
      ensures matrix == m && maxStates == states && maxEvents == events && traced == hook && debug == dbg
      ensures previousState == initial && currentState == initial
    {
      matrix, maxStates, maxEvents, traced, debug := m, states, events, hook, dbg;
      previousState, currentState := initial, initial;
    }

    /** The cell of the current state for `event`. */
    function CellFor(event: nat): (c: Cell)
      reads this, debug
      requires Valid() && currentState < maxStates && event < maxEvents
      ensures c in matrix
    {
      Arith.RowMajorIndex(currentState, event, maxStates, maxEvents);
      matrix[currentState * maxEvents + event]
    }

    /**
     * `FHSM_event`: an out-of-range state or event is an error and changes
     * nothing. Otherwise, when the state changed on the previous event and
     * a hook is installed, the hook records (current state, event); then
     * the previous state becomes the current one, the current state
     * becomes the cell's next state, and the cell's action is returned.
     */
    method Event(event: nat) returns (status: FhStatus, action: Action)
      requires Valid()
      modifies this`previousState, this`currentState, debug`idx, debug.stateEvt
      ensures Valid()
      ensures old(currentState) >= maxStates || event >= maxEvents ==>
        status == Err && previousState == old(previousState) && currentState == old(currentState)
        && debug.idx == old(debug.idx) && debug.stateEvt[..] == old(debug.stateEvt[..])
      ensures old(currentState) < maxStates && event < maxEvents ==>
        status == Success
        && previousState == old(currentState)
        && currentState == old(CellFor(event)).nextState
        && action == old(CellFor(event)).action
      ensures old(currentState) < maxStates && event < maxEvents && traced && old(currentState) != old(previousState) ==>
        debug.stateEvt[..] == old(debug.stateEvt[..])[old(debug.idx) := DebugEntry(old(currentState), event)]
        && debug.idx == NextDebugIndex(old(debug.idx), debug.stateEvt.Length)
      ensures !(traced && old(currentState) != old(previousState)) ==>
        debug.idx == old(debug.idx) && debug.stateEvt[..] == old(debug.stateEvt[..])
    {
      if currentState >= maxStates || event >= maxEvents {
        return Err, NoAction;
      }
      if currentState != previousState {
        if traced {
          var _ := debug.Record(currentState, event);
        }
      }
      previousState := currentState;
      var cell := CellFor(event);
      currentState := cell.nextState;
      return Success, cell.action;
    }
  }
}
