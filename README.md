# Finite-state machine with undo and redo, in Dafny

This project models the `FSM` class of `src/fsm.js`: a state machine built
from a configuration (an initial state and, per state, a table from event
names to destination states) that tracks an active state, moves on named
events or by a direct jump, and keeps a back-history and a forward-history so
that state changes can be undone and redone.

The model has three modules.

- `FsmSpec` (`fsm_spec.dfy`) is the machine as values. `Config` is the
  configuration, with an explicit `order` listing the state names as they
  were declared. `History` holds the three mutable fields: `state`, `back`
  (the source's `prevState`) and `forward` (the source's `nextState`), each
  stack with its top at the end. There is one function per operation (`Init`,
  `ChangeState`, `Trigger`, `Reset`, `GetStates`, `Undo`, `Redo`,
  `ClearHistory`), each with a contract stating the call's effect and its
  error case. The lemmas relate them: undo and redo as inverses, a
  "timeline" along which undo and redo move a cursor, and the invariant that
  every state held is declared. Throws become the
  `Result`'s `Err` with one of `ConfigError`, `UnknownStateError` or
  `UnknownEventError`.
- `Fsm` (`fsm.dfy`) is the class `FSM`, with the configuration as a constant
  field and `state`, `prevState` and `nextState` as fields that the methods
  update in place. `Valid()` is the object invariant. Each method states its
  new fields directly and also in terms of the matching `FsmSpec` function
  applied to the old fields, so the lemmas of `FsmSpec` apply to the object.
  A call that throws in the source returns `Failed(error)` and leaves every
  field as it was. `Create` models the constructor's refusal of a missing
  configuration.
- `FsmScenarios` (`scenarios.dfy`) holds the two-state "idle"/"running"
  example. The session is proved once on values and once through the class.

The source makes four truthiness tests (src/fsm.js lines 7, 30, 44 and 68).
The model keeps two of them as truthiness tests. At line 44, `trigger` fires
only when the current state's own table has the event and its destination is
not the empty string, because `""` is the one falsy string. At line 68,
`getStates` returns every state when its argument is absent or `""`. The
other two become simpler tests. Line 7 becomes a presence test on the
configuration, because an object is always truthy. Line 30 becomes plain key
membership, because a state definition is an object. Names that every
JavaScript object inherits are not modelled at lines 30 and 44 (see Left
out).

Neither history stack is bounded.

## Model

| member | source | states |
|---|---|---|
| `Fsm.Create` | src/fsm.js:6-15 | a missing configuration gives `ConfigError`; a present one gives a fresh valid machine in the initial state with both histories empty |
| `Fsm.FSM.constructor` | src/fsm.js:6-15 | the new machine's state is `initial`, both stacks are empty, and the object invariant holds |
| `Fsm.FSM.GetState` | src/fsm.js:21-23 | the active state is always a declared state; it is the entry at the cursor of the timeline |
| `Fsm.FSM.ChangeState` | src/fsm.js:29-37 | succeeds exactly when the target is declared; then the old state is pushed on `prevState`, the state becomes the target and `nextState` is emptied; otherwise `UnknownStateError` and nothing changes |
| `Fsm.FSM.Trigger` | src/fsm.js:43-51 | succeeds exactly when the current state's table has the event with a non-empty destination; then the old state is pushed, the state becomes that destination and `nextState` is emptied; otherwise `UnknownEventError` and nothing changes |
| `Fsm.FSM.Reset` | src/fsm.js:56-58 | only `state` changes, to `initial`; both stacks stay as they were |
| `Fsm.FSM.GetStates` | src/fsm.js:66-73 | a falsy event gives all declared states in declaration order; otherwise an order-preserving subsequence of them containing exactly the states whose table has the event |
| `Fsm.FSM.Undo` | src/fsm.js:80-88 | returns true exactly when `prevState` was non-empty; then its top becomes the state and the old state is pushed on `nextState`; on false nothing changes |
| `Fsm.FSM.Redo` | src/fsm.js:95-103 | the mirror of undo with the stacks swapped, available exactly when `nextState` is non-empty |
| `Fsm.FSM.ClearHistory` | src/fsm.js:108-111 | both stacks become empty and the state is kept |
| `FsmSpec.Init` | src/fsm.js:6-15 | a missing configuration is `ConfigError`; a present one starts in `initial` with empty histories, and with a well-formed configuration every held state is declared |
| `FsmSpec.Advance` | src/fsm.js:31-33 | forward progress pushes the old state on the back-history, makes the target active and empties the forward-history; on the timeline it keeps everything up to the cursor and replaces what follows by the target |
| `FsmSpec.ChangeState` | src/fsm.js:29-37 | succeeds if and only if the target is declared, with the pushed back-history, the new state and an empty forward-history; failure is `UnknownStateError` |
| `FsmSpec.Trigger` | src/fsm.js:43-51 | succeeds if and only if the current state's table has the event with a non-empty destination; that destination becomes active, and is declared when the configuration is well-formed; failure is `UnknownEventError` |
| `FsmSpec.Reset` | src/fsm.js:56-58 | only the state changes, to `initial`; on the timeline only the entry at the cursor is replaced and both stacks are kept |
| `FsmSpec.Undo` | src/fsm.js:80-88 | moves if and only if the back-history is non-empty, pops its top into the state and pushes the old state forward; otherwise it changes nothing |
| `FsmSpec.Redo` | src/fsm.js:95-103 | moves if and only if the forward-history is non-empty, pops its top into the state and pushes the old state back; otherwise it changes nothing |
| `FsmSpec.ClearHistory` | src/fsm.js:108-111 | both stacks become empty, the state is kept, and the timeline is the state alone |
| `FsmSpec.RedoAsWritten` | src/fsm.js:96 | redo as written moves if and only if the forward-history is non-empty and is not a single name that reads as 0; otherwise it changes nothing |
| `FsmSpec.StatesWith` | src/fsm.js:69 | the filter keeps order (subsequence of the declared list) and keeps a state exactly when its table has the event as a key |
| `FsmSpec.GetStates` | src/fsm.js:66-73 | all declared states for an absent or empty event; otherwise the order-preserving subsequence of exactly the states with a transition on the event |
| `FsmSpec.StepKeepsValid` | src/fsm.js:29-111 | every call, successful or throwing, keeps the active state and every state in both stacks declared |
| `FsmSpec.Run` | src/fsm.js:29-111 | after any sequence of calls the machine still holds only declared states |
| `FsmSpec.UndoThenRedo` | src/fsm.js:80-103 | a successful undo followed by redo restores state, back-history and forward-history exactly |
| `FsmSpec.RedoThenUndo` | src/fsm.js:80-103 | a successful redo followed by undo restores all three exactly |
| `FsmSpec.UndoTimesDepth` | src/fsm.js:80-88 | k successive undos, k at most the back-history's depth, keep the timeline and move its cursor k steps back: the back-history loses exactly its top k entries and the state becomes the entry k places before the old cursor |
| `FsmSpec.UndoTimesThenRedoTimes` | src/fsm.js:80-103 | k undos followed by k redos, k at most the back-history's depth, restore the machine exactly |
| `FsmSpec.CursorIsState` | src/fsm.js:80-103 | the timeline (back-history, state, forward-history reversed) has the active state at position `|back|` |
| `FsmSpec.UndoKeepsTimeline` | src/fsm.js:80-88 | a successful undo keeps the timeline and moves the cursor one step back |
| `FsmSpec.RedoKeepsTimeline` | src/fsm.js:95-103 | a successful redo keeps the timeline and moves the cursor one step forward |
| `FsmSpec.NoRedoAfterAdvance` | src/fsm.js:29-51 | right after a successful change or trigger redo is unavailable, and undo returns to the previous state |
| `FsmSpec.UndoAfterReset` | src/fsm.js:56-58 | since reset keeps history, undo after reset succeeds whenever the back-history is non-empty, lands on the top of the back-history (the state held before the last forward step, if no undo has happened since), which can predate the reset, and pushes `initial` on the forward-history |
| `FsmSpec.ClearHistoryStopsUndoRedo` | src/fsm.js:108-111 | after clearHistory undo and redo both return false and change nothing, whatever the history was |
| `FsmSpec.RedoAsWrittenAgrees` | src/fsm.js:96 | redo as written behaves like the intended redo except on a one-element forward-history whose name reads as the number 0 |
| `FsmSpec.RedoAsWrittenBreaksRoundTrip` | src/fsm.js:95-103 | with states "a" and "0", changeState("0") then undo leaves `["0"]` to redo, yet redo as written refuses; the intended redo restores the machine |
| `FsmScenarios.IdleRunningSession` | src/fsm.js:43-103 | on the idle/running example: "go" leads to running, undo back to idle, redo to running, "go" is unknown in running, and `getStates("go")` is `["idle"]` while `getStates()` is both states |

## Left out

- FsmSpec.Redo: the intended redo; the laws built on it (`FsmSpec.RedoThenUndo`, `FsmSpec.UndoThenRedo`, `FsmSpec.RedoKeepsTimeline`, `FsmSpec.UndoTimesThenRedoTimes`) and `Fsm.FSM.Redo` share the gap described on the next line.
- Fsm.FSM.Redo: like `FsmSpec.Redo`, tests the forward-history for emptiness by its length. The source's loose comparison `nextState != 0` at src/fsm.js:96 also treats a one-element stack whose name reads as 0 as empty (see Findings). The as-written test is modelled separately as `FsmSpec.RedoAsWritten`.
- FsmSpec.RedoAsWritten: treats as "reading as 0" only blank names and runs of the digit 0 with ASCII white space around them. Other strings that JavaScript converts to 0 are not recognised, such as "+0", "-0", "0.0", "0x0", "0e5" or names padded with non-ASCII white space.
- Malformed configurations are excluded by the `WellFormed` precondition of the constructor. The source does not check them. With such a configuration, `trigger` on an undeclared active state throws a `TypeError`, and a destination that is not declared is accepted.
- FsmSpec.Trigger: has the gap described on the next line, which `Fsm.FSM.Trigger` shares.
- Fsm.FSM.Trigger: like `FsmSpec.Trigger`, refuses an event that is not a key of the current state's own table. The lookup at src/fsm.js:44 also finds names that every JavaScript object inherits, such as "toString", "constructor", "valueOf", "hasOwnProperty" or "__proto__". Their values are truthy, so the source fires, and line 46 makes that inherited value the active state, which is not a declared state; the next `trigger` then throws a `TypeError`. The invariant of `FsmSpec.StepKeepsValid` and `FsmSpec.Run` (every held state is declared) holds for the model, not for the source on such events.
- FsmSpec.ChangeState: has the gap described on the next line, which `Fsm.FSM.ChangeState` shares.
- Fsm.FSM.ChangeState: like `FsmSpec.ChangeState`, refuses an undeclared target. The lookup `config.states[state]` at src/fsm.js:30 also finds inherited names such as "toString", so the source accepts them and makes an undeclared name the active state.
- A configuration value that is present but falsy cannot occur for an object. `Create` therefore takes `Option<Config>`, and `None` stands for the missing configuration.
- Event arguments are strings. Non-string falsy arguments to `getStates` (`0`, `false`, `null`) are represented by `None`.
- The configuration is immutable in the model. The source stores it by reference, so a caller could change it after construction.
- `Object.keys` lists integer-like keys first. The model reports states in the explicit declared order `Config.order`.
- Error message texts and `module.exports` are not modelled.

## Findings

| source | as written | input that shows it | evidently intended | confidence | as-written member | corrected member |
|---|---|---|---|---|---|---|
| src/fsm.js:96 | `redo` proceeds when `this.nextState != 0`, a loose comparison of an array with a number | states "a" and "0", initial "a": `changeState("0")`, `undo()`, then `redo()` returns false although `nextState` is `["0"]` | redo whenever `nextState` is non-empty, as `undo` tests `prevState.length != 0` at line 81 | not executed | `FsmSpec.RedoAsWrittenBreaksRoundTrip` | `FsmSpec.UndoThenRedo` |
