/** The lifecycle of cloned lists: the four states, the fixed table of permitted
    transitions, the confirmation rule, the unarchive target and per-state
    editability. States are plain strings, as in the app, so a state the table
    does not know about can reach every function here. */
module ListStateManager {

  const PRECHECK: string := "PRECHECK"
  const WORKING: string := "WORKING"
  const CLOSED: string := "CLOSED"
  const ARCHIVED: string := "ARCHIVED"

  /** The four states the table knows. */
  predicate IsKnown(s: string) {
    s == PRECHECK || s == WORKING || s == CLOSED || s == ARCHIVED
  }

  /** Display metadata of a state; only its id is behaviour (labels, colours
      and icons are not modelled). */
  datatype StateInfo = StateInfo(id: string)

  const InfoMap: map<string, StateInfo> := map[
    PRECHECK := StateInfo(PRECHECK),
    WORKING := StateInfo(WORKING),
    CLOSED := StateInfo(CLOSED),
    ARCHIVED := StateInfo(ARCHIVED)
  ]

  /** From each state, the states it may move to. */
  const Transitions: map<string, seq<string>> := map[
    PRECHECK := [WORKING, ARCHIVED],
    WORKING := [CLOSED, ARCHIVED],
    CLOSED := [WORKING, ARCHIVED],
    ARCHIVED := [PRECHECK]
  ]

  /** The row of the table for `current`; empty for a state the table does not know. */
  function AllowedTargets(current: string): (r: seq<string>)
    ensures r != [] <==> IsKnown(current)
    ensures forall t :: t in r ==> IsKnown(t) && t != current
    ensures |r| <= 2
  {
    if current in Transitions then Transitions[current] else []
  }

  /** Whether a cloned list in state `current` may be moved to `target`:
      exactly the four rows of the table. */
  function IsTransitionAllowed(current: string, target: string): (r: bool)
    ensures r <==>
      || (current == PRECHECK && (target == WORKING || target == ARCHIVED))
      || (current == WORKING && (target == CLOSED || target == ARCHIVED))
      || (current == CLOSED && (target == WORKING || target == ARCHIVED))
      || (current == ARCHIVED && target == PRECHECK)
  {
    target in AllowedTargets(current)
  }

  /** Whether moving to `target` must be confirmed by the user first. */
  function RequiresConfirmation(current: string, target: string): (r: bool)
  {
    target == ARCHIVED
  }

  /** The state an archived list returns to when it is unarchived. */
  function DefaultUnarchiveTarget(): (r: string)
    ensures AllowedTargets(ARCHIVED) == [r]
    ensures IsTransitionAllowed(ARCHIVED, r)
  {
    PRECHECK
  }

  /** Whether the items of a list in `state` may be edited: not when the list
      is closed or archived, and always for a state the table does not know. */
  function IsEditable(state: string): (r: bool)
    ensures !IsKnown(state) ==> r
    ensures r <==> state != CLOSED && state != ARCHIVED
  {
    if state == PRECHECK then true
    else if state == WORKING then true
    else if state == CLOSED then false
    else if state == ARCHIVED then false
    else true
  }

  /** The metadata of `state`, falling back to PRECHECK's for an unknown state. */
  function GetStateInfo(state: string): (r: StateInfo)
    ensures r.id == if IsKnown(state) then state else PRECHECK
    ensures r in InfoMap.Values
  {
    if state in InfoMap then InfoMap[state] else InfoMap[PRECHECK]
  }

  /** A state the table does not know has no way out. */
  lemma UnknownStateIsStuck(current: string, target: string)
    requires !IsKnown(current)
    ensures AllowedTargets(current) == []
    ensures !IsTransitionAllowed(current, target)
  {
  }

  /** No state may move to itself. */
  lemma NoSelfTransition(s: string)
    ensures !IsTransitionAllowed(s, s)
  {
  }

  /** Every known state other than ARCHIVED may be archived, and archiving is
      exactly the transition that needs a confirmation. */
  lemma ArchiveFromEveryActiveState(s: string)
    requires IsKnown(s) && s != ARCHIVED
    ensures IsTransitionAllowed(s, ARCHIVED)
    ensures RequiresConfirmation(s, ARCHIVED)
  {
  }

  /** The only transition out of ARCHIVED is to the unarchive target, and it
      needs no confirmation. */
  lemma UnarchiveIsTheOnlyExit(target: string)
    ensures IsTransitionAllowed(ARCHIVED, target) <==> target == DefaultUnarchiveTarget()
    ensures !RequiresConfirmation(ARCHIVED, DefaultUnarchiveTarget())
  {
  }

  /** Whether a transition needs confirmation depends on the target only. */
  lemma ConfirmationIgnoresCurrent(c1: string, c2: string, target: string)
    ensures RequiresConfirmation(c1, target) == RequiresConfirmation(c2, target)
    ensures RequiresConfirmation(c1, target) <==> target == ARCHIVED
  {
  }
}
