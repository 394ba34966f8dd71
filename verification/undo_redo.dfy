/**
 * The undo/redo history hook of the editor (src/hooks/useUndoRedo.tsx):
 * a list of past states, a cursor into it, a 50-state cap, and the
 * keyboard chords that step the cursor.
 */
module UndoRedo {

  /** At most this many states are kept. */
  const MaxHistory: nat := 50

  // ---------------------------------------------------------------------
  // The history as a value

  /** The pair `(history, currentIndex)` that the hook keeps in React state. */
  datatype Timeline<T> = Timeline(states: seq<T>, index: nat)
  {
    /** The cursor points into a non-empty list of at most `MaxHistory` states. */
    predicate Valid()
    {
      index < |states| <= MaxHistory
    }

    /** `state`: the state under the cursor. */
    function Current(): T
      requires Valid()
    {
      states[index]
    }

    /** `canUndo`: there is a state before the cursor. */
    predicate CanUndo()
    {
      index > 0
    }

    /** `canRedo`: there is a state after the cursor. */
    predicate CanRedo()
    {
      index + 1 < |states|
    }

    /**
     * `setState`: drop everything after the cursor, append `s`, and when
     * that makes the list longer than the cap, drop the oldest state and
     * leave the cursor where it was; otherwise move the cursor to the end.
     */
    function Push(s: T): (t: Timeline<T>)
      requires Valid()
      ensures t.Valid()
      ensures t.Current() == s
      ensures !t.CanRedo()
    {
      var kept := states[..index + 1] + [s];
      if |kept| > MaxHistory then Timeline(kept[1..], index) else Timeline(kept, |kept| - 1)
    }

    /** `undo`: step the cursor back when possible, otherwise nothing. */
    function Undo(): (t: Timeline<T>)
      requires Valid()
      ensures t.Valid() && t.states == states
      ensures t.index == if CanUndo() then index - 1 else index
    {
      if CanUndo() then Timeline(states, index - 1) else this
    }

    /** `redo`: step the cursor forward when possible, otherwise nothing. */
    function Redo(): (t: Timeline<T>)
      requires Valid()
      ensures t.Valid() && t.states == states
      ensures t.index == if CanRedo() then index + 1 else index
    {
      if CanRedo() then Timeline(states, index + 1) else this
    }
  }

  /** The history right after mounting or `reset`: just the initial state. */
  function Start<T>(initial: T): (t: Timeline<T>)
    ensures t.Valid() && t.Current() == initial
    ensures !t.CanUndo() && !t.CanRedo()
  {
    Timeline([initial], 0)
  }

  // ---------------------------------------------------------------------
  // What the history promises

  /** `canUndo` and `canRedo` are true exactly when the step would move the cursor. */
  lemma StepAvailability<T>(t: Timeline<T>)
    requires t.Valid()
    ensures t.CanUndo() <==> t.Undo() != t
    ensures t.CanRedo() <==> t.Redo() != t
  {
  }

  /** Undoing after a push brings back the state that was current before it, cap or not. */
  lemma PushThenUndoRestores<T>(t: Timeline<T>, s: T)
    requires t.Valid()
    ensures t.Push(s).CanUndo()
    ensures t.Push(s).Undo().Current() == t.Current()
  {
    var kept := t.states[..t.index + 1] + [s];
    if |kept| > MaxHistory {
      assert kept[1..][t.index - 1] == kept[t.index];
    }
  }

  /**
   * A push keeps the states up to the cursor, in order, followed by `s`;
   * only when the cap is hit is the oldest of them dropped.
   */
  lemma PushKeepsPast<T>(t: Timeline<T>, s: T)
    requires t.Valid()
    ensures var u := t.Push(s);
      u.states == (if t.index + 1 < MaxHistory then t.states[..t.index + 1] else t.states[1..t.index + 1]) + [s]
  {
    var kept := t.states[..t.index + 1] + [s];
    if |kept| > MaxHistory {
      assert kept[1..] == t.states[1..t.index + 1] + [s];
    }
  }

  /** Redone states are discarded by a push: the list ends right after the new state. */
  lemma PushLength<T>(t: Timeline<T>, s: T)
    requires t.Valid()
    ensures |t.Push(s).states| == if t.index + 1 < MaxHistory then t.index + 2 else MaxHistory
    ensures t.Push(s).index == if t.index + 1 < MaxHistory then t.index + 1 else t.index
  {
  }

  /** Redo takes back an undo. */
  lemma UndoThenRedo<T>(t: Timeline<T>)
    requires t.Valid() && t.CanUndo()
    ensures t.Undo().CanRedo()
    ensures t.Undo().Redo() == t
  {
  }

  /** Undo takes back a redo. */
  lemma RedoThenUndo<T>(t: Timeline<T>)
    requires t.Valid() && t.CanRedo()
    ensures t.Redo().CanUndo()
    ensures t.Redo().Undo() == t
  {
  }

  /** `n` undos in a row. */
  function UndoTimes<T>(t: Timeline<T>, n: nat): (u: Timeline<T>)
    requires t.Valid()
    ensures u.Valid() && u.states == t.states
    decreases n
  {
    if n == 0 then t else UndoTimes(t.Undo(), n - 1)
  }

  /**
   * Repeated undo walks back one state at a time and stops at the oldest:
   * after `n` undos the cursor is `n` places back, or at 0.
   */
  lemma {:induction false} UndoTimesIndex<T>(t: Timeline<T>, n: nat)
    requires t.Valid()
    ensures UndoTimes(t, n).index == if n <= t.index then t.index - n else 0
    decreases n
  {
    if n > 0 {
      UndoTimesIndex(t.Undo(), n - 1);
    }
  }

  /**
   * The cap bounds how far one can go back: after a push onto any valid
   * history, at most `MaxHistory - 1` undos still change the state, and that
   * many reach the oldest state kept.
   */
  lemma PushUndoDepth<T>(t: Timeline<T>, s: T)
    requires t.Valid()
    ensures t.Push(s).index <= MaxHistory - 1
    ensures UndoTimes(t.Push(s), MaxHistory - 1).index == 0
  {
    UndoTimesIndex(t.Push(s), MaxHistory - 1);
  }

  // ---------------------------------------------------------------------
  // Keyboard shortcuts

  /** The parts of a `KeyboardEvent` the shortcut handler looks at. */
  datatype KeyEvent = KeyEvent(ctrlKey: bool, metaKey: bool, shiftKey: bool, key: string)

  datatype Command = UndoCommand | RedoCommand | NoCommand

  /**
   * The handler's two branches: Ctrl/Cmd+Z without Shift undoes; otherwise
   * Ctrl/Cmd with `y`, or with Shift and `z`, redoes.
   */
  function Classify(e: KeyEvent): (c: Command)
    ensures c == UndoCommand <==> (e.ctrlKey || e.metaKey) && !e.shiftKey && e.key == "z"
    ensures c == RedoCommand <==> (e.ctrlKey || e.metaKey) && (e.key == "y" || (e.shiftKey && e.key == "z"))
  {
    if (e.ctrlKey || e.metaKey) && !e.shiftKey && e.key == "z" then UndoCommand
    else if (e.ctrlKey || e.metaKey) && (e.key == "y" || (e.shiftKey && e.key == "z")) then RedoCommand
    else NoCommand
  }

  /** The effect of a command on the history. */
  function Apply<T>(c: Command, t: Timeline<T>): (u: Timeline<T>)
    requires t.Valid()
    ensures u.Valid() && u.states == t.states
  {
    match c
    case UndoCommand => t.Undo()
    case RedoCommand => t.Redo()
    case NoCommand => t
  }

  /** Without Ctrl or Cmd no key does anything; the keys are lower-case `z` and `y` only. */
  lemma ShortcutsNeedModifier(e: KeyEvent)
    ensures !(e.ctrlKey || e.metaKey) ==> Classify(e) == NoCommand
    ensures e.key != "z" && e.key != "y" ==> Classify(e) == NoCommand
    ensures Classify(e) == UndoCommand ==> Classify(e.(key := "y")) == RedoCommand
  {
  }

  /** Shift turns the undo chord into the redo chord; `y` redoes with or without Shift. */
  lemma ShiftFlipsZ(e: KeyEvent)
    requires e.ctrlKey || e.metaKey
    ensures Classify(e.(key := "z", shiftKey := false)) == UndoCommand
    ensures Classify(e.(key := "z", shiftKey := true)) == RedoCommand
    ensures Classify(e.(key := "y")) == RedoCommand
  {
  }

  // ---------------------------------------------------------------------
  // The hook as an object

  /** The hook's state: the history list and the cursor, updated in place. */
  class History<T> {
    var history: seq<T>
    var currentIndex: nat
    const initial: T

    /** The pair of fields as a value. */
    function Model(): Timeline<T>
      reads this
    {
      Timeline(history, currentIndex)
    }

    predicate Valid()
      reads this
    {
      Model().Valid()
    }

    /** `useUndoRedo(initialState)`: a one-state history. */
    constructor(initialState: T)
      ensures Valid() && initial == initialState
      ensures Model() == Start(initialState)
    {
      history := [initialState];
      currentIndex := 0;
      initial := initialState;
    }

    /** `state`. */
    function State(): (s: T)
      requires Valid()
      reads this
      ensures s == Model().Current()
    {
      history[currentIndex]
    }

    /** `setState`: record a new state after the current one. */
    method SetState(newState: T)
      requires Valid()
      modifies this
      ensures Valid()
      ensures Model() == old(Model()).Push(newState)
      ensures State() == newState && !Model().CanRedo()
    {
      var newHistory := history[..currentIndex + 1];
      newHistory := newHistory + [newState];
      if |newHistory| > MaxHistory {
        newHistory := newHistory[1..];
      } else {
        currentIndex := |newHistory| - 1;
      }
      history := newHistory;
    }

    /** `undo`. */
    method Undo()
      requires Valid()
      modifies this
      ensures Valid()
      ensures Model() == old(Model()).Undo()
    {
      if currentIndex > 0 {
        currentIndex := currentIndex - 1;
      }
    }

    /** `redo`. */
    method Redo()
      requires Valid()
      modifies this
      ensures Valid()
      ensures Model() == old(Model()).Redo()
    {
      if currentIndex < |history| - 1 {
        currentIndex := currentIndex + 1;
      }
    }

    /** `reset`: back to the one-state history of the initial state. */
    method Reset()
      requires Valid()
      modifies this
      ensures Valid()
      ensures Model() == Start(initial)
    {
      history := [initial];
      currentIndex := 0;
    }

    /**
     * The `keydown` listener: classify the chord, run undo or redo, and report
     * whether the browser default was prevented.
     */
    method HandleKeyDown(e: KeyEvent) returns (prevented: bool)
      requires Valid()
      modifies this
      ensures Valid()
      ensures prevented <==> Classify(e) != NoCommand
      ensures Model() == Apply(Classify(e), old(Model()))
    {
      if (e.ctrlKey || e.metaKey) && !e.shiftKey && e.key == "z" {
        prevented := true;
        Undo();
      } else if (e.ctrlKey || e.metaKey) && (e.key == "y" || (e.shiftKey && e.key == "z")) {
        prevented := true;
        Redo();
      } else {
        prevented := false;
      }
    }
  }
}
