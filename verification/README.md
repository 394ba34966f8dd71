# Tube joint builder: detection, history and edits

This project models the core of a tube-frame editor. A user adds rectangular or
square tubes to a scene, edits their parameters, deletes them, and undoes or redoes
those edits. After every change the editor recomputes joint previews: pairs of tubes
whose centroids lie close enough to be joined.

The model has five modules:

- `Wrappers` (`wrappers.dfy`): the `Option` type that stands for the TypeScript
  `undefined`/`null`.
- `TubeTypes` (`tube_types.dfy`) holds three things:
  - the tube record of `src/types/tube.ts`;
  - the partial update object that the controls send;
  - the object spread `{ ...tube, ...updates }` as `Merge`.
- `JointDetection` (`joint_detection.dfy`) models `src/utils/jointDetection.ts`:
  - `checkTubeProximity` is a function.
  - `detectPotentialJoints` is a method with the two nested loops of `jointDetection.ts`. It is
    proved equal to `Detect`, a scan of the proximity test over `AllPairs(n)`.
  - `AllPairs(n)` enumerates the index pairs `i < j` in ascending order, row by row,
    exactly as the loops visit them. Each loop invariant says that `previews` is the
    scan of the pairs visited so far.
  - Each promise is proved about that enumeration: no self-pairs, no pair examined
    twice, output order, the count bound, the inclusive threshold, and which tube's
    id comes first.
- `UndoRedo` (`undo_redo.dfy`) models `src/hooks/useUndoRedo.tsx`:
  - `Timeline` is the value view of the hook's `(history, currentIndex)` pair: the
    push with truncation and a cap of 50 states, undo and redo.
  - `History` is a class whose methods update those two fields in place. Each method
    is proved to do what the `Timeline` function says.
  - The keyboard-chord classifier is a function.
- `Editor` (`editor.dfy`) models `src/pages/index.tsx`:
  - The list edits (add, update, delete, find) are functions over `seq<Tube>`.
  - `Page` is a class holding the history, the selection and the previews. Each of
    its handlers pushes the edited list into the history and then reruns the
    preview effect.

The three.js geometry is not computed. A `Geometry` value supplies three
functions: the centroid distance, the forward axis for Euler angles, and the angle
between two axes in degrees. `Lawful(g)` states what the proofs assume of them:
- the distance is non-negative and symmetric;
- its square is the squared Euclidean distance;
- the angle lies in [0, 180] and does not depend on the order of the axes.

`Math.round` is modelled as `floor(x + 0.5)`.

## Model

| member | source | states |
|---|---|---|
| TubeTypes.Merge | src/pages/index.tsx:58 | every field absent from the update keeps the tube's value; every field present overwrites it, `id` included |
| TubeTypes.MergeNoChange | src/pages/index.tsx:58 | spreading the empty update `{}` leaves the tube unchanged |
| TubeTypes.MergeIdempotent | src/pages/index.tsx:58 | spreading the same update twice equals spreading it once |
| TubeTypes.SquaredDistance | src/utils/jointDetection.ts:41 | the squared centroid distance is non-negative |
| JointDetection.RoundBounds | src/utils/jointDetection.ts:68 | `Math.round(x)` lies in `(x - 0.5, x + 0.5]`; an exact half rounds up |
| JointDetection.RoundedDistanceBounds | src/utils/jointDetection.ts:69 | `round(d*100)/100` is within 0.005 of `d` and non-negative when `d` is |
| JointDetection.MidpointProperties | src/utils/jointDetection.ts:49-51 | the intersection point is symmetric in the two centroids, equidistant from both, and half their distance from each |
| JointDetection.ProximityIffWithin | src/utils/jointDetection.ts:41-66 | a preview is returned iff the distance is `<= 2.0`; the threshold is inclusive. It carries `tube1`'s id first, `tube2`'s second, and the midpoint |
| JointDetection.WithinIffSquared | src/utils/jointDetection.ts:41-46 | for a lawful geometry, the threshold test equals squared distance `<= 4.0` |
| JointDetection.PreviewRanges | src/utils/jointDetection.ts:62-69 | a reported angle is an integer in [0, 180]; a reported distance lies in [0, 2] and within 0.005 of the true distance |
| JointDetection.ProximitySymmetric | src/utils/jointDetection.ts:32-71 | swapping the two tubes keeps the yes/no outcome and changes only the order of the two ids |
| JointDetection.AllPairsMembers | src/utils/jointDetection.ts:17-18 | the examined pairs are exactly the `(i, j)` with `i < j < n`, so no tube is paired with itself |
| JointDetection.AllPairsOrdered | src/utils/jointDetection.ts:17-18 | pairs are examined in strictly ascending lexicographic order, so none is examined twice |
| JointDetection.AllPairsLength | src/utils/jointDetection.ts:17-18 | `n` tubes give `n(n-1)/2` examined pairs |
| JointDetection.ThreePairs | src/utils/jointDetection.ts:17-18 | three tubes are examined as (0,1), (0,2), (1,2) |
| JointDetection.PairsBeforeSorted | src/utils/jointDetection.ts:17-18 | the first `i` outer iterations visit only rows below `i`, in ascending order |
| JointDetection.PairsBeforeComplete | src/utils/jointDetection.ts:17-18 | every `(a, b)` with `a < i`, `a < b < n` is visited by the first `i` outer iterations |
| JointDetection.PairsBeforeLength | src/utils/jointDetection.ts:17-18 | after `i` outer iterations, `i(2n-i-1)/2` pairs have been visited |
| JointDetection.ScanFollowsKept | src/utils/jointDetection.ts:22-25 | the `k`-th output is the preview of the `k`-th pair that passes the threshold |
| JointDetection.KeptSorted | src/utils/jointDetection.ts:22-25 | dropping pairs from a sorted visit order keeps it sorted |
| JointDetection.KeptAll | src/utils/jointDetection.ts:22-25 | when every pair passes the threshold, every pair is kept |
| JointDetection.KeptMembers | src/utils/jointDetection.ts:22-25 | a pair is kept iff it is in the visited list and passes the threshold |
| JointDetection.ScanSnoc | src/utils/jointDetection.ts:22-25 | visiting one more pair appends exactly what that pair yields |
| JointDetection.InnerStart | src/utils/jointDetection.ts:18 | an inner loop starting at `j = i + 1` has visited no pair of its row yet |
| JointDetection.InnerStep | src/utils/jointDetection.ts:18-26 | one inner iteration visits `(i, j)` after every pair visited before it |
| JointDetection.VisitProximity | src/utils/jointDetection.ts:19-25 | visiting `(i, j)` yields the preview of `checkTubeProximity(tubes[i], tubes[j])` if it is not null, and nothing otherwise |
| JointDetection.PairsBeforeUnfold | src/utils/jointDetection.ts:17-18 | outer iteration `i` visits the row `(i, i+1) .. (i, n-1)` after all earlier rows |
| JointDetection.DetectCharacterized | src/utils/jointDetection.ts:14-30 | the output has one preview per pair `i < j` within the threshold, in ascending `(i, j)` order; each has `tube1Id` from tube `i`, `tube2Id` from tube `j`, the midpoint, and is `checkTubeProximity(tubes[i], tubes[j])` |
| JointDetection.DetectAtMost | src/utils/jointDetection.ts:14-30 | at most `n(n-1)/2` previews |
| JointDetection.DetectAllClose | src/utils/jointDetection.ts:14-30 | exactly `n(n-1)/2` previews when every pair is within the threshold |
| JointDetection.DetectFewTubes | src/utils/jointDetection.ts:14-30 | no preview for zero or one tube |
| JointDetection.DetectPotentialJoints | src/utils/jointDetection.ts:14-30 | the two nested loops return exactly `Detect(g, tubes)`: the previews of the pairs `i < j`, in ascending order |
| UndoRedo.Timeline.Push | src/hooks/useUndoRedo.tsx:21-36 | after `setState` the history is valid, the current state is the new state, and redo is unavailable, in the capped branch too |
| UndoRedo.Timeline.Undo | src/hooks/useUndoRedo.tsx:38-42 | undo keeps the history list and validity, and moves the cursor back one place when it can, otherwise not at all |
| UndoRedo.Timeline.Redo | src/hooks/useUndoRedo.tsx:44-48 | redo keeps the history list and validity, and moves the cursor forward one place when it can, otherwise not at all |
| UndoRedo.Start | src/hooks/useUndoRedo.tsx:14-19 | the initial history holds just the initial state, which is current, and neither undo nor redo is available |
| UndoRedo.StepAvailability | src/hooks/useUndoRedo.tsx:18-19 | `canUndo`/`canRedo` hold exactly when undo/redo would change the history |
| UndoRedo.PushThenUndoRestores | src/hooks/useUndoRedo.tsx:21-42 | undo right after `setState` restores the previous current state, in the capped branch too |
| UndoRedo.PushKeepsPast | src/hooks/useUndoRedo.tsx:24-30 | `setState` keeps the states up to the cursor in order and appends the new one; on overflow exactly the oldest is dropped |
| UndoRedo.PushLength | src/hooks/useUndoRedo.tsx:24-33 | the new length is `currentIndex + 2`, or 50 on overflow; the new cursor is `currentIndex + 1`, or unchanged on overflow |
| UndoRedo.UndoThenRedo | src/hooks/useUndoRedo.tsx:38-48 | when undo is available, undo followed by redo restores the history exactly |
| UndoRedo.RedoThenUndo | src/hooks/useUndoRedo.tsx:38-48 | when redo is available, redo followed by undo restores the history exactly |
| UndoRedo.UndoTimes | src/hooks/useUndoRedo.tsx:38-42 | repeated undo keeps the history list |
| UndoRedo.UndoTimesIndex | src/hooks/useUndoRedo.tsx:38-42 | after `n` undos the cursor is `n` places back, stopping at 0 |
| UndoRedo.PushUndoDepth | src/hooks/useUndoRedo.tsx:28-33 | after a `setState` the cursor is at most 49, and 49 undos reach the oldest state kept |
| UndoRedo.Classify | src/hooks/useUndoRedo.tsx:58-67 | undo exactly for Ctrl/Cmd + `z` without Shift; redo exactly for Ctrl/Cmd with `y`, or Shift and `z`; no chord is both |
| UndoRedo.Apply | src/hooks/useUndoRedo.tsx:56-68 | a command keeps the history list and validity |
| UndoRedo.ShortcutsNeedModifier | src/hooks/useUndoRedo.tsx:58-67 | without Ctrl/Cmd, or for keys other than `z` and `y`, nothing happens; the undo chord with `y` redoes |
| UndoRedo.ShiftFlipsZ | src/hooks/useUndoRedo.tsx:58-67 | with Ctrl/Cmd, `z` undoes without Shift and redoes with it; `y` redoes either way |
| UndoRedo.History.constructor | src/hooks/useUndoRedo.tsx:14-15 | a new hook holds `[initial]` with cursor 0 |
| UndoRedo.History.State | src/hooks/useUndoRedo.tsx:17 | `state` is the entry under the cursor |
| UndoRedo.History.SetState | src/hooks/useUndoRedo.tsx:21-36 | the in-place slice, push and shift leave the fields equal to `Timeline.Push` of the old ones; the new state is current and redo is unavailable |
| UndoRedo.History.Undo | src/hooks/useUndoRedo.tsx:38-42 | the fields become `Timeline.Undo` of the old ones |
| UndoRedo.History.Redo | src/hooks/useUndoRedo.tsx:44-48 | the fields become `Timeline.Redo` of the old ones |
| UndoRedo.History.Reset | src/hooks/useUndoRedo.tsx:50-53 | the fields become `[initial]` and cursor 0 |
| UndoRedo.History.HandleKeyDown | src/hooks/useUndoRedo.tsx:57-68 | the default is prevented exactly for an undo or redo chord, and the fields become the command applied to the old ones |
| Editor.NewTube | src/pages/index.tsx:42-51 | the new tube has the given id and type, width 1 if square else 1.5, height 1, thickness 0.1, length 3, position and rotation zero, no parent and no joint angle |
| Editor.WithTubeAdded | src/pages/index.tsx:52 | exactly one tube is appended at the end; the existing tubes are unchanged and in order |
| Editor.WithTubeUpdated | src/pages/index.tsx:58 | the update keeps the list's length |
| Editor.UpdateOnlyMatching | src/pages/index.tsx:58 | position by position, tubes with the id are merged with the update and all others are unchanged |
| Editor.UpdateAbsentIdentity | src/pages/index.tsx:58 | updating an id that no tube carries changes nothing |
| Editor.UpdateIdempotent | src/pages/index.tsx:58 | repeating any update, a renaming one included, changes nothing more |
| Editor.WithoutTube | src/pages/index.tsx:62 | the result is no longer than the input |
| Editor.WithoutTubeMembers | src/pages/index.tsx:62 | the result holds exactly the tubes whose id differs |
| Editor.DeleteConcat | src/pages/index.tsx:62 | the delete is a filter: it distributes over concatenation and keeps or drops each single tube by its id, so order is kept |
| Editor.DeleteAbsentIdentity | src/pages/index.tsx:62 | deleting an id that no tube carries changes nothing |
| Editor.DeleteIdempotent | src/pages/index.tsx:62 | deleting twice equals deleting once |
| Editor.AddThenDelete | src/pages/index.tsx:41-62 | deleting a just-added tube under an unused id restores the list |
| Editor.FindTube | src/pages/index.tsx:69 | the result is absent iff no tube has the id; otherwise it is the first tube with that id |
| Editor.SelectedTube | src/pages/index.tsx:69 | a selected tube is in the list and carries the selected id; nothing is selected when no id is |
| Editor.FindAfterAdd | src/pages/index.tsx:41-53 | looking up a just-added id finds the new tube, unless an older tube already has that id |
| Editor.FindAfterDelete | src/pages/index.tsx:61-69 | after a delete no tube is found under that id |
| Editor.PreviewGuardRedundant | src/pages/index.tsx:28-39 | the effect's "at least 2 tubes" guard gives the same previews as calling the detector unconditionally |
| Editor.Page.constructor | src/pages/index.tsx:13-25 | the page starts with no tubes, no undo, no selection and no previews |
| Editor.Page.Tubes | src/pages/index.tsx:15 | `tubes` is the history's current state |
| Editor.Page.RefreshPreviews | src/pages/index.tsx:28-39 | after the effect the previews are the detector's output for the current tubes, or empty for fewer than 2; the selection is untouched |
| Editor.Page.HandleAddTube | src/pages/index.tsx:41-55 | the appended list is pushed into the history, the new id is selected, and the previews match the new list |
| Editor.Page.HandleUpdateTube | src/pages/index.tsx:57-59 | the updated list is pushed into the history; the selection is unchanged |
| Editor.Page.HandleDeleteTube | src/pages/index.tsx:61-67 | the filtered list is pushed; the selection is cleared iff it was the deleted id; no tube with that id remains |
| Editor.Page.Undo | src/pages/index.tsx:137 | the toolbar's undo steps the history back and the previews follow |
| Editor.Page.Redo | src/pages/index.tsx:138 | the toolbar's redo steps the history forward and the previews follow |
| Editor.Page.HandleKeyDown | src/hooks/useUndoRedo.tsx:56-68 | a Ctrl/Cmd+Z or Y chord applies its command to the page's history, the default is prevented exactly for such a chord, the previews follow and the selection is kept |

## Left out

- Floating point: positions, sizes and angles are `real`, with no IEEE-754 rounding, NaN or infinity.
- `Vector3.distanceTo`, `Euler`/`applyEuler`, `angleTo` and the factor `180 / Math.PI` are not computed. They are parameters (`Geometry`) with the axioms of `Lawful`, so the exact angle value is not modelled.
- Non-finite input: the code performs no validity check, so a non-finite coordinate cannot make the detector fail, and none is modelled. The invariant that ids are unique is not enforced by the code either, so the model allows duplicate ids (see `Editor.FindAfterAdd`).
- `toast` notifications, including the count message after detection: UI side effects with no effect on state.
- React scheduling:
  - each hook operation is one atomic transition;
  - the `setState` closure's possibly stale `currentIndex`, the batching of `setHistory`/`setCurrentIndex`, and the effect's timing after render are not modelled;
  - each `Page` handler runs the effect at its end.
- `window.addEventListener`/`removeEventListener` registration of the keyboard handler, and `preventDefault` itself, which is reported as a boolean result.
- `Date.now()` id generation: the id is a parameter of `Page.HandleAddTube`.
- TypeScript's `Partial` update can write `undefined` into a required field. That is not modelled: an update field is either absent or carries a value of the field's type.
- The remaining fields of the page (`wireframe`, the mobile sheet) and everything rendered: `TubeControls`, `TubeVisualizer`, `TubeMesh`, the toolbar, and the Electron preload bridge.
- `JointConnection` in `src/types/tube.ts` is declared but unused by the core; it is not part of this model.
- Editor.WithTubeUpdated: its own contract states only the length. The per-position content is stated by `Editor.UpdateOnlyMatching`.
- Editor.WithoutTube: its own contract states only the length. Which tubes remain, and in what order, is stated by `Editor.WithoutTubeMembers` and `Editor.DeleteConcat`.
