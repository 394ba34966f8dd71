/**
 * The editor page (src/pages/index.tsx): the tube list kept in the undo/redo
 * history, the selected tube, and the joint previews recomputed whenever the
 * tube list changes.
 */
module Editor {
  import opened Wrappers
  import opened TubeTypes
  import opened JointDetection
  import opened UndoRedo

  // ---------------------------------------------------------------------
  // Edits to the tube list, as values

  /** The tube `handleAddTube` creates: fixed defaults, square tubes 1 wide, rectangular 1.5. */
  function NewTube(kind: TubeKind, id: string): (t: Tube)
    ensures t.id == id && t.kind == kind
    ensures t.width == (if kind == Square then 1.0 else 1.5)
    ensures t.height == 1.0 && t.thickness == 0.1 && t.length == 3.0
    ensures t.position == Vec3(0.0, 0.0, 0.0) && t.rotation == Vec3(0.0, 0.0, 0.0)
    ensures t.parentId.None? && t.jointAngle.None?
  {
    Tube(id, kind, if kind == Square then 1.0 else 1.5, 1.0, 0.1, 3.0,
      Vec3(0.0, 0.0, 0.0), Vec3(0.0, 0.0, 0.0), None, None)
  }

  /** `[...tubes, newTube]`. */
  function WithTubeAdded(tubes: seq<Tube>, kind: TubeKind, id: string): (r: seq<Tube>)
    ensures |r| == |tubes| + 1 && r[..|tubes|] == tubes
    ensures r[|tubes|] == NewTube(kind, id)
  {
    tubes + [NewTube(kind, id)]
  }

  /** `tubes.map(tube => tube.id === id ? { ...tube, ...updates } : tube)`. */
  function WithTubeUpdated(tubes: seq<Tube>, id: string, u: TubeUpdate): (r: seq<Tube>)
    ensures |r| == |tubes|
  {
    if tubes == [] then []
    else
      var t := tubes[0];
      [if t.id == id then Merge(t, u) else t] + WithTubeUpdated(tubes[1..], id, u)
  }

  /** `tubes.filter(tube => tube.id !== id)`. */
  function WithoutTube(tubes: seq<Tube>, id: string): (r: seq<Tube>)
    ensures |r| <= |tubes|
  {
    if tubes == [] then []
    else
      var rest := WithoutTube(tubes[1..], id);
      if tubes[0].id == id then rest else [tubes[0]] + rest
  }

  /** `tubes.find(t => t.id === id)`: the first tube with that id. */
  function FindTube(tubes: seq<Tube>, id: string): (r: Option<Tube>)
    ensures r.None? <==> forall k :: 0 <= k < |tubes| ==> tubes[k].id != id
    ensures r.Some? ==> r.value.id == id && exists k :: (0 <= k < |tubes| && tubes[k] == r.value
      && forall j :: 0 <= j < k ==> tubes[j].id != id)
  {
    if tubes == [] then None
    else if tubes[0].id == id then Some(tubes[0])
    else
      var r := FindTube(tubes[1..], id);
      assert forall k :: 1 <= k < |tubes| ==> tubes[k] == tubes[1..][k - 1];
      if r.Some? then
        var k :| 0 <= k < |tubes[1..]| && tubes[1..][k] == r.value && r.value.id == id
          && forall j :: 0 <= j < k ==> tubes[1..][j].id != id;
        assert tubes[k + 1] == r.value;
        r
      else r
  }

  /** `selectedTube`: nothing is selected when no id is, or when no tube carries it. */
  function SelectedTube(tubes: seq<Tube>, selected: Option<string>): (r: Option<Tube>)
    ensures r.Some? ==> selected.Some? && r.value in tubes && r.value.id == selected.value
  {
    match selected
    case None => None
    case Some(id) => FindTube(tubes, id)
  }

  /** The effect's outcome: previews for two or more tubes, none otherwise. */
  function PreviewsFor(g: Geometry, tubes: seq<Tube>): seq<JointPreview>
  {
    if |tubes| >= 2 then Detect(g, tubes) else []
  }

  // ---------------------------------------------------------------------
  // What the edits promise

  /** Updating a single tube changes only tubes with that id, and keeps the order. */
  lemma {:induction false} UpdateOnlyMatching(tubes: seq<Tube>, id: string, u: TubeUpdate)
    ensures forall k :: 0 <= k < |tubes| ==>
      WithTubeUpdated(tubes, id, u)[k] == if tubes[k].id == id then Merge(tubes[k], u) else tubes[k]
  {
    if tubes != [] {
      UpdateOnlyMatching(tubes[1..], id, u);
    }
  }

  /** Updating an id no tube carries leaves the list as it was. */
  lemma UpdateAbsentIdentity(tubes: seq<Tube>, id: string, u: TubeUpdate)
    requires forall t :: t in tubes ==> t.id != id
    ensures WithTubeUpdated(tubes, id, u) == tubes
  {
    UpdateOnlyMatching(tubes, id, u);
  }

  /**
   * Sending the same update twice is the same as sending it once. An update
   * that renames the tube moves it off `id`, so the second pass matches nothing.
   */
  lemma UpdateIdempotent(tubes: seq<Tube>, id: string, u: TubeUpdate)
    ensures WithTubeUpdated(WithTubeUpdated(tubes, id, u), id, u) == WithTubeUpdated(tubes, id, u)
  {
    var once := WithTubeUpdated(tubes, id, u);
    UpdateOnlyMatching(tubes, id, u);
    UpdateOnlyMatching(once, id, u);
    forall k | 0 <= k < |tubes|
      ensures WithTubeUpdated(once, id, u)[k] == once[k]
    {
      if tubes[k].id == id {
        MergeIdempotent(tubes[k], u);
      }
    }
  }

  /** The delete keeps exactly the tubes whose id differs. */
  lemma {:induction false} WithoutTubeMembers(tubes: seq<Tube>, id: string)
    ensures forall t :: t in WithoutTube(tubes, id) <==> t in tubes && t.id != id
  {
    if tubes != [] {
      WithoutTubeMembers(tubes[1..], id);
      assert tubes == [tubes[0]] + tubes[1..];
    }
  }

  /**
   * The delete is a filter: it works tube by tube, dropping exactly the
   * tubes with that id and keeping the others in their order.
   */
  lemma {:induction false} DeleteConcat(xs: seq<Tube>, ys: seq<Tube>, id: string)
    ensures WithoutTube(xs + ys, id) == WithoutTube(xs, id) + WithoutTube(ys, id)
    ensures |xs| == 1 ==> WithoutTube(xs, id) == if xs[0].id == id then [] else xs
  {
    if xs == [] {
      assert xs + ys == ys;
    } else {
      assert (xs + ys)[0] == xs[0];
      assert (xs + ys)[1..] == xs[1..] + ys;
      DeleteConcat(xs[1..], ys, id);
      if |xs| == 1 {
        assert xs[1..] == [];
        assert [xs[0]] == xs;
      }
    }
  }

  /** Deleting an id no tube carries leaves the list as it was. */
  lemma {:induction false} DeleteAbsentIdentity(tubes: seq<Tube>, id: string)
    requires forall k :: 0 <= k < |tubes| ==> tubes[k].id != id
    ensures WithoutTube(tubes, id) == tubes
  {
    if tubes != [] {
      DeleteAbsentIdentity(tubes[1..], id);
      assert tubes == [tubes[0]] + tubes[1..];
    }
  }

  /** Deleting twice is deleting once. */
  lemma DeleteIdempotent(tubes: seq<Tube>, id: string)
    ensures WithoutTube(WithoutTube(tubes, id), id) == WithoutTube(tubes, id)
  {
    var r := WithoutTube(tubes, id);
    WithoutTubeMembers(tubes, id);
    assert forall k :: 0 <= k < |r| ==> r[k] in r;
    DeleteAbsentIdentity(r, id);
  }

  /** Deleting a tube just added, under an id not used before, restores the list. */
  lemma AddThenDelete(tubes: seq<Tube>, kind: TubeKind, id: string)
    requires forall k :: 0 <= k < |tubes| ==> tubes[k].id != id
    ensures WithoutTube(WithTubeAdded(tubes, kind, id), id) == tubes
  {
    DeleteConcat(tubes, [NewTube(kind, id)], id);
    DeleteAbsentIdentity(tubes, id);
  }

  /** A freshly added tube is found under its id, unless an older tube already carries it. */
  lemma {:induction false} FindAfterAdd(tubes: seq<Tube>, kind: TubeKind, id: string)
    ensures FindTube(WithTubeAdded(tubes, kind, id), id)
      == if FindTube(tubes, id).Some? then FindTube(tubes, id) else Some(NewTube(kind, id))
  {
    if tubes != [] {
      assert WithTubeAdded(tubes, kind, id)[1..] == WithTubeAdded(tubes[1..], kind, id);
      FindAfterAdd(tubes[1..], kind, id);
    }
  }

  /** After a delete no tube is found under the deleted id. */
  lemma FindAfterDelete(tubes: seq<Tube>, id: string)
    ensures FindTube(WithoutTube(tubes, id), id).None?
  {
    var r := WithoutTube(tubes, id);
    WithoutTubeMembers(tubes, id);
    assert forall k :: 0 <= k < |r| ==> r[k] in r;
  }

  /** The effect's `length >= 2` guard changes nothing: the detector finds no pair in fewer tubes. */
  lemma PreviewGuardRedundant(g: Geometry, tubes: seq<Tube>)
    ensures PreviewsFor(g, tubes) == Detect(g, tubes)
  {
    if |tubes| < 2 {
      DetectFewTubes(g, tubes);
    }
  }

  // ---------------------------------------------------------------------
  // The page as an object

  /**
   * The page's state. The tube list lives in the undo/redo history; the
   * selection and the previews are plain React state.
   */
  class Page {
    const geometry: Geometry
    const history: History<seq<Tube>>
    var selectedTubeId: Option<string>
    var jointPreviews: seq<JointPreview>

    /** The history is well formed and the previews belong to the current tube list. */
    predicate Valid()
      reads this, history
    {
      history.Valid() && jointPreviews == PreviewsFor(geometry, history.Model().Current())
    }

    /** `tubes`: the tube list under the history's cursor. */
    function Tubes(): (ts: seq<Tube>)
      requires history.Valid()
      reads this, history
      ensures ts == history.Model().Current()
    {
      history.State()
    }

    /** The first render: no tubes, nothing selected, no previews. */
    constructor(g: Geometry)
      ensures Valid() && fresh(history)
      ensures geometry == g && Tubes() == [] && !history.Model().CanUndo()
      ensures selectedTubeId.None? && jointPreviews == []
    {
      geometry := g;
      history := new History<seq<Tube>>([]);
      selectedTubeId := None;
      jointPreviews := [];
    }

    /** The effect on `[tubes]`: recompute the previews for the current list. */
    method RefreshPreviews()
      requires history.Valid()
      modifies this
      ensures Valid()
      ensures selectedTubeId == old(selectedTubeId)
    {
      var tubes := history.State();
      if |tubes| >= 2 {
        jointPreviews := DetectPotentialJoints(geometry, tubes);
      } else {
        jointPreviews := [];
      }
    }

    /** `handleAddTube`, then the effect; `id` stands for `tube-${Date.now()}`. */
    method HandleAddTube(kind: TubeKind, id: string)
      requires Valid()
      modifies this, history
      ensures Valid()
      ensures history.Model() == old(history.Model()).Push(WithTubeAdded(old(Tubes()), kind, id))
      ensures selectedTubeId == Some(id)
    {
      var tubes := history.State();
      history.SetState(WithTubeAdded(tubes, kind, id));
      selectedTubeId := Some(id);
      RefreshPreviews();
    }

    /** `handleUpdateTube`, then the effect. */
    method HandleUpdateTube(id: string, u: TubeUpdate)
      requires Valid()
      modifies this, history
      ensures Valid()
      ensures history.Model() == old(history.Model()).Push(WithTubeUpdated(old(Tubes()), id, u))
      ensures selectedTubeId == old(selectedTubeId)
    {
      var tubes := history.State();
      history.SetState(WithTubeUpdated(tubes, id, u));
      RefreshPreviews();
    }

    /** `handleDeleteTube`, then the effect: the selection is cleared when it was the deleted tube. */
    method HandleDeleteTube(id: string)
      requires Valid()
      modifies this, history
      ensures Valid()
      ensures history.Model() == old(history.Model()).Push(WithoutTube(old(Tubes()), id))
      ensures selectedTubeId == if old(selectedTubeId) == Some(id) then None else old(selectedTubeId)
      ensures SelectedTube(Tubes(), Some(id)).None?
    {
      var tubes := history.State();
      history.SetState(WithoutTube(tubes, id));
      if selectedTubeId == Some(id) {
        selectedTubeId := None;
      }
      RefreshPreviews();
      FindAfterDelete(tubes, id);
    }

    /** The toolbar's undo, then the effect. */
    method Undo()
      requires Valid()
      modifies this, history
      ensures Valid()
      ensures history.Model() == old(history.Model()).Undo()
      ensures selectedTubeId == old(selectedTubeId)
    {
      history.Undo();
      RefreshPreviews();
    }

    /**
     * The page-wide `keydown` listener: Ctrl/Cmd+Z or Y steps the history,
     * and the effect then reruns for the tube list under the cursor.
     */
    method HandleKeyDown(e: KeyEvent) returns (prevented: bool)
      requires Valid()
      modifies this, history
      ensures Valid()
      ensures prevented <==> Classify(e) != NoCommand
      ensures history.Model() == Apply(Classify(e), old(history.Model()))
      ensures selectedTubeId == old(selectedTubeId)
    {
      prevented := history.HandleKeyDown(e);
      RefreshPreviews();
    }

    /** The toolbar's redo, then the effect. */
    method Redo()
      requires Valid()
      modifies this, history
      ensures Valid()
      ensures history.Model() == old(history.Model()).Redo()
      ensures selectedTubeId == old(selectedTubeId)
    {
      history.Redo();
      RefreshPreviews();
    }
  }
}
