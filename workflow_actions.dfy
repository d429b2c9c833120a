/**
 * The action layer over the logical workflow graph: every change to operators,
 * ports, links, comment boxes and element positions goes through one of these
 * actions, which checks before it changes anything and runs as one bundle.
 *
 * A bundle is one atomic step. The replicated document's undo manager records
 * a bundle as one entry holding the state before it, and only when the bundle
 * changed the replicated state; a new entry empties the redo stack. Actions
 * that run inside another action's bundle are written as `...Step` methods,
 * which leave the recording to the outermost action. An error raised inside a
 * bundle ends it early: what the bundle changed before the error stays, and is
 * recorded.
 */
module WorkflowActions {
  import opened Types
  import opened PortIds
  import opened Naming
  import opened GraphSpec

  /** The replicated part of the workflow, as the undo manager sees it. */
  datatype SharedState = SharedState(
    operators: map<string, Operator>,
    links: map<string, OperatorLink>,
    commentBoxes: map<string, CommentBox>,
    positions: map<string, Point>,
    portProperties: map<LogicalPort, Property>)

  /** The undo stack after a bundle that started in `before` and ended in `after`. */
  function Recorded(undo: seq<SharedState>, before: SharedState, after: SharedState): seq<SharedState> {
    if after != before then undo + [before] else undo
  }

  /** The redo stack after a bundle that started in `before` and ended in `after`. */
  function RedoAfter(redo: seq<SharedState>, before: SharedState, after: SharedState): seq<SharedState> {
    if after != before then [] else redo
  }

  function Shift(p: Point, dx: int, dy: int): Point {
    Point(p.x + dx, p.y + dy)
  }

  /**
   * Where the group move puts an element: shifted once for each of the two
   * highlight lists (operators, then comment boxes) that carries it.
   */
  function GroupShift(p: Point, inOperators: bool, inCommentBoxes: bool, dx: int, dy: int): Point {
    var q := if inOperators then Shift(p, dx, dy) else p;
    if inCommentBoxes then Shift(q, dx, dy) else q
  }

  /** Every point of `ids` translated by (dx, dy); the others kept. */
  function ShiftAll(at: map<string, Point>, ids: set<string>, dx: int, dy: int): (r: map<string, Point>)
    ensures r.Keys == at.Keys
    ensures forall id :: id in at ==> r[id] == if id in ids then Shift(at[id], dx, dy) else at[id]
  {
    map id | id in at :: if id in ids then Shift(at[id], dx, dy) else at[id]
  }

  lemma ShiftAllOneMore(at: map<string, Point>, done: set<string>, id: string, dx: int, dy: int)
    requires id in at && id !in done
    ensures ShiftAll(at, done + {id}, dx, dy)
         == ShiftAll(at, done, dx, dy)[id := Shift(ShiftAll(at, done, dx, dy)[id], dx, dy)]
  {
  }

  /** `base` with the entries of `ids` taken from `at`. */
  function Overwrite(base: map<string, Point>, at: map<string, Point>, ids: set<string>): (r: map<string, Point>)
    requires ids <= at.Keys
    ensures r.Keys == base.Keys + ids
    ensures forall id :: id in r ==> r[id] == if id in ids then at[id] else base[id]
  {
    map id | id in base.Keys + ids :: if id in ids then at[id] else base[id]
  }

  lemma OverwriteOneMore(base: map<string, Point>, at: map<string, Point>, done: set<string>, id: string)
    requires done <= at.Keys && id in at
    ensures Overwrite(base, at, done + {id}) == Overwrite(base, at, done)[id := at[id]]
  {
  }

  /**
   * The element positions after moving the elements of `a` and then those of
   * `b` along by (dx, dy), copying each new drawn position into the position
   * map: an element of exactly one of them moves once, each moved element's
   * entry is its drawn position, and nothing else changes. An element of
   * both moves twice.
   */
  lemma GroupMove(positions: map<string, Point>, at: map<string, Point>, a: set<string>, b: set<string>,
                  dx: int, dy: int)
    requires a + b <= at.Keys
    ensures var at1 := ShiftAll(at, a, dx, dy);
            var at2 := ShiftAll(at1, b, dx, dy);
            var after := Overwrite(Overwrite(positions, at1, a), at2, b);
            && after.Keys == positions.Keys + a + b
            && (forall id :: id in a + b && !(id in a && id in b) ==> at2[id] == Shift(at[id], dx, dy))
            && (forall id :: id in a && id in b ==> at2[id] == Shift(Shift(at[id], dx, dy), dx, dy))
            && (forall id :: id in at2 && id !in a + b ==> at2[id] == at[id])
            && (forall id :: id in a + b ==> after[id] == at2[id])
            && (forall id :: id in positions && id !in a + b ==> after[id] == positions[id])
  {
  }

  /**
   * The comment boxes after the drag listener records, in every selected box
   * whose id names a comment box, the box's drawn position.
   */
  function PersistBoxPositions(boxes: map<string, CommentBox>, selected: set<string>, at: map<string, Point>)
    : (r: map<string, CommentBox>)
    requires selected <= at.Keys
    ensures r.Keys == boxes.Keys
    ensures forall id :: id in r ==> r[id].commentBoxID == boxes[id].commentBoxID
    ensures forall id :: id in r ==> r[id].comments == boxes[id].comments
    ensures forall id :: id in r && id in selected && ContainsSubstring(id, "commentBox") ==>
              r[id].commentBoxPosition == at[id]
    ensures forall id :: id in r && !(id in selected && ContainsSubstring(id, "commentBox")) ==> r[id] == boxes[id]
  {
    map id | id in boxes ::
      if id in selected && ContainsSubstring(id, "commentBox") then boxes[id].(commentBoxPosition := at[id])
      else boxes[id]
  }

  /**
   * The drag of `moved` to `newPosition` moved the selection: every selected
   * element whose id names a comment box records its drawn position, the
   * dragged element is stored at `newPosition`, the other highlighted
   * operators and then the other highlighted comment boxes are shifted by
   * (dx, dy) in the drawn positions, and each shifted element's stored
   * position becomes its drawn one.
   */
  ghost predicate SelectionMoved(moved: string, newPosition: Point, dx: int, dy: int,
                                 highlightedOps: set<string>, highlightedBoxes: set<string>,
                                 positions0: map<string, Point>, joint0: map<string, Point>,
                                 boxes0: map<string, CommentBox>,
                                 positions1: map<string, Point>, joint1: map<string, Point>,
                                 boxes1: map<string, CommentBox>)
  {
    var a, b := highlightedOps - {moved}, highlightedBoxes - {moved};
    && highlightedOps + highlightedBoxes <= joint0.Keys
    && boxes1 == PersistBoxPositions(boxes0, highlightedOps + highlightedBoxes, joint0)
    && joint1 == ShiftAll(ShiftAll(joint0, a, dx, dy), b, dx, dy)
    && positions1 == Overwrite(Overwrite(positions0[moved := newPosition], ShiftAll(joint0, a, dx, dy), a), joint1, b)
  }

  lemma PersistOneMore(boxes: map<string, CommentBox>, done: set<string>, id: string, at: map<string, Point>)
    requires done <= at.Keys && id in at && id !in done
    ensures PersistBoxPositions(boxes, done + {id}, at) ==
      if ContainsSubstring(id, "commentBox") && id in boxes
      then PersistBoxPositions(boxes, done, at)[id := boxes[id].(commentBoxPosition := at[id])]
      else PersistBoxPositions(boxes, done, at)
  {
  }

  /** `p` is the componentwise minimum of the points of `ids`. */
  ghost predicate IsTopLeft(p: Point, ids: set<string>, at: map<string, Point>)
    requires ids <= at.Keys
  {
    && (forall id :: id in ids ==> p.x <= at[id].x && p.y <= at[id].y)
    && (exists id :: id in ids && at[id].x == p.x)
    && (exists id :: id in ids && at[id].y == p.y)
  }

  /** There is only one componentwise minimum. */
  lemma TopLeftUnique(p: Point, q: Point, ids: set<string>, at: map<string, Point>)
    requires ids <= at.Keys && IsTopLeft(p, ids, at) && IsTopLeft(q, ids, at)
    ensures p == q
  {
    var a :| a in ids && at[a].x == p.x;
    var b :| b in ids && at[b].x == q.x;
    var c :| c in ids && at[c].y == p.y;
    var d :| d in ids && at[d].y == q.y;
    assert q.x <= at[a].x && p.x <= at[b].x;
    assert q.y <= at[c].y && p.y <= at[d].y;
  }

  /** The values of a map, one per key, in some order. */
  method ValuesOf<V(==)>(m: map<string, V>) returns (s: seq<V>)
    ensures |s| == |m.Keys|
    ensures forall v :: v in s <==> v in m.Values
  {
    s := [];
    var todo := m.Keys;
    while todo != {}
      invariant todo <= m.Keys
      invariant |s| + |todo| == |m.Keys|
      invariant forall v :: v in s <==> exists k :: k in m.Keys - todo && m[k] == v
      decreases |todo|
    {
      var k :| k in todo;
      s := s + [m[k]];
      todo := todo - {k};
    }
  }

  /** The keys of a map, in some order. */
  method KeysOf<V>(m: map<string, V>) returns (s: seq<string>)
    ensures Elems(s) == m.Keys
  {
    s := [];
    var todo := m.Keys;
    while todo != {}
      invariant todo <= m.Keys
      invariant Elems(s) == m.Keys - todo
      decreases |todo|
    {
      var k :| k in todo;
      assert Elems(s + [k]) == Elems(s) + {k};
      s := s + [k];
      todo := todo - {k};
    }
  }

  /**
   * The position check of a reload: the index of the first operator of `ops`
   * that has no entry in `at`, or |ops| when every one has.
   */
  method FirstUnplaced(ops: seq<Operator>, at: map<string, Point>) returns (i: nat)
    ensures i <= |ops|
    ensures forall j :: 0 <= j < i ==> ops[j].operatorID in at
    ensures i < |ops| ==> ops[i].operatorID !in at
    ensures i == FirstMissing(OperatorIdList(ops), at.Keys)
  {
    i := 0;
    while i < |ops|
      invariant i <= |ops|
      invariant forall j :: 0 <= j < i ==> ops[j].operatorID in at
    {
      if ops[i].operatorID !in at {
        FirstMissingIs(OperatorIdList(ops), at.Keys, i);
        return;
      }
      i := i + 1;
    }
    FirstMissingIs(OperatorIdList(ops), at.Keys, i);
  }

  /** Every operator of the snapshot has an entry in its position table. */
  predicate AllPlaced(content: WorkflowContent) {
    forall op :: op in content.operators ==> op.operatorID in content.operatorPositions
  }

  /**
   * The loop of a flag batch: flags the operators of `ids` in order and stops
   * at the first id that names no operator, returning its index.
   */
  method FlagListed(ops: map<string, Operator>, ids: seq<string>, flag: OperatorFlag, value: bool)
    returns (i: nat, flagged: map<string, Operator>)
    ensures i == FirstMissing(ids, ops.Keys)
    ensures flagged == FlagAll(ops, Elems(ids[..i]), flag, value)
  {
    assert ids[..0] == [];
    i, flagged := 0, ops;
    while i < |ids| && ids[i] in ops
      invariant i <= |ids|
      invariant forall j :: 0 <= j < i ==> ids[j] in ops
      invariant flagged == FlagAll(ops, Elems(ids[..i]), flag, value)
    {
      FlagAllSnoc(ops, ids, i, flag, value, flagged);
      flagged := flagged[ids[i] := WithFlag(flagged[ids[i]], flag, value)];
      i := i + 1;
    }
    FirstMissingIs(ids, ops.Keys, i);
  }

  /** Deletes the links `all` one by one, unhighlighting each. */
  method RemoveLinks(links: map<string, OperatorLink>, highlighted: set<string>, all: set<string>)
    returns (rest: map<string, OperatorLink>, stillHighlighted: set<string>)
    ensures rest == links - all
    ensures stillHighlighted == highlighted - all
  {
    rest, stillHighlighted := links, highlighted;
    var todo := all;
    while todo != {}
      invariant todo <= all
      invariant rest == links - (all - todo)
      invariant stillHighlighted == highlighted - (all - todo)
      decreases |todo|
    {
      var linkID :| linkID in todo;
      stillHighlighted := stillHighlighted - {linkID};
      rest := rest - {linkID};
      todo := todo - {linkID};
    }
  }

  /**
   * The loop of a bulk delete, over operators no link touches any more:
   * deletes the listed operators in order with their positions, unhighlighting
   * each, and stops at the first id that names no operator, returning its
   * index.
   */
  method RemoveOperators(ops: map<string, Operator>, at: map<string, Point>, highlighted: set<string>, u: seq<string>)
    returns (i: nat, ops1: map<string, Operator>, at1: map<string, Point>, highlighted1: set<string>)
    requires NoDuplicates(u)
    ensures i == FirstMissing(u, ops.Keys)
    ensures ops1 == ops - Elems(u[..i]) && at1 == at - Elems(u[..i])
    ensures highlighted1 == highlighted - Elems(u[..i])
  {
    assert u[..0] == [];
    i, ops1, at1, highlighted1 := 0, ops, at, highlighted;
    while i < |u| && u[i] in ops1
      invariant i <= |u|
      invariant forall j :: 0 <= j < i ==> u[j] in ops
      invariant ops1 == ops - Elems(u[..i]) && at1 == at - Elems(u[..i])
      invariant highlighted1 == highlighted - Elems(u[..i])
    {
      assert Elems(u[..i + 1]) == Elems(u[..i]) + {u[i]} by {
        assert u[..i + 1] == u[..i] + [u[i]];
      }
      highlighted1 := highlighted1 - {u[i]};
      ops1 := ops1 - {u[i]};
      if u[i] in at1 {
        at1 := at1 - {u[i]};
      }
      i := i + 1;
    }
    if i < |u| {
      assert u[i] !in Elems(u[..i]) by {
        forall j | 0 <= j < i ensures u[j] != u[i] { }
      }
    }
    FirstMissingIs(u, ops.Keys, i);
  }

  /**
   * `updated` is `op` with one new dynamic port in the given direction, whose
   * id is the first free candidate of that direction's prefix against the
   * port ids of `scanned`, counting from the direction's port count.
   */
  ghost predicate PortAppended(op: Operator, updated: Operator, isInput: bool, allowMultiInputs: Option<bool>,
                               scanned: seq<PortDescription>)
  {
    var prefix := if isInput then InputPrefix else OutputPrefix;
    exists n :: && IsProbeResult(PortIdsOf(scanned), prefix, |PortsOf(op, isInput)|, n)
                && updated == WithPort(op, DynamicPort(PortIdFor(prefix, n), allowMultiInputs), isInput)
  }

  /** Probes `scanned` for a free id and appends a dynamic port under it. */
  method AppendProbedPort(op: Operator, isInput: bool, allowMultiInputs: Option<bool>, scanned: seq<PortDescription>)
    returns (updated: Operator)
    ensures PortAppended(op, updated, isInput, allowMultiInputs, scanned)
    ensures updated.operatorID == op.operatorID && updated != op
    ensures scanned == PortsOf(op, isInput) && PortIdsDistinct(scanned) ==> PortIdsDistinct(PortsOf(updated, isInput))
  {
    var prefix := if isInput then InputPrefix else OutputPrefix;
    var suffix, portID := Probe(scanned, prefix, |PortsOf(op, isInput)|);
    var port := DynamicPort(portID, allowMultiInputs);
    updated := WithPort(op, port, isInput);
    assert |PortsOf(updated, isInput)| == |PortsOf(op, isInput)| + 1;
    if scanned == PortsOf(op, isInput) && PortIdsDistinct(scanned) {
      AppendFreshPort(scanned, port);
    }
  }

  class WorkflowActionService {
    // Collaborators outside this model: the operator-type registry, the link
    // validator, the operator-version migration and the configured default
    // batch size.
    const operatorTypeExists: string -> bool
    const linkAccepted: OperatorLink -> bool
    const updateOperatorVersion: Operator -> Operator
    const defaultDataTransferBatchSize: int

    // The logical graph and the replicated element-position map.
    var operators: map<string, Operator>
    var links: map<string, OperatorLink>
    var commentBoxes: map<string, CommentBox>
    var portProperties: map<LogicalPort, Property>
    var positions: map<string, Point>

    // Where the rendering layer currently draws each element.
    var jointPositions: map<string, Point>

    // The current selection.
    var highlightedOperators: set<string>
    var highlightedLinks: set<string>
    var highlightedCommentBoxes: set<string>
    var highlightedPorts: set<LogicalPort>
    var multiSelect: bool

    var workflowMetadata: WorkflowMetadata
    ghost var metadataChanges: nat  // how often the metadata-change event fired
    var workflowSettings: WorkflowSettings
    var tempWorkflow: Option<Workflow>
    var workflowModificationEnabled: bool
    var highlightingEnabled: bool
    var centerPoint: Point

    // The undo manager's stacks and the collaborative session.
    var undoStack: seq<SharedState>
    var redoStack: seq<SharedState>
    var connected: bool

    // Listener switches: the drag listener of the rendering layer, the undo
    // service's joint-command listener, the graph's sync switch, and the
    // rendering layer's reloading mark.
    var listenPositionChange: bool
    var listenJointCommand: bool
    var syncTexeraGraph: bool
    var reloadingWorkflow: bool

    /** Operators, links and comment boxes are stored under their own ids. */
    ghost predicate KeysMatch()
      reads this`operators, this`links, this`commentBoxes
    {
      OperatorsKeyed() && LinksKeyed() && BoxesKeyed()
    }

    ghost predicate OperatorsKeyed()
      reads this`operators
    {
      forall id :: id in operators ==> operators[id].operatorID == id
    }

    ghost predicate LinksKeyed()
      reads this`links
    {
      forall id :: id in links ==> links[id].linkID == id
    }

    ghost predicate BoxesKeyed()
      reads this`commentBoxes
    {
      forall id :: id in commentBoxes ==> commentBoxes[id].commentBoxID == id
    }

    /** Every link ends on operators of the graph. */
    ghost predicate NoDanglingLinks()
      reads this`operators, this`links
    {
      forall id :: id in links ==>
        links[id].source.operatorID in operators && links[id].target.operatorID in operators
    }

    /**
     * The graph's structural invariant: ids match keys, no link dangles, no
     * two links join the same ports, and every operator has a position.
     */
    ghost predicate Valid()
      reads this`operators, this`links, this`commentBoxes, this`positions
    {
      KeysMatch() && NoDanglingLinks() && EndpointsUnique(links) && operators.Keys <= positions.Keys
    }

    function Shared(): SharedState
      reads this`operators, this`links, this`commentBoxes, this`positions, this`portProperties
    {
      SharedState(operators, links, commentBoxes, positions, portProperties)
    }

    predicate NothingHighlighted()
      reads this`highlightedOperators, this`highlightedLinks, this`highlightedCommentBoxes, this`highlightedPorts
    {
      highlightedOperators == {} && highlightedLinks == {} && highlightedCommentBoxes == {} && highlightedPorts == {}
    }

    function DefaultSettings(): WorkflowSettings {
      WorkflowSettings(defaultDataTransferBatchSize)
    }

    constructor (operatorTypeExists: string -> bool, linkAccepted: OperatorLink -> bool,
                 updateOperatorVersion: Operator -> Operator, defaultDataTransferBatchSize: int)
      ensures Valid()
      ensures this.operatorTypeExists == operatorTypeExists && this.linkAccepted == linkAccepted
      ensures this.updateOperatorVersion == updateOperatorVersion
      ensures this.defaultDataTransferBatchSize == defaultDataTransferBatchSize
      ensures operators == map[] && links == map[] && commentBoxes == map[] && positions == map[]
      ensures workflowMetadata == DefaultWorkflow && workflowSettings == DefaultSettings()
      ensures workflowModificationEnabled && !highlightingEnabled && tempWorkflow == None
      ensures undoStack == [] && redoStack == [] && listenPositionChange && listenJointCommand
    {
      this.operatorTypeExists := operatorTypeExists;
      this.linkAccepted := linkAccepted;
      this.updateOperatorVersion := updateOperatorVersion;
      this.defaultDataTransferBatchSize := defaultDataTransferBatchSize;
      operators, links, commentBoxes, portProperties, positions := map[], map[], map[], map[], map[];
      jointPositions := map[];
      highlightedOperators, highlightedLinks, highlightedCommentBoxes, highlightedPorts := {}, {}, {}, {};
      multiSelect := false;
      workflowMetadata := DefaultWorkflow;
      metadataChanges := 0;
      workflowSettings := WorkflowSettings(defaultDataTransferBatchSize);
      tempWorkflow := None;
      workflowModificationEnabled := true;
      highlightingEnabled := false;
      centerPoint := Point(0, 0);
      undoStack, redoStack := [], [];
      connected := false;
      listenPositionChange, listenJointCommand, syncTexeraGraph := true, true, true;
      reloadingWorkflow := false;
    }

    /** Closes the outermost bundle: the undo manager records it if it changed anything. */
    method EndBundle(before: SharedState)
      modifies this`undoStack, this`redoStack
      ensures undoStack == Recorded(old(undoStack), before, Shared())
      ensures redoStack == RedoAfter(old(redoStack), before, Shared())
    {
      if Shared() != before {
        undoStack := undoStack + [before];
        redoStack := [];
      }
    }

    // -------------------------------------------------------------------------
    // The modification lock

    method EnableWorkflowModification()
      modifies this`workflowModificationEnabled
      ensures workflowModificationEnabled == (old(workflowModificationEnabled) || !workflowMetadata.readonly)
    {
      if !workflowMetadata.readonly && !workflowModificationEnabled {
        workflowModificationEnabled := true;
      }
    }

    method DisableWorkflowModification()
      modifies this`workflowModificationEnabled
      ensures !workflowModificationEnabled
    {
      workflowModificationEnabled := false;
    }

    // -------------------------------------------------------------------------
    // Operators

    method AddOperatorStep(op: Operator, point: Point) returns (r: Outcome)
      requires Valid()
      modifies this`multiSelect, this`operators, this`positions
      ensures Valid() && !multiSelect
      ensures r == OperatorCheck(old(operators), op, operatorTypeExists)
      ensures operators == if r.Pass? then old(operators)[op.operatorID := op] else old(operators)
      ensures positions == if r.Pass? then old(positions)[op.operatorID := point] else old(positions)
    {
      multiSelect := false;
      if op.operatorID in operators {
        return Fail(OperatorAlreadyExists(op.operatorID));
      }
      if !operatorTypeExists(op.operatorType) {
        return Fail(UnknownOperatorType(op.operatorType));
      }
      operators := operators[op.operatorID := op];
      positions := positions[op.operatorID := point];
      r := Pass;
    }

    /**
     * Adds an operator at a point. Fails, changing nothing but the multi-select
     * mode, when the id is taken or the type is unknown.
     */
    method AddOperator(op: Operator, point: Point) returns (r: Outcome)
      requires Valid()
      modifies this`multiSelect, this`operators, this`positions, this`undoStack, this`redoStack
      ensures Valid() && !multiSelect
      ensures r == OperatorCheck(old(operators), op, operatorTypeExists)
      ensures r.Pass? ==> && operators == old(operators)[op.operatorID := op]
                          && positions == old(positions)[op.operatorID := point]
                          && undoStack == old(undoStack) + [old(Shared())] && redoStack == []
      ensures r.Fail? ==> && operators == old(operators) && positions == old(positions)
                          && undoStack == old(undoStack) && redoStack == old(redoStack)
    {
      var before := Shared();
      r := AddOperatorStep(op, point);
      if r.Pass? {
        assert op.operatorID !in before.operators && op.operatorID in operators;
        EndBundle(before);
      }
    }

    method DeleteLinkWithIdStep(linkID: string) returns (r: Outcome)
      requires Valid()
      modifies this`links, this`highlightedLinks
      ensures Valid()
      ensures r == if linkID in old(links) then Pass else Fail(LinkNotFound)
      ensures links == old(links) - {linkID}
      ensures highlightedLinks == if r.Pass? then old(highlightedLinks) - {linkID} else old(highlightedLinks)
    {
      if linkID !in links {
        return Fail(LinkNotFound);
      }
      EndpointsUniqueRemove(links, {linkID});
      highlightedLinks := highlightedLinks - {linkID};
      links := links - {linkID};
      r := Pass;
    }

    /** Deletes a link by id; fails, changing nothing, when there is no such link. */
    method DeleteLinkWithId(linkID: string) returns (r: Outcome)
      requires Valid()
      modifies this`links, this`highlightedLinks, this`undoStack, this`redoStack
      ensures Valid()
      ensures r == if linkID in old(links) then Pass else Fail(LinkNotFound)
      ensures links == old(links) - {linkID}
      ensures highlightedLinks == if r.Pass? then old(highlightedLinks) - {linkID} else old(highlightedLinks)
      ensures undoStack == if r.Pass? then old(undoStack) + [old(Shared())] else old(undoStack)
      ensures redoStack == if r.Pass? then [] else old(redoStack)
    {
      var before := Shared();
      r := DeleteLinkWithIdStep(linkID);
      if r.Pass? {
        assert linkID in before.links && linkID !in links;
      }
      EndBundle(before);
    }

    /**
     * Deletes the links that touch one of `ids`, one by one, leaving every
     * other link in place.
     */
    method DeleteIncidentLinks(ids: set<string>)
      requires Valid()
      modifies this`links, this`highlightedLinks
      ensures Valid()
      ensures links == old(links) - Incident(old(links), ids)
      ensures highlightedLinks == old(highlightedLinks) - Incident(old(links), ids)
    {
      ghost var links0 := links;
      var all := Incident(links, ids);
      links, highlightedLinks := RemoveLinks(links, highlightedLinks, all);
      EndpointsUniqueRemove(links0, all);
    }

    method DeleteOperatorStep(operatorID: string) returns (r: Outcome)
      requires Valid()
      modifies this`highlightedOperators, this`links, this`highlightedLinks, this`operators, this`positions
      ensures Valid()
      ensures highlightedOperators == old(highlightedOperators) - {operatorID}
      ensures r == if operatorID in old(operators) then Pass else Fail(OperatorNotFound(operatorID))
      ensures links == old(links) - Incident(old(links), {operatorID})
      ensures highlightedLinks == old(highlightedLinks) - Incident(old(links), {operatorID})
      ensures operators == old(operators) - {operatorID}
      ensures positions == if r.Pass? then old(positions) - {operatorID} else old(positions)
    {
      highlightedOperators := highlightedOperators - {operatorID};
      DeleteIncidentLinks({operatorID});
      if operatorID !in operators {
        return Fail(OperatorNotFound(operatorID));
      }
      operators := operators - {operatorID};
      if operatorID in positions {
        positions := positions - {operatorID};
      }
      r := Pass;
    }

    /**
     * Deletes an operator together with every link that touches it, and its
     * position. Fails when there is no such operator; as no link can touch a
     * missing operator, only the selection is changed then.
     */
    method DeleteOperator(operatorID: string) returns (r: Outcome)
      requires Valid()
      modifies this`highlightedOperators, this`links, this`highlightedLinks, this`operators, this`positions
      modifies this`undoStack, this`redoStack
      ensures Valid()
      ensures highlightedOperators == old(highlightedOperators) - {operatorID}
      ensures r == if operatorID in old(operators) then Pass else Fail(OperatorNotFound(operatorID))
      ensures r.Pass? ==> && operators == old(operators) - {operatorID}
                          && positions == old(positions) - {operatorID}
                          && links == old(links) - Incident(old(links), {operatorID})
                          && highlightedLinks == old(highlightedLinks) - Incident(old(links), {operatorID})
                          && undoStack == old(undoStack) + [old(Shared())] && redoStack == []
      ensures forall lid :: lid in links ==> !Touches(links[lid], {operatorID})
      ensures r.Fail? ==> && operators == old(operators) && positions == old(positions)
                          && links == old(links) && highlightedLinks == old(highlightedLinks)
                          && undoStack == old(undoStack) && redoStack == old(redoStack)
    {
      var before := Shared();
      r := DeleteOperatorStep(operatorID);
      if r.Pass? {
        assert operatorID in before.operators && operatorID !in operators;
      } else {
        assert Incident(before.links, {operatorID}) == {};
        assert links == before.links;
      }
      EndBundle(before);
    }

    /** Adding a new operator and deleting it again restores the operators, links and positions. */
    method AddThenDeleteOperator(op: Operator, point: Point)
      requires Valid()
      requires op.operatorID !in operators && op.operatorID !in positions && operatorTypeExists(op.operatorType)
      modifies this`multiSelect, this`highlightedOperators, this`links, this`highlightedLinks
      modifies this`operators, this`positions, this`undoStack, this`redoStack
      ensures Valid()
      ensures operators == old(operators) && links == old(links) && positions == old(positions)
    {
      var added := AddOperator(op, point);
      assert Incident(links, {op.operatorID}) == {};
      var deleted := DeleteOperator(op.operatorID);
    }

    // -------------------------------------------------------------------------
    // Dynamic ports

    /**
     * addPort as written: the counter starts at the number of ports in the
     * requested direction, but the probing loop compares candidates with the
     * operator's INPUT ports whatever the direction.
     */
    method AddPort(operatorID: string, isInput: bool, allowMultiInputs: Option<bool>) returns (r: Outcome)
      requires Valid()
      modifies this`operators, this`undoStack, this`redoStack
      ensures Valid()
      ensures r == PortCheck(old(operators), operatorID, isInput, allowMultiInputs)
      ensures r.Fail? ==> operators == old(operators) && undoStack == old(undoStack) && redoStack == old(redoStack)
      ensures r.Pass? ==>
        && operatorID in operators
        && PortAppended(old(operators)[operatorID], operators[operatorID], isInput, allowMultiInputs,
                        old(operators)[operatorID].inputPorts)
        && operators == old(operators)[operatorID := operators[operatorID]]
        && undoStack == old(undoStack) + [old(Shared())] && redoStack == []
    {
      if operatorID !in operators {
        return Fail(OperatorNotFound(operatorID));
      }
      var op := operators[operatorID];
      var updated := AppendProbedPort(op, isInput, allowMultiInputs, op.inputPorts);
      r := SetProbedPort(operatorID, isInput, allowMultiInputs, updated);
    }

    /**
     * addPort as evidently intended: the probing loop compares candidates with
     * the ports of the requested direction, so the new id is one that
     * direction does not carry yet.
     */
    method AddPortIntended(operatorID: string, isInput: bool, allowMultiInputs: Option<bool>) returns (r: Outcome)
      requires Valid()
      modifies this`operators, this`undoStack, this`redoStack
      ensures Valid()
      ensures r == PortCheck(old(operators), operatorID, isInput, allowMultiInputs)
      ensures r.Fail? ==> operators == old(operators) && undoStack == old(undoStack) && redoStack == old(redoStack)
      ensures r.Pass? ==>
        var op := old(operators)[operatorID];
        && operatorID in operators
        && PortAppended(op, operators[operatorID], isInput, allowMultiInputs, PortsOf(op, isInput))
        && operators == old(operators)[operatorID := operators[operatorID]]
        && (PortIdsDistinct(PortsOf(op, isInput)) ==> PortIdsDistinct(PortsOf(operators[operatorID], isInput)))
        && undoStack == old(undoStack) + [old(Shared())] && redoStack == []
    {
      if operatorID !in operators {
        return Fail(OperatorNotFound(operatorID));
      }
      var op := operators[operatorID];
      var updated := AppendProbedPort(op, isInput, allowMultiInputs, PortsOf(op, isInput));
      r := SetProbedPort(operatorID, isInput, allowMultiInputs, updated);
    }

    /**
     * The checks and the update of addPort once the new port is chosen: the
     * operator must allow dynamic ports in that direction, and an output port
     * takes no allowMultiInputs option; then `updated` replaces the operator,
     * in one bundle.
     */
    method SetProbedPort(operatorID: string, isInput: bool, allowMultiInputs: Option<bool>, updated: Operator)
      returns (r: Outcome)
      requires Valid() && operatorID in operators
      requires updated.operatorID == operatorID && updated != operators[operatorID]
      modifies this`operators, this`undoStack, this`redoStack
      ensures Valid()
      ensures r == PortCheck(old(operators), operatorID, isInput, allowMultiInputs)
      ensures r.Fail? ==> operators == old(operators) && undoStack == old(undoStack) && redoStack == old(redoStack)
      ensures r.Pass? ==> && operators == old(operators)[operatorID := updated]
                          && undoStack == old(undoStack) + [old(Shared())] && redoStack == []
    {
      var op := operators[operatorID];
      if !op.dynamicInputPorts && isInput {
        return Fail(PortCapabilityViolation(operatorID));
      }
      if !op.dynamicOutputPorts && !isInput {
        return Fail(PortCapabilityViolation(operatorID));
      }
      if !isInput && allowMultiInputs.Some? {
        return Fail(InvalidPortOption);
      }
      var before := Shared();
      operators := operators[operatorID := updated];
      assert before.operators[operatorID] != operators[operatorID];
      EndBundle(before);
      r := Pass;
    }

    /**
     * Removes the last port of the given direction. Fails when the operator is
     * missing or has no port in that direction.
     */
    method RemovePort(operatorID: string, isInput: bool) returns (r: Outcome)
      requires Valid()
      modifies this`operators, this`undoStack, this`redoStack
      ensures Valid()
      ensures operatorID !in old(operators) ==> r == Fail(OperatorNotFound(operatorID))
      ensures operatorID in old(operators) && PortsOf(old(operators)[operatorID], isInput) == [] ==>
                r == Fail(NoPortToRemove(operatorID))
      ensures r.Fail? ==> operators == old(operators) && undoStack == old(undoStack) && redoStack == old(redoStack)
      ensures r.Pass? ==> && operatorID in old(operators)
                          && PortsOf(old(operators)[operatorID], isInput) != []
                          && operators == old(operators)[operatorID := WithoutLastPort(old(operators)[operatorID], isInput)]
                          && undoStack == old(undoStack) + [old(Shared())] && redoStack == []
    {
      if operatorID !in operators {
        return Fail(OperatorNotFound(operatorID));
      }
      var op := operators[operatorID];
      if (isInput && op.inputPorts == []) || (!isInput && op.outputPorts == []) {
        return Fail(NoPortToRemove(operatorID));
      }
      var before := Shared();
      var updated := WithoutLastPort(op, isInput);
      assert |PortsOf(updated, isInput)| + 1 == |PortsOf(op, isInput)|;
      operators := operators[operatorID := updated];
      assert before.operators[operatorID] != operators[operatorID];
      EndBundle(before);
      r := Pass;
    }

    // -------------------------------------------------------------------------
    // Links

    method AddLinkStep(link: OperatorLink) returns (r: Outcome)
      requires Valid()
      modifies this`links
      ensures Valid()
      ensures r == LinkCheck(old(links), operators.Keys, link, linkAccepted)
      ensures links == if r.Pass? then old(links)[link.linkID := link] else old(links)
    {
      if link.linkID in links || HasLinkBetween(links, link.source, link.target) {
        return Fail(LinkAlreadyExists(link.linkID));
      }
      if !(link.source.operatorID in operators && link.target.operatorID in operators && linkAccepted(link)) {
        return Fail(LinkInvalid(link.linkID));
      }
      EndpointsUniqueAdd(links, link);
      links := links[link.linkID := link];
      r := Pass;
    }

    /**
     * Adds a link. Fails, changing nothing, when its id or its pair of ports is
     * in use, or when it is not a valid link of the graph.
     */
    method AddLink(link: OperatorLink) returns (r: Outcome)
      requires Valid()
      modifies this`links, this`undoStack, this`redoStack
      ensures Valid()
      ensures r == LinkCheck(old(links), operators.Keys, link, linkAccepted)
      ensures r.Pass? ==> && links == old(links)[link.linkID := link]
                          && undoStack == old(undoStack) + [old(Shared())] && redoStack == []
      ensures r.Fail? ==> links == old(links) && undoStack == old(undoStack) && redoStack == old(redoStack)
    {
      var before := Shared();
      r := AddLinkStep(link);
      if r.Pass? {
        assert link.linkID !in before.links && link.linkID in links;
      }
      EndBundle(before);
    }

    /**
     * Deletes the link from `source` to `target`; fails, changing nothing,
     * when there is none.
     */
    method DeleteLink(source: LogicalPort, target: LogicalPort) returns (r: Outcome)
      requires Valid()
      modifies this`links, this`highlightedLinks, this`undoStack, this`redoStack
      ensures Valid()
      ensures r == if HasLinkBetween(old(links), source, target) then Pass else Fail(LinkNotFound)
      ensures links == WithoutLinkBetween(old(links), source, target)
      ensures highlightedLinks == old(highlightedLinks) - (old(links).Keys - links.Keys)
      ensures undoStack == Recorded(old(undoStack), old(Shared()), Shared())
      ensures redoStack == RedoAfter(old(redoStack), old(Shared()), Shared())
    {
      if !HasLinkBetween(links, source, target) {
        return Fail(LinkNotFound);
      }
      var linkID :| linkID in links && links[linkID].source == source && links[linkID].target == target;
      ghost var before := links;
      forall lid | lid in before && before[lid].source == source && before[lid].target == target
        ensures lid == linkID
      {
        assert Ends(before, lid) == Ends(before, linkID);
      }
      r := DeleteLinkWithId(linkID);
      assert links == WithoutLinkBetween(before, source, target);
    }

    // -------------------------------------------------------------------------
    // Comment boxes and comments

    method AddCommentStep(comment: Comment, commentBoxID: string) returns (r: Outcome)
      requires Valid()
      modifies this`commentBoxes
      ensures Valid()
      ensures r == if commentBoxID in old(commentBoxes) then Pass else Fail(CommentBoxNotFound(commentBoxID))
      ensures r.Fail? ==> commentBoxes == old(commentBoxes)
      ensures r.Pass? ==> var box := old(commentBoxes)[commentBoxID];
                          commentBoxes == old(commentBoxes)[commentBoxID := box.(comments := box.comments + [comment])]
    {
      if commentBoxID !in commentBoxes {
        return Fail(CommentBoxNotFound(commentBoxID));
      }
      var box := commentBoxes[commentBoxID];
      commentBoxes := commentBoxes[commentBoxID := box.(comments := box.comments + [comment])];
      r := Pass;
    }

    /** Appends a comment to a comment box; fails, changing nothing, when there is no such box. */
    method AddComment(comment: Comment, commentBoxID: string) returns (r: Outcome)
      requires Valid()
      modifies this`commentBoxes, this`undoStack, this`redoStack
      ensures Valid()
      ensures r == if commentBoxID in old(commentBoxes) then Pass else Fail(CommentBoxNotFound(commentBoxID))
      ensures r.Fail? ==> commentBoxes == old(commentBoxes) && undoStack == old(undoStack) && redoStack == old(redoStack)
      ensures r.Pass? ==> var box := old(commentBoxes)[commentBoxID];
                          && commentBoxes == old(commentBoxes)[commentBoxID := box.(comments := box.comments + [comment])]
                          && undoStack == old(undoStack) + [old(Shared())] && redoStack == []
    {
      var before := Shared();
      r := AddCommentStep(comment, commentBoxID);
      if r.Pass? {
        assert |commentBoxes[commentBoxID].comments| == |before.commentBoxes[commentBoxID].comments| + 1;
      }
      EndBundle(before);
    }

    /**
     * Deletes the comments of a box that carry the key (creatorID,
     * creationTime). Fails, changing nothing, when there is no such box or no
     * such comment.
     */
    method DeleteComment(creatorID: int, creationTime: string, commentBoxID: string) returns (r: Outcome)
      requires Valid()
      modifies this`commentBoxes, this`undoStack, this`redoStack
      ensures Valid()
      ensures r == if commentBoxID !in old(commentBoxes) then Fail(CommentBoxNotFound(commentBoxID))
                   else if !HasComment(old(commentBoxes)[commentBoxID].comments, creatorID, creationTime)
                   then Fail(CommentNotFound(commentBoxID))
                   else Pass
      ensures r.Fail? ==> commentBoxes == old(commentBoxes) && undoStack == old(undoStack) && redoStack == old(redoStack)
      ensures r.Pass? ==> var box := old(commentBoxes)[commentBoxID];
                          && commentBoxes == old(commentBoxes)[commentBoxID :=
                               box.(comments := WithoutComment(box.comments, creatorID, creationTime))]
                          && undoStack == old(undoStack) + [old(Shared())] && redoStack == []
    {
      if commentBoxID !in commentBoxes {
        return Fail(CommentBoxNotFound(commentBoxID));
      }
      var box := commentBoxes[commentBoxID];
      if !HasComment(box.comments, creatorID, creationTime) {
        return Fail(CommentNotFound(commentBoxID));
      }
      var before := Shared();
      var kept := WithoutComment(box.comments, creatorID, creationTime);
      commentBoxes := commentBoxes[commentBoxID := box.(comments := kept)];
      assert |commentBoxes[commentBoxID].comments| < |before.commentBoxes[commentBoxID].comments|;
      EndBundle(before);
      r := Pass;
    }

    /**
     * Replaces the content of the comments of a box that carry the key
     * (creatorID, creationTime). Fails, changing nothing, when there is no
     * such box or no such comment.
     */
    method EditComment(creatorID: int, creationTime: string, commentBoxID: string, newContent: string)
      returns (r: Outcome)
      requires Valid()
      modifies this`commentBoxes, this`undoStack, this`redoStack
      ensures Valid()
      ensures r == if commentBoxID !in old(commentBoxes) then Fail(CommentBoxNotFound(commentBoxID))
                   else if !HasComment(old(commentBoxes)[commentBoxID].comments, creatorID, creationTime)
                   then Fail(CommentNotFound(commentBoxID))
                   else Pass
      ensures r.Fail? ==> commentBoxes == old(commentBoxes)
      ensures r.Pass? ==> var box := old(commentBoxes)[commentBoxID];
                          commentBoxes == old(commentBoxes)[commentBoxID :=
                            box.(comments := EditedComments(box.comments, creatorID, creationTime, newContent))]
      ensures undoStack == Recorded(old(undoStack), old(Shared()), Shared())
      ensures redoStack == RedoAfter(old(redoStack), old(Shared()), Shared())
    {
      if commentBoxID !in commentBoxes {
        return Fail(CommentBoxNotFound(commentBoxID));
      }
      var box := commentBoxes[commentBoxID];
      if !HasComment(box.comments, creatorID, creationTime) {
        return Fail(CommentNotFound(commentBoxID));
      }
      var before := Shared();
      var edited := EditedComments(box.comments, creatorID, creationTime, newContent);
      commentBoxes := commentBoxes[commentBoxID := box.(comments := edited)];
      EndBundle(before);
      r := Pass;
    }

    /** Deletes a comment box; fails, changing nothing, when there is no such box. */
    method DeleteCommentBox(commentBoxID: string) returns (r: Outcome)
      requires Valid()
      modifies this`commentBoxes, this`undoStack, this`redoStack
      ensures Valid()
      ensures r == if commentBoxID in old(commentBoxes) then Pass else Fail(CommentBoxNotFound(commentBoxID))
      ensures commentBoxes == old(commentBoxes) - {commentBoxID}
      ensures r.Fail? ==> undoStack == old(undoStack) && redoStack == old(redoStack)
      ensures r.Pass? ==> undoStack == old(undoStack) + [old(Shared())] && redoStack == []
    {
      if commentBoxID !in commentBoxes {
        return Fail(CommentBoxNotFound(commentBoxID));
      }
      var before := Shared();
      commentBoxes := commentBoxes - {commentBoxID};
      assert commentBoxID in before.commentBoxes && commentBoxID !in commentBoxes;
      EndBundle(before);
      r := Pass;
    }

    method ClearHighlights()
      modifies this`highlightedOperators, this`highlightedLinks, this`highlightedCommentBoxes, this`highlightedPorts
      ensures NothingHighlighted()
    {
      highlightedOperators, highlightedLinks, highlightedCommentBoxes, highlightedPorts := {}, {}, {}, {};
    }

    method AddCommentBoxStep(box: CommentBox)
      requires Valid()
      modifies this`highlightedOperators, this`highlightedLinks, this`highlightedCommentBoxes, this`highlightedPorts
      modifies this`multiSelect, this`commentBoxes
      ensures Valid() && NothingHighlighted() && !multiSelect
      ensures commentBoxes == old(commentBoxes)[box.commentBoxID := box]
    {
      ClearHighlights();
      multiSelect := false;
      commentBoxes := commentBoxes[box.commentBoxID := box.(comments := [])];
      for i := 0 to |box.comments|
        invariant Valid()
        invariant commentBoxes == old(commentBoxes)[box.commentBoxID := box.(comments := box.comments[..i])]
        modifies this`commentBoxes
      {
        var _ := AddCommentStep(box.comments[i], box.commentBoxID);
        assert box.comments[..i + 1] == box.comments[..i] + [box.comments[i]];
      }
      assert box.comments[..|box.comments|] == box.comments;
    }

    /**
     * Clears the selection, leaves multi-select mode, and adds a comment box:
     * first empty, then with its comments appended one by one, so that it ends
     * up holding exactly the given comments.
     */
    method AddCommentBox(box: CommentBox)
      requires Valid()
      modifies this`highlightedOperators, this`highlightedLinks, this`highlightedCommentBoxes, this`highlightedPorts
      modifies this`multiSelect, this`commentBoxes, this`undoStack, this`redoStack
      ensures Valid() && NothingHighlighted() && !multiSelect
      ensures commentBoxes == old(commentBoxes)[box.commentBoxID := box]
      ensures undoStack == Recorded(old(undoStack), old(Shared()), Shared())
      ensures redoStack == RedoAfter(old(redoStack), old(Shared()), Shared())
    {
      var before := Shared();
      AddCommentBoxStep(box);
      EndBundle(before);
    }

    // -------------------------------------------------------------------------
    // Bulk actions

    /**
     * The operator loop of a bulk add: adds the operators of `pairs` in order
     * and stops at the first one whose check fails.
     */
    method AddOperatorsInOrder(pairs: seq<OperatorAndPosition>) returns (r: Outcome)
      requires Valid()
      modifies this`multiSelect, this`operators, this`positions
      ensures Valid()
      ensures multiSelect == (old(multiSelect) && pairs == [])
      ensures OperatorsAdded(r, operators, positions)
           == AddOperatorsPhase(old(operators), old(positions), pairs, operatorTypeExists)
    {
      ghost var ops0, pos0 := operators, positions;
      assert pairs[..0] == [];
      var i := 0;
      while i < |pairs|
        invariant 0 <= i <= |pairs|
        invariant Valid()
        invariant multiSelect == (old(multiSelect) && i == 0)
        invariant OperatorsAddable(ops0, pairs[..i], operatorTypeExists)
        invariant FirstRejectedOperator(ops0, pairs, operatorTypeExists, i)
               == FirstRejectedOperator(ops0, pairs, operatorTypeExists, 0)
        invariant operators == AddOperators(ops0, pairs[..i]) && positions == AddPositions(pos0, pairs[..i])
      {
        r := AddNextOperator(ops0, pos0, pairs, i);
        if r.Fail? {
          return;
        }
        i := i + 1;
      }
      assert pairs[..i] == pairs;
      r := Pass;
    }

    /** One turn of the operator loop of a bulk add: adds operator `i` of `pairs`. */
    method AddNextOperator(ghost ops0: map<string, Operator>, ghost pos0: map<string, Point>,
                           pairs: seq<OperatorAndPosition>, i: nat) returns (r: Outcome)
      requires Valid() && i < |pairs|
      requires OperatorsAddable(ops0, pairs[..i], operatorTypeExists)
      requires operators == AddOperators(ops0, pairs[..i]) && positions == AddPositions(pos0, pairs[..i])
      modifies this`multiSelect, this`operators, this`positions
      ensures Valid() && !multiSelect
      ensures r == OperatorCheck(AddOperators(ops0, pairs[..i]), pairs[i].op, operatorTypeExists)
      ensures r.Fail? ==> operators == old(operators) && positions == old(positions)
      ensures r.Pass? ==> && OperatorsAddable(ops0, pairs[..i + 1], operatorTypeExists)
                          && FirstRejectedOperator(ops0, pairs, operatorTypeExists, i)
                             == FirstRejectedOperator(ops0, pairs, operatorTypeExists, i + 1)
                          && operators == AddOperators(ops0, pairs[..i + 1])
                          && positions == AddPositions(pos0, pairs[..i + 1])
    {
      r := AddOperatorStep(pairs[i].op, pairs[i].pos);
      if r.Pass? {
        OperatorsAddableSnoc(ops0, pairs, operatorTypeExists, i);
        AddPositionsSnoc(pos0, pairs, i);
      }
    }

    /**
     * The link loop of a bulk add: adds the links of `ls` in order and stops
     * at the first one whose check fails.
     */
    method AddLinksInOrder(ls: seq<OperatorLink>) returns (r: Outcome)
      requires Valid()
      modifies this`links
      ensures Valid()
      ensures LinksAdded(r, links) == AddLinksPhase(old(links), operators.Keys, ls, linkAccepted)
    {
      ghost var links0 := links;
      assert ls[..0] == [];
      var j := 0;
      while j < |ls|
        invariant 0 <= j <= |ls|
        invariant Valid()
        invariant LinksAddable(links0, operators.Keys, ls[..j], linkAccepted)
        invariant FirstRejectedLink(links0, operators.Keys, ls, linkAccepted, j)
               == FirstRejectedLink(links0, operators.Keys, ls, linkAccepted, 0)
        invariant links == AddLinks(links0, ls[..j])
      {
        r := AddLinkStep(ls[j]);
        if r.Fail? {
          return;
        }
        LinksAddableSnoc(links0, operators.Keys, ls, linkAccepted, j);
        j := j + 1;
      }
      assert ls[..j] == ls;
      r := Pass;
    }

    /** The comment-box loop of a bulk add: adds the boxes of `boxes` in order. */
    method AddCommentBoxesInOrder(boxes: seq<CommentBox>)
      requires Valid() && NothingHighlighted() && !multiSelect
      modifies this`highlightedOperators, this`highlightedLinks, this`highlightedCommentBoxes, this`highlightedPorts
      modifies this`multiSelect, this`commentBoxes
      ensures Valid() && NothingHighlighted() && !multiSelect
      ensures commentBoxes == AddCommentBoxes(old(commentBoxes), boxes)
    {
      assert boxes[..0] == [];
      for b := 0 to |boxes|
        invariant Valid() && NothingHighlighted() && !multiSelect
        invariant commentBoxes == AddCommentBoxes(old(commentBoxes), boxes[..b])
      {
        AddCommentBoxStep(boxes[b]);
        assert boxes[..b + 1][..b] == boxes[..b];
      }
      assert boxes[..|boxes|] == boxes;
    }

    /** The links and comment boxes of a bulk add, once its operators are in. */
    method AddLinksAndBoxes(ls: seq<OperatorLink>, boxes: seq<CommentBox>) returns (r: Outcome)
      requires Valid() && NothingHighlighted() && !multiSelect
      modifies this`highlightedOperators, this`highlightedLinks, this`highlightedCommentBoxes, this`highlightedPorts
      modifies this`multiSelect, this`links, this`commentBoxes
      ensures Valid() && NothingHighlighted() && !multiSelect
      ensures LinksAdded(r, links) == AddLinksPhase(old(links), operators.Keys, ls, linkAccepted)
      ensures commentBoxes == if r.Fail? then old(commentBoxes) else AddCommentBoxes(old(commentBoxes), boxes)
    {
      r := AddLinksInOrder(ls);
      if r.Fail? {
        return;
      }
      AddCommentBoxesInOrder(boxes);
    }

    /** The body of a bulk add, inside its bundle and after the selection is cleared. */
    method AddListed(pairs: seq<OperatorAndPosition>, ls: seq<OperatorLink>, boxes: seq<CommentBox>)
      returns (r: Outcome)
      requires Valid() && NothingHighlighted() && multiSelect == (|pairs| > 1)
      modifies this`highlightedOperators, this`highlightedLinks, this`highlightedCommentBoxes, this`highlightedPorts
      modifies this`multiSelect, this`operators, this`positions, this`links, this`commentBoxes
      ensures Valid() && NothingHighlighted() && !multiSelect
      ensures BulkResult(r, operators, positions, links, commentBoxes)
           == BulkAdd(old(operators), old(positions), old(links), old(commentBoxes), pairs, ls, boxes,
                      operatorTypeExists, linkAccepted)
    {
      r := AddOperatorsInOrder(pairs);
      if r.Fail? {
        return;
      }
      r := AddLinksAndBoxes(ls, boxes);
    }

    /**
     * Clears the selection and adds the operators, then the links, then the
     * comment boxes, one by one, in one bundle. An operator or link whose check
     * fails ends the bundle: what was added before it stays, nothing after it
     * is added.
     */
    method AddOperatorsAndLinks(pairs: seq<OperatorAndPosition>, ls: seq<OperatorLink>, boxes: seq<CommentBox>)
      returns (r: Outcome)
      requires Valid()
      modifies this`highlightedOperators, this`highlightedLinks, this`highlightedCommentBoxes, this`highlightedPorts
      modifies this`multiSelect, this`operators, this`positions, this`links, this`commentBoxes
      modifies this`undoStack, this`redoStack
      ensures Valid() && NothingHighlighted() && !multiSelect
      ensures BulkResult(r, operators, positions, links, commentBoxes)
           == BulkAdd(old(operators), old(positions), old(links), old(commentBoxes), pairs, ls, boxes,
                      operatorTypeExists, linkAccepted)
      ensures undoStack == Recorded(old(undoStack), old(Shared()), Shared())
      ensures redoStack == RedoAfter(old(redoStack), old(Shared()), Shared())
    {
      ghost var start := Shared();
      ClearHighlights();
      multiSelect := |pairs| > 1;
      assert Shared() == start;
      r := BundledAdd(pairs, ls, boxes);
    }

    /** The bundle of a bulk add, on a cleared selection. */
    method BundledAdd(pairs: seq<OperatorAndPosition>, ls: seq<OperatorLink>, boxes: seq<CommentBox>)
      returns (r: Outcome)
      requires Valid() && NothingHighlighted() && multiSelect == (|pairs| > 1)
      modifies this`highlightedOperators, this`highlightedLinks, this`highlightedCommentBoxes, this`highlightedPorts
      modifies this`multiSelect, this`operators, this`positions, this`links, this`commentBoxes
      modifies this`undoStack, this`redoStack
      ensures Valid() && NothingHighlighted() && !multiSelect
      ensures BulkResult(r, operators, positions, links, commentBoxes)
           == BulkAdd(old(operators), old(positions), old(links), old(commentBoxes), pairs, ls, boxes,
                      operatorTypeExists, linkAccepted)
      ensures undoStack == Recorded(old(undoStack), old(Shared()), Shared())
      ensures redoStack == RedoAfter(old(redoStack), old(Shared()), Shared())
    {
      var before := Shared();
      r := AddListed(pairs, ls, boxes);
      EndBundle(before);
    }

    /**
     * The body of a bulk delete over a list without repetitions, outside the
     * bundle: every link touching a listed operator, then the operators in
     * order up to the first id that names no operator.
     */
    method DeleteListed(u: seq<string>) returns (r: Outcome)
      requires Valid() && NoDuplicates(u)
      modifies this`highlightedOperators, this`links, this`highlightedLinks, this`operators, this`positions
      ensures Valid()
      ensures r == BatchOutcome(u, old(operators).Keys)
      ensures links == old(links) - Incident(old(links), Elems(u))
      ensures highlightedLinks == old(highlightedLinks) - Incident(old(links), Elems(u))
      ensures var k := FirstMissing(u, old(operators).Keys);
              && operators == old(operators) - Elems(u[..k])
              && positions == old(positions) - Elems(u[..k])
              && highlightedOperators == old(highlightedOperators) - Elems(u[..if k < |u| then k + 1 else k])
    {
      DeleteIncidentLinks(Elems(u));
      r := DeleteUnlinked(u);
    }

    /**
     * The operator half of a bulk delete, once no link touches a listed
     * operator: deletes the operators in order up to the first id that names
     * no operator, which is unhighlighted before the failure.
     */
    method DeleteUnlinked(u: seq<string>) returns (r: Outcome)
      requires Valid() && NoDuplicates(u)
      requires forall lid :: lid in links ==> !Touches(links[lid], Elems(u))
      modifies this`highlightedOperators, this`operators, this`positions
      ensures Valid()
      ensures r == BatchOutcome(u, old(operators).Keys)
      ensures var k := FirstMissing(u, old(operators).Keys);
              && operators == old(operators) - Elems(u[..k])
              && positions == old(positions) - Elems(u[..k])
              && highlightedOperators == old(highlightedOperators) - Elems(u[..if k < |u| then k + 1 else k])
    {
      ghost var ops0 := operators;
      var i;
      i, operators, positions, highlightedOperators := RemoveOperators(operators, positions, highlightedOperators, u);
      assert NoDanglingLinks() by {
        forall lid | lid in links
          ensures links[lid].source.operatorID in operators && links[lid].target.operatorID in operators
        {
          assert !Touches(links[lid], Elems(u));
          assert Elems(u[..i]) <= Elems(u);
        }
      }
      if i < |u| {
        // the first id that names no operator: deleteOperator unhighlights
        // it, finds no link to delete, then fails
        assert Elems(u[..i + 1]) == Elems(u[..i]) + {u[i]} by {
          assert u[..i + 1] == u[..i] + [u[i]];
        }
        highlightedOperators := highlightedOperators - {u[i]};
        r := Fail(OperatorNotFound(u[i]));
      } else {
        assert u[..i] == u;
        assert Elems(u) <= ops0.Keys by {
          forall x | x in Elems(u) ensures x in ops0.Keys {
            var j :| 0 <= j < |u| && u[j] == x;
          }
        }
        r := Pass;
      }
    }

    /**
     * Deletes the listed operators, each once however often it is listed:
     * first every link touching one of them, then the operators one by one in
     * order of first mention. An id that names no operator ends the bundle;
     * the operators before it are deleted, those after it are not.
     */
    method DeleteOperatorsAndLinks(ids: seq<string>) returns (r: Outcome)
      requires Valid()
      modifies this`highlightedOperators, this`links, this`highlightedLinks, this`operators, this`positions
      modifies this`undoStack, this`redoStack
      ensures Valid()
      ensures r == BatchOutcome(Dedup(ids), old(operators).Keys)
      ensures r.Pass? <==> Elems(ids) <= old(operators).Keys
      ensures links == old(links) - Incident(old(links), Elems(Dedup(ids)))
      ensures highlightedLinks == old(highlightedLinks) - Incident(old(links), Elems(Dedup(ids)))
      ensures var u := Dedup(ids);
              var k := FirstMissing(u, old(operators).Keys);
              && operators == old(operators) - Elems(u[..k])
              && positions == old(positions) - Elems(u[..k])
              && highlightedOperators == old(highlightedOperators) - Elems(u[..if k < |u| then k + 1 else k])
      ensures r.Pass? ==> Incident(links, Elems(ids)) == {} && operators.Keys !! Elems(ids)
      ensures undoStack == Recorded(old(undoStack), old(Shared()), Shared())
      ensures redoStack == RedoAfter(old(redoStack), old(Shared()), Shared())
    {
      var u := Dedup(ids);
      DedupProperties(ids);
      var before := Shared();
      r := DeleteListed(u);
      if r.Pass? {
        assert u[..FirstMissing(u, before.operators.Keys)] == u;
      }
      EndBundle(before);
    }

    // -------------------------------------------------------------------------
    // Properties, versions and flags

    /** Replaces an operator's property object; fails, changing nothing, when there is no such operator. */
    method SetOperatorProperty(operatorID: string, property: Property) returns (r: Outcome)
      requires Valid()
      modifies this`operators, this`undoStack, this`redoStack
      ensures Valid()
      ensures r == if operatorID in old(operators) then Pass else Fail(OperatorNotFound(operatorID))
      ensures operators == if r.Pass? then old(operators)[operatorID := old(operators)[operatorID].(operatorProperties := property)]
                           else old(operators)
      ensures undoStack == Recorded(old(undoStack), old(Shared()), Shared())
      ensures redoStack == RedoAfter(old(redoStack), old(Shared()), Shared())
    {
      if operatorID !in operators {
        return Fail(OperatorNotFound(operatorID));
      }
      var before := Shared();
      operators := operators[operatorID := operators[operatorID].(operatorProperties := property)];
      EndBundle(before);
      r := Pass;
    }

    /** Replaces a port's property object; fails, changing nothing, when the operator has no such port. */
    method SetPortProperty(port: LogicalPort, property: Property) returns (r: Outcome)
      requires Valid()
      modifies this`portProperties, this`undoStack, this`redoStack
      ensures Valid()
      ensures r == if port.operatorID in operators && HasPort(operators[port.operatorID], port.portID) then Pass
                   else Fail(PortNotFound(port))
      ensures portProperties == if r.Pass? then old(portProperties)[port := property] else old(portProperties)
      ensures undoStack == Recorded(old(undoStack), old(Shared()), Shared())
      ensures redoStack == RedoAfter(old(redoStack), old(Shared()), Shared())
    {
      if !(port.operatorID in operators && HasPort(operators[port.operatorID], port.portID)) {
        return Fail(PortNotFound(port));
      }
      var before := Shared();
      portProperties := portProperties[port := property];
      EndBundle(before);
      r := Pass;
    }

    /** Sets an operator's version; fails, changing nothing, when there is no such operator. */
    method SetOperatorVersion(operatorID: string, newVersion: string) returns (r: Outcome)
      requires Valid()
      modifies this`operators, this`undoStack, this`redoStack
      ensures Valid()
      ensures r == if operatorID in old(operators) then Pass else Fail(OperatorNotFound(operatorID))
      ensures operators == if r.Pass? then old(operators)[operatorID := old(operators)[operatorID].(operatorVersion := newVersion)]
                           else old(operators)
      ensures undoStack == Recorded(old(undoStack), old(Shared()), Shared())
      ensures redoStack == RedoAfter(old(redoStack), old(Shared()), Shared())
    {
      if operatorID !in operators {
        return Fail(OperatorNotFound(operatorID));
      }
      var before := Shared();
      operators := operators[operatorID := operators[operatorID].(operatorVersion := newVersion)];
      EndBundle(before);
      r := Pass;
    }

    /**
     * The flag batches: set `flag` to `value` on the listed operators in
     * order, in one bundle. An id that names no operator ends the bundle; the
     * operators listed before it keep the new value.
     */
    method SetOperatorFlags(ids: seq<string>, flag: OperatorFlag, value: bool) returns (r: Outcome)
      requires Valid()
      modifies this`operators, this`undoStack, this`redoStack
      ensures Valid()
      ensures r == BatchOutcome(ids, old(operators).Keys)
      ensures operators == FlagAll(old(operators), Elems(ids[..FirstMissing(ids, old(operators).Keys)]), flag, value)
      ensures undoStack == Recorded(old(undoStack), old(Shared()), Shared())
      ensures redoStack == RedoAfter(old(redoStack), old(Shared()), Shared())
    {
      var before := Shared();
      var i;
      i, operators := FlagListed(operators, ids, flag, value);
      r := if i < |ids| then Fail(OperatorNotFound(ids[i])) else Pass;
      EndBundle(before);
    }

    method DisableOperators(ids: seq<string>) returns (r: Outcome)
      requires Valid()
      modifies this`operators, this`undoStack, this`redoStack
      ensures Valid()
      ensures r == BatchOutcome(ids, old(operators).Keys)
      ensures operators == FlagAll(old(operators), Elems(ids[..FirstMissing(ids, old(operators).Keys)]), Disabled, true)
      ensures undoStack == Recorded(old(undoStack), old(Shared()), Shared())
      ensures redoStack == RedoAfter(old(redoStack), old(Shared()), Shared())
    {
      r := SetOperatorFlags(ids, Disabled, true);
    }

    method EnableOperators(ids: seq<string>) returns (r: Outcome)
      requires Valid()
      modifies this`operators, this`undoStack, this`redoStack
      ensures Valid()
      ensures r == BatchOutcome(ids, old(operators).Keys)
      ensures operators == FlagAll(old(operators), Elems(ids[..FirstMissing(ids, old(operators).Keys)]), Disabled, false)
      ensures undoStack == Recorded(old(undoStack), old(Shared()), Shared())
      ensures redoStack == RedoAfter(old(redoStack), old(Shared()), Shared())
    {
      r := SetOperatorFlags(ids, Disabled, false);
    }

    method MarkReuseResults(ids: seq<string>) returns (r: Outcome)
      requires Valid()
      modifies this`operators, this`undoStack, this`redoStack
      ensures Valid()
      ensures r == BatchOutcome(ids, old(operators).Keys)
      ensures operators == FlagAll(old(operators), Elems(ids[..FirstMissing(ids, old(operators).Keys)]), ReuseResult, true)
      ensures undoStack == Recorded(old(undoStack), old(Shared()), Shared())
      ensures redoStack == RedoAfter(old(redoStack), old(Shared()), Shared())
    {
      r := SetOperatorFlags(ids, ReuseResult, true);
    }

    method RemoveMarkReuseResults(ids: seq<string>) returns (r: Outcome)
      requires Valid()
      modifies this`operators, this`undoStack, this`redoStack
      ensures Valid()
      ensures r == BatchOutcome(ids, old(operators).Keys)
      ensures operators == FlagAll(old(operators), Elems(ids[..FirstMissing(ids, old(operators).Keys)]), ReuseResult, false)
      ensures undoStack == Recorded(old(undoStack), old(Shared()), Shared())
      ensures redoStack == RedoAfter(old(redoStack), old(Shared()), Shared())
    {
      r := SetOperatorFlags(ids, ReuseResult, false);
    }

    method SetViewOperatorResults(ids: seq<string>) returns (r: Outcome)
      requires Valid()
      modifies this`operators, this`undoStack, this`redoStack
      ensures Valid()
      ensures r == BatchOutcome(ids, old(operators).Keys)
      ensures operators == FlagAll(old(operators), Elems(ids[..FirstMissing(ids, old(operators).Keys)]), ViewResult, true)
      ensures undoStack == Recorded(old(undoStack), old(Shared()), Shared())
      ensures redoStack == RedoAfter(old(redoStack), old(Shared()), Shared())
    {
      r := SetOperatorFlags(ids, ViewResult, true);
    }

    method UnsetViewOperatorResults(ids: seq<string>) returns (r: Outcome)
      requires Valid()
      modifies this`operators, this`undoStack, this`redoStack
      ensures Valid()
      ensures r == BatchOutcome(ids, old(operators).Keys)
      ensures operators == FlagAll(old(operators), Elems(ids[..FirstMissing(ids, old(operators).Keys)]), ViewResult, false)
      ensures undoStack == Recorded(old(undoStack), old(Shared()), Shared())
      ensures redoStack == RedoAfter(old(redoStack), old(Shared()), Shared())
    {
      r := SetOperatorFlags(ids, ViewResult, false);
    }

    // -------------------------------------------------------------------------
    // Selection. In single-select mode, highlighting a non-empty set of
    // elements first clears the whole previous selection.

    method HighlightOperators(multi: bool, ids: seq<string>)
      modifies this`multiSelect, this`highlightedOperators, this`highlightedLinks
      modifies this`highlightedCommentBoxes, this`highlightedPorts
      ensures multiSelect == multi
      ensures !multi && ids != [] ==> highlightedOperators == Elems(ids) && highlightedLinks == {}
                                      && highlightedCommentBoxes == {} && highlightedPorts == {}
      ensures multi || ids == [] ==> && highlightedOperators == old(highlightedOperators) + Elems(ids)
                                     && highlightedLinks == old(highlightedLinks)
                                     && highlightedCommentBoxes == old(highlightedCommentBoxes)
                                     && highlightedPorts == old(highlightedPorts)
    {
      multiSelect := multi;
      if !multi && ids != [] {
        ClearHighlights();
      }
      highlightedOperators := highlightedOperators + Elems(ids);
    }

    method UnhighlightOperators(ids: seq<string>)
      modifies this`highlightedOperators
      ensures highlightedOperators == old(highlightedOperators) - Elems(ids)
    {
      highlightedOperators := highlightedOperators - Elems(ids);
    }

    method HighlightLinks(multi: bool, ids: seq<string>)
      modifies this`multiSelect, this`highlightedOperators, this`highlightedLinks
      modifies this`highlightedCommentBoxes, this`highlightedPorts
      ensures multiSelect == multi
      ensures !multi && ids != [] ==> highlightedLinks == Elems(ids) && highlightedOperators == {}
                                      && highlightedCommentBoxes == {} && highlightedPorts == {}
      ensures multi || ids == [] ==> && highlightedLinks == old(highlightedLinks) + Elems(ids)
                                     && highlightedOperators == old(highlightedOperators)
                                     && highlightedCommentBoxes == old(highlightedCommentBoxes)
                                     && highlightedPorts == old(highlightedPorts)
    {
      multiSelect := multi;
      if !multi && ids != [] {
        ClearHighlights();
      }
      highlightedLinks := highlightedLinks + Elems(ids);
    }

    method UnhighlightLinks(ids: seq<string>)
      modifies this`highlightedLinks
      ensures highlightedLinks == old(highlightedLinks) - Elems(ids)
    {
      highlightedLinks := highlightedLinks - Elems(ids);
    }

    method HighlightCommentBoxes(multi: bool, ids: seq<string>)
      modifies this`multiSelect, this`highlightedOperators, this`highlightedLinks
      modifies this`highlightedCommentBoxes, this`highlightedPorts
      ensures multiSelect == multi
      ensures !multi && ids != [] ==> highlightedCommentBoxes == Elems(ids) && highlightedOperators == {}
                                      && highlightedLinks == {} && highlightedPorts == {}
      ensures multi || ids == [] ==> && highlightedCommentBoxes == old(highlightedCommentBoxes) + Elems(ids)
                                     && highlightedOperators == old(highlightedOperators)
                                     && highlightedLinks == old(highlightedLinks)
                                     && highlightedPorts == old(highlightedPorts)
    {
      multiSelect := multi;
      if !multi && ids != [] {
        ClearHighlights();
      }
      highlightedCommentBoxes := highlightedCommentBoxes + Elems(ids);
    }

    method HighlightPorts(multi: bool, ports: seq<LogicalPort>)
      modifies this`multiSelect, this`highlightedOperators, this`highlightedLinks
      modifies this`highlightedCommentBoxes, this`highlightedPorts
      ensures multiSelect == multi
      ensures !multi && ports != [] ==> highlightedPorts == Elems(ports) && highlightedOperators == {}
                                        && highlightedLinks == {} && highlightedCommentBoxes == {}
      ensures multi || ports == [] ==> && highlightedPorts == old(highlightedPorts) + Elems(ports)
                                       && highlightedOperators == old(highlightedOperators)
                                       && highlightedLinks == old(highlightedLinks)
                                       && highlightedCommentBoxes == old(highlightedCommentBoxes)
    {
      multiSelect := multi;
      if !multi && ports != [] {
        ClearHighlights();
      }
      highlightedPorts := highlightedPorts + Elems(ports);
    }

    method UnhighlightPorts(ports: seq<LogicalPort>)
      modifies this`highlightedPorts
      ensures highlightedPorts == old(highlightedPorts) - Elems(ports)
    {
      highlightedPorts := highlightedPorts - Elems(ports);
    }

    /**
     * Highlights mixed element ids: the operator ids among them as operators,
     * the link ids as links, the comment-box ids as comment boxes, in that
     * order.
     */
    method HighlightElements(multi: bool, ids: seq<string>)
      modifies this`multiSelect, this`highlightedOperators, this`highlightedLinks
      modifies this`highlightedCommentBoxes, this`highlightedPorts
      ensures multiSelect == multi
      ensures multi ==> && highlightedOperators == old(highlightedOperators) + Elems(ids) * operators.Keys
                        && highlightedLinks == old(highlightedLinks) + Elems(ids) * links.Keys
                        && highlightedCommentBoxes == old(highlightedCommentBoxes) + Elems(ids) * commentBoxes.Keys
                        && highlightedPorts == old(highlightedPorts)
      ensures !multi ==>
        var ops, ls, bs := Elems(ids) * operators.Keys, Elems(ids) * links.Keys, Elems(ids) * commentBoxes.Keys;
        if bs != {} then
          highlightedCommentBoxes == bs && highlightedOperators == {} && highlightedLinks == {} && highlightedPorts == {}
        else if ls != {} then
          highlightedLinks == ls && highlightedOperators == {} && highlightedCommentBoxes == {} && highlightedPorts == {}
        else if ops != {} then
          highlightedOperators == ops && highlightedLinks == {} && highlightedCommentBoxes == {} && highlightedPorts == {}
        else
          && highlightedOperators == old(highlightedOperators) && highlightedLinks == old(highlightedLinks)
          && highlightedCommentBoxes == old(highlightedCommentBoxes) && highlightedPorts == old(highlightedPorts)
    {
      multiSelect := multi;
      var ops := Filter(ids, operators.Keys);
      var ls := Filter(ids, links.Keys);
      var bs := Filter(ids, commentBoxes.Keys);
      assert ops == [] <==> Elems(ops) == {} by { if ops != [] { assert ops[0] in Elems(ops); } }
      assert ls == [] <==> Elems(ls) == {} by { if ls != [] { assert ls[0] in Elems(ls); } }
      assert bs == [] <==> Elems(bs) == {} by { if bs != [] { assert bs[0] in Elems(bs); } }
      HighlightOperators(multi, ops);
      HighlightLinks(multi, ls);
      HighlightCommentBoxes(multi, bs);
    }

    // -------------------------------------------------------------------------
    // Group move

    /** The drag listener reacts to a drag of `moved`. */
    predicate DragObserved(moved: string)
      reads this`listenPositionChange, this`listenJointCommand, this`syncTexeraGraph
      reads this`highlightedOperators, this`highlightedCommentBoxes
    {
      && listenPositionChange && listenJointCommand && syncTexeraGraph
      && (moved in highlightedOperators || moved in highlightedCommentBoxes)
    }

    /** Translates the drawn position of each of `ids` and copies it into the position map. */
    method MoveAlong(ids: set<string>, dx: int, dy: int)
      requires ids <= jointPositions.Keys
      modifies this`jointPositions, this`positions
      ensures jointPositions == ShiftAll(old(jointPositions), ids, dx, dy)
      ensures positions == Overwrite(old(positions), jointPositions, ids)
    {
      ghost var j0, p0 := jointPositions, positions;
      ghost var shifted := ShiftAll(j0, ids, dx, dy);
      var todo := ids;
      while todo != {}
        invariant todo <= ids
        invariant jointPositions == ShiftAll(j0, ids - todo, dx, dy)
        invariant positions == Overwrite(p0, shifted, ids - todo)
        decreases |todo|
      {
        var id :| id in todo;
        ghost var done := ids - todo;
        ShiftAllOneMore(j0, done, id, dx, dy);
        OverwriteOneMore(p0, shifted, done, id);
        jointPositions := jointPositions[id := Shift(jointPositions[id], dx, dy)];
        positions := positions[id := jointPositions[id]];
        todo := todo - {id};
        assert ids - todo == done + {id};
      }
      assert ids - todo == ids;
    }

    /**
     * Moves the highlighted operators `a`, then the highlighted comment boxes
     * `b`, along by (dx, dy).
     */
    method MoveGroup(a: set<string>, b: set<string>, dx: int, dy: int)
      requires a + b <= jointPositions.Keys
      modifies this`jointPositions, this`positions
      ensures jointPositions == ShiftAll(ShiftAll(old(jointPositions), a, dx, dy), b, dx, dy)
      ensures positions == Overwrite(Overwrite(old(positions), ShiftAll(old(jointPositions), a, dx, dy), a),
                                     jointPositions, b)
      ensures forall id :: id in a + b && !(id in a && id in b) ==>
                jointPositions[id] == Shift(old(jointPositions)[id], dx, dy)
      ensures forall id :: id in jointPositions && id !in a + b ==> jointPositions[id] == old(jointPositions)[id]
      ensures positions.Keys == old(positions).Keys + a + b
      ensures forall id :: id in a + b ==> positions[id] == jointPositions[id]
      ensures forall id :: id in old(positions) && id !in a + b ==> positions[id] == old(positions)[id]
    {
      GroupMove(positions, jointPositions, a, b, dx, dy);
      MoveAlong(a, dx, dy);
      MoveAlong(b, dx, dy);
    }

    /**
     * Records, in every selected element whose id names a comment box, the
     * box's drawn position.
     */
    method PersistCommentBoxPositions(selected: set<string>)
      requires selected <= jointPositions.Keys
      modifies this`commentBoxes
      ensures commentBoxes == PersistBoxPositions(old(commentBoxes), selected, jointPositions)
    {
      ghost var boxes0 := commentBoxes;
      var todo := selected;
      while todo != {}
        invariant todo <= selected
        invariant commentBoxes == PersistBoxPositions(boxes0, selected - todo, jointPositions)
        decreases |todo|
      {
        var id :| id in todo;
        ghost var done := selected - todo;
        PersistOneMore(boxes0, done, id, jointPositions);
        if ContainsSubstring(id, "commentBox") && id in commentBoxes {
          commentBoxes := commentBoxes[id := commentBoxes[id].(commentBoxPosition := jointPositions[id])];
        }
        todo := todo - {id};
        assert selected - todo == done + {id};
      }
      assert selected - todo == selected;
    }

    /**
     * The body of the drag reaction once it goes ahead: store the new position
     * of the dragged element, then, with both listeners muted, record the
     * selected comment boxes' drawn positions and move the other highlighted
     * elements along.
     */
    method MoveSelection(moved: string, newPosition: Point, dx: int, dy: int)
      requires Valid()
      requires highlightedOperators + highlightedCommentBoxes <= jointPositions.Keys
      modifies this`positions, this`commentBoxes, this`jointPositions
      modifies this`listenPositionChange, this`listenJointCommand
      ensures Valid()
      ensures listenPositionChange && listenJointCommand
      ensures SelectionMoved(moved, newPosition, dx, dy, highlightedOperators, highlightedCommentBoxes,
                             old(positions), old(jointPositions), old(commentBoxes), positions, jointPositions, commentBoxes)
    {
      positions := positions[moved := newPosition];
      listenPositionChange := false;
      listenJointCommand := false;
      PersistAndMove(highlightedOperators + highlightedCommentBoxes,
                     highlightedOperators - {moved}, highlightedCommentBoxes - {moved}, dx, dy);
      listenPositionChange := true;
      listenJointCommand := true;
    }

    /**
     * The muted part of the drag reaction: records the selected comment
     * boxes' drawn positions, then moves the operators `a` and the comment
     * boxes `b` along.
     */
    method PersistAndMove(selected: set<string>, a: set<string>, b: set<string>, dx: int, dy: int)
      requires selected <= jointPositions.Keys && a + b <= jointPositions.Keys
      modifies this`positions, this`commentBoxes, this`jointPositions
      ensures commentBoxes == PersistBoxPositions(old(commentBoxes), selected, old(jointPositions))
      ensures jointPositions == ShiftAll(ShiftAll(old(jointPositions), a, dx, dy), b, dx, dy)
      ensures positions == Overwrite(Overwrite(old(positions), ShiftAll(old(jointPositions), a, dx, dy), a),
                                     jointPositions, b)
      ensures positions.Keys == old(positions).Keys + a + b
    {
      PersistCommentBoxPositions(selected);
      MoveGroup(a, b, dx, dy);
    }

    /**
     * The reaction to a user drag of element `moved` from `oldPosition` to
     * `newPosition`. When the listener observes the drag and the stored
     * position differs, it stores the new position, records the drawn
     * position of each selected comment box in the box, and moves every other
     * highlighted element by the same offset, with both listeners muted; all
     * in one bundle.
     */
    method HandleJointElementDrag(moved: string, oldPosition: Point, newPosition: Point)
      requires Valid()
      requires highlightedOperators + highlightedCommentBoxes <= jointPositions.Keys
      modifies this`positions, this`commentBoxes, this`jointPositions
      modifies this`listenPositionChange, this`listenJointCommand, this`undoStack, this`redoStack
      ensures Valid()
      ensures listenPositionChange == old(listenPositionChange) && listenJointCommand == old(listenJointCommand)
      ensures !old(DragObserved(moved)) || (moved in old(positions) && old(positions)[moved] == newPosition) ==>
        && positions == old(positions) && commentBoxes == old(commentBoxes) && jointPositions == old(jointPositions)
        && undoStack == old(undoStack) && redoStack == old(redoStack)
      ensures old(DragObserved(moved)) && !(moved in old(positions) && old(positions)[moved] == newPosition) ==>
        var dx, dy := newPosition.x - oldPosition.x, newPosition.y - oldPosition.y;
        && SelectionMoved(moved, newPosition, dx, dy, highlightedOperators, highlightedCommentBoxes,
                          old(positions), old(jointPositions), old(commentBoxes), positions, jointPositions, commentBoxes)
        && undoStack == old(undoStack) + [old(Shared())] && redoStack == []
    {
      if DragObserved(moved) && !(moved in positions && positions[moved] == newPosition) {
        BundledMove(moved, newPosition, newPosition.x - oldPosition.x, newPosition.y - oldPosition.y);
      }
    }

    /** The bundle of a drag whose stored position differs: one undo entry for the whole move. */
    method BundledMove(moved: string, newPosition: Point, dx: int, dy: int)
      requires Valid()
      requires highlightedOperators + highlightedCommentBoxes <= jointPositions.Keys
      requires !(moved in positions && positions[moved] == newPosition)
      modifies this`positions, this`commentBoxes, this`jointPositions
      modifies this`listenPositionChange, this`listenJointCommand, this`undoStack, this`redoStack
      ensures Valid()
      ensures listenPositionChange && listenJointCommand
      ensures SelectionMoved(moved, newPosition, dx, dy, highlightedOperators, highlightedCommentBoxes,
                             old(positions), old(jointPositions), old(commentBoxes), positions, jointPositions, commentBoxes)
      ensures undoStack == old(undoStack) + [old(Shared())] && redoStack == []
    {
      var before := Shared();
      MoveSelection(moved, newPosition, dx, dy);
      assert positions[moved] == newPosition;
      EndBundle(before);
    }

    // -------------------------------------------------------------------------
    // Top-left position

    /**
     * The componentwise minimum of the drawn positions of `ids`, tracked from
     * an unset (infinite) start.
     */
    method TopLeft(ids: set<string>) returns (p: Point)
      requires ids != {} && ids <= jointPositions.Keys
      ensures IsTopLeft(p, ids, jointPositions)
    {
      var minX: Option<int> := None;
      var minY: Option<int> := None;
      var todo := ids;
      while todo != {}
        invariant todo <= ids
        invariant minX.None? <==> todo == ids
        invariant minY.None? <==> todo == ids
        invariant minX.Some? ==> && (forall id :: id in ids - todo ==> minX.value <= jointPositions[id].x)
                                 && (exists id :: id in ids - todo && jointPositions[id].x == minX.value)
        invariant minY.Some? ==> && (forall id :: id in ids - todo ==> minY.value <= jointPositions[id].y)
                                 && (exists id :: id in ids - todo && jointPositions[id].y == minY.value)
        decreases |todo|
      {
        var id :| id in todo;
        var position := jointPositions[id];
        if minX.None? || position.x < minX.value {
          minX := Some(position.x);
        }
        if minY.None? || position.y < minY.value {
          minY := Some(position.y);
        }
        todo := todo - {id};
      }
      p := Point(minX.value, minY.value);
    }

    /**
     * calculateTopLeftOperatorPosition as written: it mutes the joint-command
     * listener, and on an empty graph returns before switching it back on.
     */
    method CalculateTopLeftOperatorPosition()
      requires operators.Keys <= jointPositions.Keys
      modifies this`centerPoint, this`listenJointCommand
      ensures operators == map[] ==> centerPoint == old(centerPoint) && !listenJointCommand
      ensures operators != map[] ==> listenJointCommand && IsTopLeft(centerPoint, operators.Keys, jointPositions)
    {
      listenJointCommand := false;
      if operators == map[] {
        return;
      }
      assert operators.Keys != {} by {
        var id :| id in operators;
      }
      centerPoint := TopLeft(operators.Keys);
      listenJointCommand := true;
    }

    /**
     * calculateTopLeftOperatorPosition as evidently intended: the listener is
     * switched back on whether or not the graph is empty.
     */
    method CalculateTopLeftOperatorPositionIntended()
      requires operators.Keys <= jointPositions.Keys
      modifies this`centerPoint, this`listenJointCommand
      ensures listenJointCommand
      ensures operators == map[] ==> centerPoint == old(centerPoint)
      ensures operators != map[] ==> IsTopLeft(centerPoint, operators.Keys, jointPositions)
    {
      listenJointCommand := false;
      if operators != map[] {
        assert operators.Keys != {} by {
          var id :| id in operators;
        }
        centerPoint := TopLeft(operators.Keys);
      }
      listenJointCommand := true;
    }

    // -------------------------------------------------------------------------
    // Metadata and settings

    /**
     * Stores the given metadata, or the default one for none, and fires the
     * metadata-change event, unless the given metadata is the current one.
     */
    method SetWorkflowMetadata(metadata: Option<WorkflowMetadata>)
      modifies this`workflowMetadata, this`metadataChanges
      ensures metadata == Some(old(workflowMetadata)) ==>
                workflowMetadata == old(workflowMetadata) && metadataChanges == old(metadataChanges)
      ensures metadata != Some(old(workflowMetadata)) ==>
                workflowMetadata == metadata.GetOr(DefaultWorkflow) && metadataChanges == old(metadataChanges) + 1
    {
      if metadata == Some(workflowMetadata) {
        return;
      }
      workflowMetadata := metadata.GetOr(DefaultWorkflow);
      metadataChanges := metadataChanges + 1;
    }

    /** Stores the given settings, or the default ones for none. */
    method SetWorkflowSettings(settings: Option<WorkflowSettings>)
      modifies this`workflowSettings
      ensures workflowSettings == if settings == Some(old(workflowSettings)) then old(workflowSettings)
                                  else settings.GetOr(DefaultSettings())
    {
      if settings == Some(workflowSettings) {
        return;
      }
      workflowSettings := settings.GetOr(DefaultSettings());
    }

    /** Renames the workflow; a blank name stands for the default name. */
    method SetWorkflowName(name: string)
      modifies this`workflowMetadata, this`metadataChanges
      ensures workflowMetadata == old(workflowMetadata).(name := EffectiveName(name))
      ensures metadataChanges == old(metadataChanges) + if EffectiveName(name) == old(workflowMetadata).name then 0 else 1
    {
      var newName := if |Trim(name)| > 0 then name else DefaultWorkflowName;
      assert newName == EffectiveName(name);
      SetWorkflowMetadata(Some(workflowMetadata.(name := newName)));
    }

    /** Sets the data-transfer batch size; a size that is not positive is ignored. */
    method SetWorkflowDataTransferBatchSize(size: int)
      modifies this`workflowSettings
      ensures workflowSettings == ResizedSettings(old(workflowSettings), size)
    {
      if size > 0 {
        SetWorkflowSettings(Some(workflowSettings.(dataTransferBatchSize := size)));
      }
    }

    method SetWorkflowIsPublished(newPublishState: int)
      modifies this`workflowMetadata, this`metadataChanges
      ensures workflowMetadata == old(workflowMetadata).(isPublished := newPublishState)
    {
      SetWorkflowMetadata(Some(workflowMetadata.(isPublished := newPublishState)));
    }

    method SetHighlightingEnabled(enabled: bool)
      modifies this`highlightingEnabled
      ensures highlightingEnabled == enabled
    {
      highlightingEnabled := enabled;
    }

    // -------------------------------------------------------------------------
    // Snapshots

    /**
     * The persisted shape of the current graph: every operator, link and
     * comment box once, the position of each operator, and the settings.
     */
    method GetWorkflowContent() returns (c: WorkflowContent)
      requires Valid()
      ensures |c.operators| == |operators.Keys| && forall op :: op in c.operators <==> op in operators.Values
      ensures c.operatorPositions.Keys == operators.Keys
      ensures forall id :: id in operators ==> c.operatorPositions[id] == positions[id]
      ensures |c.links| == |links.Keys| && forall l :: l in c.links <==> l in links.Values
      ensures |c.commentBoxes| == |commentBoxes.Keys| && forall b :: b in c.commentBoxes <==> b in commentBoxes.Values
      ensures c.settings == Some(workflowSettings)
    {
      var ops := ValuesOf(operators);
      var ls := ValuesOf(links);
      var bs := ValuesOf(commentBoxes);
      var table := PositionTable(ops);
      forall id | id in operators ensures id in table {
        assert operators[id] in operators.Values;
        var j :| 0 <= j < |ops| && ops[j] == operators[id];
      }
      forall id | id in table ensures id in operators {
        var j :| 0 <= j < |ops| && ops[j].operatorID == id;
        assert ops[j] in operators.Values;
        var k :| k in operators && operators[k] == ops[j];
      }
      c := WorkflowContent(ops, table, ls, bs, Some(workflowSettings));
    }

    /** The position table of a snapshot: each listed operator's id sent to its stored position. */
    method PositionTable(ops: seq<Operator>) returns (table: map<string, Point>)
      requires forall op :: op in ops ==> op.operatorID in positions
      ensures forall j :: 0 <= j < |ops| ==> ops[j].operatorID in table
      ensures forall id :: id in table ==> id in positions && table[id] == positions[id]
      ensures forall id :: id in table ==> exists j :: 0 <= j < |ops| && ops[j].operatorID == id
    {
      table := map[];
      for i := 0 to |ops|
        invariant forall j :: 0 <= j < i ==> ops[j].operatorID in table
        invariant forall id :: id in table ==> id in positions && table[id] == positions[id]
        invariant forall id :: id in table ==> exists j :: 0 <= j < i && ops[j].operatorID == id
      {
        assert ops[i] in ops;
        table := table[ops[i].operatorID := positions[ops[i].operatorID]];
      }
    }

    /** The current workflow: its metadata and the persisted shape of its graph. */
    method GetWorkflow() returns (w: Workflow)
      requires Valid()
      ensures w.metadata == workflowMetadata
      ensures w.content.operatorPositions.Keys == operators.Keys
      ensures forall id :: id in operators ==> w.content.operatorPositions[id] == positions[id]
      ensures |w.content.operators| == |operators.Keys| && forall op :: op in w.content.operators <==> op in operators.Values
      ensures |w.content.links| == |links.Keys| && forall l :: l in w.content.links <==> l in links.Values
      ensures |w.content.commentBoxes| == |commentBoxes.Keys|
      ensures forall b :: b in w.content.commentBoxes <==> b in commentBoxes.Values
      ensures w.content.settings == Some(workflowSettings)
    {
      var content := GetWorkflowContent();
      w := Workflow(workflowMetadata, content);
    }

    /** Enters the preview of a version: disconnects the session and keeps the snapshot. */
    method SetTempWorkflow(workflow: Workflow)
      modifies this`connected, this`tempWorkflow
      ensures !connected && tempWorkflow == Some(workflow)
    {
      if connected {
        connected := false;
      }
      tempWorkflow := Some(workflow);
    }

    /** Leaves the preview: drops the snapshot and reconnects the session. */
    method ResetTempWorkflow()
      modifies this`connected, this`tempWorkflow
      ensures connected && tempWorkflow == None
    {
      tempWorkflow := None;
      connected := true;
    }

    // -------------------------------------------------------------------------
    // The shared session and reloading

    /**
     * Replaces the shared document by a fresh one, with an empty graph and a
     * fresh undo manager; joins the session of the given workflow, if any.
     */
    method SetNewSharedModel(workflowId: Option<int>)
      modifies this`operators, this`links, this`commentBoxes, this`positions, this`portProperties
      modifies this`undoStack, this`redoStack, this`connected
      ensures Valid()
      ensures operators == map[] && links == map[] && commentBoxes == map[] && positions == map[]
      ensures portProperties == map[] && undoStack == [] && redoStack == []
      ensures connected == workflowId.Some?
    {
      operators, links, commentBoxes, positions, portProperties := map[], map[], map[], map[], map[];
      undoStack, redoStack := [], [];
      connected := workflowId.Some?;
    }

    /** Leaves the shared session. */
    method DestroySharedModel()
      modifies this`connected
      ensures !connected
    {
      connected := false;
    }

    /** The operators of a snapshot paired with their positions. */
    function PairsWithPositions(content: WorkflowContent): (pairs: seq<OperatorAndPosition>)
      requires forall op :: op in content.operators ==> op.operatorID in content.operatorPositions
      ensures |pairs| == |content.operators|
      ensures forall i :: 0 <= i < |pairs| ==>
        pairs[i].op == content.operators[i] && pairs[i].pos == content.operatorPositions[content.operators[i].operatorID]
    {
      seq(|content.operators|, i requires 0 <= i < |content.operators| =>
        OperatorAndPosition(content.operators[i], content.operatorPositions[content.operators[i].operatorID]))
    }

    /** Every operator migrated to the current version, each keeping its position. */
    function UpdateOperatorVersions(pairs: seq<OperatorAndPosition>): (r: seq<OperatorAndPosition>)
      ensures |r| == |pairs|
      ensures forall i :: 0 <= i < |pairs| ==> r[i].pos == pairs[i].pos && r[i].op == updateOperatorVersion(pairs[i].op)
    {
      seq(|pairs|, i requires 0 <= i < |pairs| => OperatorAndPosition(updateOperatorVersion(pairs[i].op), pairs[i].pos))
    }

    /** Deletes every operator, with its links, as one bulk delete. */
    method DeleteAllOperators()
      requires Valid()
      modifies this`highlightedOperators, this`links, this`highlightedLinks, this`operators, this`positions
      modifies this`undoStack, this`redoStack
      ensures Valid()
      ensures operators == map[] && links == map[]
      ensures positions == old(positions) - old(operators).Keys
    {
      var ids := KeysOf(operators);
      DedupProperties(ids);
      ghost var u := Dedup(ids);
      assert Incident(links, Elems(u)) == links.Keys;
      var r := DeleteOperatorsAndLinks(ids);
      assert BatchOutcome(u, old(operators).Keys) == Pass;
      assert u[..|u|] == u;
    }

    /** Deletes every comment box, one by one. */
    method DeleteAllCommentBoxes()
      requires Valid()
      modifies this`commentBoxes, this`undoStack, this`redoStack
      ensures Valid()
      ensures commentBoxes == map[]
    {
      var boxIDs := KeysOf(commentBoxes);
      ghost var boxes0 := commentBoxes;
      for i := 0 to |boxIDs|
        invariant Valid()
        invariant commentBoxes == boxes0 - Elems(boxIDs[..i])
      {
        var _ := DeleteCommentBox(boxIDs[i]);
        assert Elems(boxIDs[..i + 1]) == Elems(boxIDs[..i]) + {boxIDs[i]} by {
          assert boxIDs[..i + 1] == boxIDs[..i] + [boxIDs[i]];
        }
      }
      assert boxIDs[..|boxIDs|] == boxIDs;
    }

    /** Deletes every operator (with its links) and every comment box. */
    method DeleteEverything()
      requires Valid()
      modifies this`highlightedOperators, this`links, this`highlightedLinks, this`operators, this`positions
      modifies this`commentBoxes, this`undoStack, this`redoStack
      ensures Valid()
      ensures operators == map[] && links == map[] && commentBoxes == map[]
      ensures positions == old(positions) - old(operators).Keys
    {
      DeleteAllOperators();
      DeleteAllCommentBoxes();
    }

    /**
     * The graph left by loading `content` into an emptied graph whose position
     * map was `positions0`, reporting `r`: an operator without a position
     * fails the load before anything is added; otherwise the migrated
     * operators (each at its position), the links and the comment boxes are
     * added in order, and the load passes exactly when every operator and link
     * passes its check.
     */
    ghost predicate LoadedFrom(content: WorkflowContent, r: Outcome, positions0: map<string, Point>)
      reads this`operators, this`links, this`commentBoxes, this`positions
    {
      var k := FirstMissing(OperatorIdList(content.operators), content.operatorPositions.Keys);
      && (k < |content.operators| ==> && r == Fail(MissingPosition(content.operators[k].operatorID))
                                      && operators == map[] && links == map[] && commentBoxes == map[]
                                      && positions == positions0)
      && (k == |content.operators| ==>
            var pairs := UpdateOperatorVersions(PairsWithPositions(content));
            && (r.Pass? <==> && OperatorsAddable(map[], pairs, operatorTypeExists)
                             && LinksAddable(map[], AddOperators(map[], pairs).Keys, content.links, linkAccepted))
            && (r.Pass? ==> && operators == AddOperators(map[], pairs)
                            && positions == AddPositions(positions0, pairs)
                            && links == AddLinks(map[], content.links)
                            && commentBoxes == AddCommentBoxes(map[], content.commentBoxes)))
    }

    /**
     * Reloads the editor with the given workflow, or with an empty one: stores
     * its metadata, deletes the current graph, and either starts a fresh
     * shared document or adds the workflow's operators, links and comment
     * boxes (operators migrated to the current version). The undo and redo
     * stacks are emptied at the end. An error (an operator without a position,
     * or a rejected operator or link) ends the reload early, with the
     * reloading mark still on and the stacks not emptied.
     */
    method ReloadWorkflow(workflow: Option<Workflow>) returns (r: Outcome)
      requires Valid()
      modifies this`reloadingWorkflow, this`workflowMetadata, this`metadataChanges, this`workflowSettings
      modifies this`highlightedOperators, this`highlightedLinks, this`highlightedCommentBoxes, this`highlightedPorts
      modifies this`multiSelect, this`operators, this`links, this`commentBoxes, this`positions, this`portProperties
      modifies this`undoStack, this`redoStack, this`connected
      ensures Valid()
      ensures workflowMetadata == if workflow.Some? then workflow.value.metadata else DefaultWorkflow
      ensures r.Pass? <==> !reloadingWorkflow
      ensures r.Pass? ==> undoStack == [] && redoStack == []
      ensures workflow.None? ==> && r == Pass
                                 && operators == map[] && links == map[] && commentBoxes == map[] && positions == map[]
                                 && workflowSettings == old(workflowSettings) && !connected
      ensures workflow.Some? ==>
        && workflowSettings == workflow.value.content.settings.GetOr(DefaultSettings())
        && LoadedFrom(workflow.value.content, r, old(positions) - old(operators).Keys)
        && connected == old(connected) && portProperties == old(portProperties)
      ensures workflow.Some? && AllPlaced(workflow.value.content) ==> NothingHighlighted() && !multiSelect
    {
      if workflow.None? {
        StartReload(None);
        SetNewSharedModel(None);
        EndReload();
        return Pass;
      }
      r := ReloadFrom(workflow.value);
    }

    /** reload(w) for a given workflow: the session and the port properties are left alone. */
    method ReloadFrom(w: Workflow) returns (r: Outcome)
      requires Valid()
      modifies this`reloadingWorkflow, this`workflowMetadata, this`metadataChanges, this`workflowSettings
      modifies this`highlightedOperators, this`highlightedLinks, this`highlightedCommentBoxes, this`highlightedPorts
      modifies this`multiSelect, this`operators, this`links, this`commentBoxes, this`positions
      modifies this`undoStack, this`redoStack
      ensures Valid()
      ensures workflowMetadata == w.metadata
      ensures r.Pass? <==> !reloadingWorkflow
      ensures r.Pass? ==> undoStack == [] && redoStack == []
      ensures workflowSettings == w.content.settings.GetOr(DefaultSettings())
      ensures LoadedFrom(w.content, r, old(positions) - old(operators).Keys)
      ensures AllPlaced(w.content) ==> NothingHighlighted() && !multiSelect
    {
      StartReload(Some(w.metadata));
      r := FinishReload(w.content);
    }

    /** The second half of reload(w), on the emptied graph: loads the content and, on success, ends the reload. */
    method FinishReload(content: WorkflowContent) returns (r: Outcome)
      requires Valid() && reloadingWorkflow && operators == map[] && links == map[] && commentBoxes == map[]
      modifies this`reloadingWorkflow, this`workflowSettings
      modifies this`highlightedOperators, this`highlightedLinks, this`highlightedCommentBoxes, this`highlightedPorts
      modifies this`multiSelect, this`operators, this`links, this`commentBoxes, this`positions
      modifies this`undoStack, this`redoStack
      ensures Valid()
      ensures r.Pass? <==> !reloadingWorkflow
      ensures r.Pass? ==> undoStack == [] && redoStack == []
      ensures workflowSettings == content.settings.GetOr(DefaultSettings())
      ensures LoadedFrom(content, r, old(positions))
      ensures AllPlaced(content) ==> NothingHighlighted() && !multiSelect
    {
      r := LoadContent(content);
      if r.Fail? {
        return;
      }
      EndReload();
    }

    /**
     * The first half of a reload: puts the reloading mark on, stores the
     * metadata (the default one for none) and deletes the whole graph.
     */
    method StartReload(metadata: Option<WorkflowMetadata>)
      requires Valid()
      modifies this`reloadingWorkflow, this`workflowMetadata, this`metadataChanges
      modifies this`highlightedOperators, this`links, this`highlightedLinks, this`operators, this`positions
      modifies this`commentBoxes, this`undoStack, this`redoStack
      ensures Valid() && reloadingWorkflow
      ensures workflowMetadata == metadata.GetOr(DefaultWorkflow)
      ensures operators == map[] && links == map[] && commentBoxes == map[]
      ensures positions == old(positions) - old(operators).Keys
    {
      reloadingWorkflow := true;
      SetWorkflowMetadata(metadata);
      DeleteEverything();
    }

    /** Takes the reloading mark off and empties the undo and redo stacks. */
    method EndReload()
      modifies this`reloadingWorkflow, this`undoStack, this`redoStack
      ensures !reloadingWorkflow && undoStack == [] && redoStack == []
    {
      reloadingWorkflow := false;
      undoStack, redoStack := [], [];
    }

    /**
     * The second half of a reload, on an emptied graph: takes the snapshot's
     * settings (the default ones for none), fails on the first operator
     * without a position, and otherwise adds the migrated operators, the links
     * and the comment boxes as one bulk add.
     */
    method LoadContent(content: WorkflowContent) returns (r: Outcome)
      requires Valid() && operators == map[] && links == map[] && commentBoxes == map[]
      modifies this`workflowSettings
      modifies this`highlightedOperators, this`highlightedLinks, this`highlightedCommentBoxes, this`highlightedPorts
      modifies this`multiSelect, this`operators, this`links, this`commentBoxes, this`positions
      modifies this`undoStack, this`redoStack
      ensures Valid()
      ensures workflowSettings == content.settings.GetOr(DefaultSettings())
      ensures LoadedFrom(content, r, old(positions))
      ensures AllPlaced(content) ==> NothingHighlighted() && !multiSelect
    {
      workflowSettings := content.settings.GetOr(DefaultSettings());
      var i := FirstUnplaced(content.operators, content.operatorPositions);
      if i < |content.operators| {
        assert content.operators[i] in content.operators;
        return Fail(MissingPosition(content.operators[i].operatorID));
      }
      r := LoadPlaced(content);
    }

    /**
     * The bulk add of a reload once every operator has a position: migrates
     * the operators and adds them with the links and the comment boxes.
     */
    method LoadPlaced(content: WorkflowContent) returns (r: Outcome)
      requires Valid() && operators == map[] && links == map[] && commentBoxes == map[]
      requires FirstMissing(OperatorIdList(content.operators), content.operatorPositions.Keys) == |content.operators|
      modifies this`highlightedOperators, this`highlightedLinks, this`highlightedCommentBoxes, this`highlightedPorts
      modifies this`multiSelect, this`operators, this`links, this`commentBoxes, this`positions
      modifies this`undoStack, this`redoStack
      ensures Valid() && NothingHighlighted() && !multiSelect
      ensures LoadedFrom(content, r, old(positions))
    {
      var pairs := UpdateOperatorVersions(PairsWithPositions(content));
      r := AddOperatorsAndLinks(pairs, content.links, content.commentBoxes);
      AllOperatorsAddable(map[], pairs, operatorTypeExists);
      AllLinksAddable(map[], AddOperators(map[], pairs).Keys, content.links, linkAccepted);
      assert pairs[..|pairs|] == pairs && content.links[..|content.links|] == content.links;
    }

    /**
     * Clears the editor: leaves the session, resets metadata and settings to
     * their defaults, reloads an empty workflow and switches highlighting off.
     */
    method ClearWorkflow()
      requires Valid()
      modifies this`reloadingWorkflow, this`workflowMetadata, this`metadataChanges, this`workflowSettings
      modifies this`highlightedOperators, this`highlightedLinks, this`highlightedCommentBoxes, this`highlightedPorts
      modifies this`multiSelect, this`operators, this`links, this`commentBoxes, this`positions, this`portProperties
      modifies this`undoStack, this`redoStack, this`connected, this`highlightingEnabled
      ensures Valid()
      ensures operators == map[] && links == map[] && commentBoxes == map[] && positions == map[]
      ensures workflowMetadata == DefaultWorkflow && workflowSettings == DefaultSettings()
      ensures undoStack == [] && redoStack == [] && !connected && !highlightingEnabled && !reloadingWorkflow
    {
      DestroySharedModel();
      SetWorkflowMetadata(None);
      SetWorkflowSettings(None);
      var _ := ReloadWorkflow(None);
      SetHighlightingEnabled(false);
    }

    /** Leaves the session and reloads an empty workflow, keeping the settings. */
    method ResetAsNewWorkflow()
      requires Valid()
      modifies this`reloadingWorkflow, this`workflowMetadata, this`metadataChanges, this`workflowSettings
      modifies this`highlightedOperators, this`highlightedLinks, this`highlightedCommentBoxes, this`highlightedPorts
      modifies this`multiSelect, this`operators, this`links, this`commentBoxes, this`positions, this`portProperties
      modifies this`undoStack, this`redoStack, this`connected
      ensures Valid()
      ensures operators == map[] && links == map[] && commentBoxes == map[] && positions == map[]
      ensures workflowMetadata == DefaultWorkflow && workflowSettings == old(workflowSettings)
      ensures undoStack == [] && redoStack == [] && !connected && !reloadingWorkflow
    {
      DestroySharedModel();
      var _ := ReloadWorkflow(None);
    }
  }
}
