# Workflow action service, modelled in Dafny

This project models `WorkflowActionService`. That service is the action layer
of the workflow editor: every change to operators, ports, links, comment boxes
and element positions goes through one of its actions. So do the highlight
state, the workflow metadata and settings, the modification lock, version
preview and reloading a whole workflow.

Layout:

- `types.dfy` (module `Types`): the value types. These are operators with
  their ports and flags, links between logical ports, comment boxes with their
  comments, metadata, settings and the persisted snapshot, plus the errors the
  actions throw. `DEFAULT_WORKFLOW` and `DEFAULT_WORKFLOW_NAME` are constants.
- `naming.dfy` (module `Naming`): `String.prototype.trim` and the guards of
  `setWorkflowName` and `setWorkflowDataTransferBatchSize`.
- `port_ids.dfy` (module `PortIds`): how `addPort` names a dynamic port.
  The `Probe` loop generates ids such as `"input-3"`.
- `graph_spec.dfy` (module `GraphSpec`): value-level definitions the
  actions are specified against. These cover incident links, de-duplication,
  the checks of adding an operator, a link or a port, and what a bulk add
  leaves behind.
- `workflow_actions.dfy` (module `WorkflowActions`): the class
  `WorkflowActionService`. Its fields are the operator, link, comment-box,
  port-property and element-position maps. It also holds the highlight sets
  and the multi-select flag, the metadata, settings and temporary workflow,
  the modification lock, the centre point, the undo and redo stacks, the
  `connected` flag of the collaborative session, and the listener switches.
  Every action is a method whose `modifies` clause names exactly the fields
  it changes.

Modelling choices:

- A `bundleActions` block is one atomic step. The undo manager is modelled by
  its two stacks. The outermost bundle pushes the state it started from, but
  only when the replicated state changed; that push empties the redo stack.
  An action nested inside another action's bundle is a `...Step` method that
  records nothing itself.
- An exception raised inside a bundle ends the action. The method returns
  `Fail(error)`, and whatever the bundle changed before the error stays.
- `WorkflowGraph` is not part of this model, so its `assert*` checks become
  `Fail` outcomes. `removePort` removes the last port of the requested
  direction. Deleting or editing a comment acts on every comment carrying
  the key (creatorID, creationTime).
- Three external services are parameters of the constructor, fixed for the
  object's lifetime: the operator-type registry (`operatorTypeExists`), the
  link validator (`linkAccepted`) and the operator-version migration
  (`updateOperatorVersion`).
- The rendering layer is reduced to a map `jointPositions` from element id to
  drawn position. In single-select mode the highlight primitives are taken
  to clear the whole selection before highlighting a non-empty list; an
  empty list leaves the selection as it is.
- `WorkflowGraph.addCommentBox` is not part of this model, and no duplicate
  id check is modelled for it: a comment box added under an id already in
  use replaces the existing box, where the design expects box ids to be
  unique.
- Points are integer pairs. Reference comparisons (`===`, `!==`) are value
  equality.
- Where the documented design and the code differ, the code is followed:
  - `reloadWorkflow(undefined)` keeps the current settings.
  - `addPort` probes only the input ports (see Findings).

## Model

| member | source | states |
|---|---|---|
| `Naming.TrimEmptyIffBlank` | core/gui/src/app/workspace/service/workflow-graph/model/workflow-action.service.ts:799 | a name trims to the empty string exactly when every character of it is white space |
| `Naming.EffectiveName` | core/gui/src/app/workspace/service/workflow-graph/model/workflow-action.service.ts:798-801 | a blank (empty or whitespace-only) name becomes DEFAULT_WORKFLOW_NAME; any other name is kept untrimmed |
| `Naming.ResizedSettings` | core/gui/src/app/workspace/service/workflow-graph/model/workflow-action.service.ts:803-807 | a positive size becomes the batch size; any other size leaves the settings unchanged |
| `PortIds.NatToStringInjective` | core/gui/src/app/workspace/service/workflow-graph/model/workflow-action.service.ts:244 | two counters with the same decimal spelling are equal, so different counters give different port ids |
| `PortIds.ProbeResultUnique` | core/gui/src/app/workspace/service/workflow-graph/model/workflow-action.service.ts:246-249 | the probing loop can stop at only one counter value |
| `PortIds.Probe` | core/gui/src/app/workspace/service/workflow-graph/model/workflow-action.service.ts:242-249 | the counter starts at the given count; the result is the least value at or above it whose id is not carried by the scanned ports; the id is prefix + decimal counter |
| `PortIds.DynamicPort` | core/gui/src/app/workspace/service/workflow-graph/model/workflow-action.service.ts:251-257 | the new port is dynamic, has no dependencies, and its display name equals its id |
| `PortIds.AppendFreshPort` | core/gui/src/app/workspace/service/workflow-graph/model/workflow-action.service.ts:246-273 | appending a port under an id the list does not carry keeps the port ids distinct |
| `PortIds.OutputProbeStopsAtStart` | core/gui/src/app/workspace/service/workflow-graph/model/workflow-action.service.ts:246-249 | as written, when every input port id carries the input prefix, the probe for an output port returns its start counter whatever ids the output ports carry |
| `PortIds.OutputProbeCollides` | core/gui/src/app/workspace/service/workflow-graph/model/workflow-action.service.ts:246 | as written, an output port can get an id the operator's output ports already carry |
| `GraphSpec.Incident` | core/gui/src/app/workspace/service/workflow-graph/model/workflow-action.service.ts:228-231 | the links with an endpoint on one of the given operators, and no others |
| `GraphSpec.EndpointsUniqueRemove` | core/gui/src/app/workspace/service/workflow-graph/model/workflow-action.service.ts:433-436 | deleting links keeps "no two links join the same pair of ports" |
| `GraphSpec.EndpointsUniqueAdd` | core/gui/src/app/workspace/service/workflow-graph/model/workflow-action.service.ts:422-426 | adding a link under a new id between ports no link joins keeps the pairs distinct |
| `GraphSpec.WithoutLinkBetween` | core/gui/src/app/workspace/service/workflow-graph/model/workflow-action.service.ts:444-447 | no link joins the two ports afterwards; every kept link is unchanged; with no such link, the links are unchanged |
| `GraphSpec.AddThenDeleteLink` | core/gui/src/app/workspace/service/workflow-graph/model/workflow-action.service.ts:422-447 | deleting by endpoints undoes an accepted addLink |
| `GraphSpec.DedupProperties` | core/gui/src/app/workspace/service/workflow-graph/model/workflow-action.service.ts:344 | the de-duplicated id list holds the same ids, each once |
| `GraphSpec.DedupIdempotent` | core/gui/src/app/workspace/service/workflow-graph/model/workflow-action.service.ts:344 | de-duplicating twice equals de-duplicating once, so a bulk delete with repeated ids equals one on its de-duplicated list |
| `GraphSpec.BatchOutcome` | core/gui/src/app/workspace/service/workflow-graph/model/workflow-action.service.ts:531-577 | a batch over ids passes exactly when every id names an operator |
| `GraphSpec.FlagAllSnoc` | core/gui/src/app/workspace/service/workflow-graph/model/workflow-action.service.ts:531-537 | flagging one more listed operator extends the flagged state by that operator |
| `GraphSpec.PortCheck` | core/gui/src/app/workspace/service/workflow-graph/model/workflow-action.service.ts:259-267 | adding a port passes exactly when the operator exists, has the matching dynamic-port capability, and (for an output port) gets no allowMultiInputs |
| `GraphSpec.AddThenRemovePort` | core/gui/src/app/workspace/service/workflow-graph/model/workflow-action.service.ts:272-279 | removing the last port undoes appending one |
| `GraphSpec.WithoutComment` | core/gui/src/app/workspace/service/workflow-graph/model/workflow-action.service.ts:472-476 | the comments left are exactly those without the key; at least one fewer when the key was present |
| `GraphSpec.AddThenDeleteComment` | core/gui/src/app/workspace/service/workflow-graph/model/workflow-action.service.ts:466-476 | deleting a comment with a new key undoes appending it |
| `GraphSpec.EditKeepsKeys` | core/gui/src/app/workspace/service/workflow-graph/model/workflow-action.service.ts:478-482 | editing a comment keeps the set of comment keys of the box |
| `GraphSpec.OperatorCheck` | core/gui/src/app/workspace/service/workflow-graph/model/workflow-action.service.ts:207-211 | adding an operator passes exactly when its id is new and its type is known |
| `GraphSpec.LinkCheck` | core/gui/src/app/workspace/service/workflow-graph/model/workflow-action.service.ts:423-424 | adding a link passes exactly when its id and its port pair are unused, both endpoint operators exist, and the validator accepts it |
| `GraphSpec.AllOperatorsAddable` | core/gui/src/app/workspace/service/workflow-graph/model/workflow-action.service.ts:316-318 | all operators of a bulk add go in exactly when none is rejected |
| `GraphSpec.AllLinksAddable` | core/gui/src/app/workspace/service/workflow-graph/model/workflow-action.service.ts:319-323 | all links of a bulk add go in exactly when none is rejected |
| `GraphSpec.BulkAdd` | core/gui/src/app/workspace/service/workflow-graph/model/workflow-action.service.ts:305-328 | a bulk add passes exactly when every operator and then every link passes its check; it then leaves the operators, positions, links and boxes added in order; a failure adds no comment box |
| `GraphSpec.Filter` | core/gui/src/app/workspace/service/workflow-graph/model/workflow-action.service.ts:517-519 | the kept ids are exactly the listed ids of the given kind |
| `GraphSpec.FirstMissingIs` | core/gui/src/app/workspace/service/workflow-graph/model/workflow-action.service.ts:531-537 | an index before which every id is present and at which the id is missing (or the end) is the first missing one, so a batch's stopping point is unique |
| `GraphSpec.RejectedOperatorBlocks` | core/gui/src/app/workspace/service/workflow-graph/model/workflow-action.service.ts:316-318 | one operator rejected after its predecessors went in makes the whole bulk add of operators fail |
| `GraphSpec.RejectedLinkBlocks` | core/gui/src/app/workspace/service/workflow-graph/model/workflow-action.service.ts:319-323 | one link rejected after its predecessors went in makes the whole bulk add of links fail |
| `WorkflowActions.TopLeftUnique` | core/gui/src/app/workspace/service/workflow-graph/model/workflow-action.service.ts:396-411 | the componentwise minimum of a set of points is unique |
| `WorkflowActions.GroupMove` | core/gui/src/app/workspace/service/workflow-graph/model/workflow-action.service.ts:886-895 | after the group move, each highlighted element is shifted by (dx, dy), and an element in both lists by twice that; its position-map entry equals its drawn position; every other element and entry is unchanged |
| `WorkflowActions.PersistBoxPositions` | core/gui/src/app/workspace/service/workflow-graph/model/workflow-action.service.ts:879-885 | a selected box whose id names a comment box takes its drawn position; every box keeps its id and comments; every other box is unchanged |
| `WorkflowActions.FirstUnplaced` | core/gui/src/app/workspace/service/workflow-graph/model/workflow-action.service.ts:648-654 | the reload's position check stops at the first snapshot operator without a position: every operator before it has one, and it is the first missing id of the operator list |
| `WorkflowActions.FlagListed` | core/gui/src/app/workspace/service/workflow-graph/model/workflow-action.service.ts:531-537 | the flag loop stops at the first id naming no operator, and the operators listed before it, and only those, carry the flag |
| `WorkflowActions.RemoveLinks` | core/gui/src/app/workspace/service/workflow-graph/model/workflow-action.service.ts:227-231 | deleting a set of links one by one leaves exactly the other links, and unhighlights exactly the deleted ones |
| `WorkflowActions.RemoveOperators` | core/gui/src/app/workspace/service/workflow-graph/model/workflow-action.service.ts:352-354 | the delete loop over a duplicate-free list stops at the first id naming no operator; the operators, positions and highlights listed before it, and only those, are gone |
| `WorkflowActions.AppendProbedPort` | core/gui/src/app/workspace/service/workflow-graph/model/workflow-action.service.ts:239-273 | the operator gets one new dynamic port in the requested direction under the probed id; when the scanned ports are that direction's own distinct ports, the ids stay distinct |
| `WorkflowActions.WorkflowActionService.constructor` | core/gui/src/app/workspace/service/workflow-graph/model/workflow-action.service.ts:102-126 | the service starts with an empty graph, DEFAULT_WORKFLOW, the default settings, the modification lock open, and empty undo and redo stacks |
| `WorkflowActions.WorkflowActionService.EnableWorkflowModification` | core/gui/src/app/workspace/service/workflow-graph/model/workflow-action.service.ts:137-143 | modification becomes enabled unless the workflow is read-only |
| `WorkflowActions.WorkflowActionService.DisableWorkflowModification` | core/gui/src/app/workspace/service/workflow-graph/model/workflow-action.service.ts:145-149 | modification becomes disabled |
| `WorkflowActions.WorkflowActionService.AddOperator` | core/gui/src/app/workspace/service/workflow-graph/model/workflow-action.service.ts:203-218 | multi-select is switched off; a duplicate id or unknown type fails with the graph, positions and stacks unchanged; otherwise the operator is added at the given point as one undo entry, links untouched |
| `WorkflowActions.WorkflowActionService.DeleteLinkWithId` | core/gui/src/app/workspace/service/workflow-graph/model/workflow-action.service.ts:433-437 | a missing id fails with nothing changed; otherwise the link is removed and unhighlighted as one undo entry |
| `WorkflowActions.WorkflowActionService.DeleteIncidentLinks` | core/gui/src/app/workspace/service/workflow-graph/model/workflow-action.service.ts:227-231 | exactly the links touching the given operators are deleted and unhighlighted |
| `WorkflowActions.WorkflowActionService.DeleteOperator` | core/gui/src/app/workspace/service/workflow-graph/model/workflow-action.service.ts:225-237 | the operator is unhighlighted; a missing operator fails with the graph unchanged; otherwise its incident links, then it and its position go, and no remaining link touches it; every other operator and link is unchanged |
| `WorkflowActions.WorkflowActionService.AddThenDeleteOperator` | core/gui/src/app/workspace/service/workflow-graph/model/workflow-action.service.ts:203-237 | adding a new operator and deleting it restores the operators, links and positions |
| `WorkflowActions.WorkflowActionService.AddPort` | core/gui/src/app/workspace/service/workflow-graph/model/workflow-action.service.ts:239-274 | all checks run before any change; a failed check changes nothing; the new port's id comes from probing that starts at the count of the requested direction but scans the input ports, as written |
| `WorkflowActions.WorkflowActionService.AddPortIntended` | core/gui/src/app/workspace/service/workflow-graph/model/workflow-action.service.ts:239-274 | as AddPort, but probing scans the ports of the requested direction, so the port ids of that direction stay distinct |
| `WorkflowActions.WorkflowActionService.RemovePort` | core/gui/src/app/workspace/service/workflow-graph/model/workflow-action.service.ts:276-281 | a missing operator or an empty direction fails with nothing changed; otherwise the last port of that direction is removed |
| `WorkflowActions.WorkflowActionService.AddLink` | core/gui/src/app/workspace/service/workflow-graph/model/workflow-action.service.ts:422-426 | a link whose check fails changes nothing; otherwise it is added under its id |
| `WorkflowActions.WorkflowActionService.DeleteLink` | core/gui/src/app/workspace/service/workflow-graph/model/workflow-action.service.ts:444-447 | no link joins the two ports afterwards; with none to begin with, it fails and nothing changes |
| `WorkflowActions.WorkflowActionService.AddComment` | core/gui/src/app/workspace/service/workflow-graph/model/workflow-action.service.ts:466-470 | a missing box fails with nothing changed; otherwise the comment is appended to that box only |
| `WorkflowActions.WorkflowActionService.DeleteComment` | core/gui/src/app/workspace/service/workflow-graph/model/workflow-action.service.ts:472-476 | a missing box or key fails with nothing changed; otherwise the comments with that key are removed from that box only |
| `WorkflowActions.WorkflowActionService.EditComment` | core/gui/src/app/workspace/service/workflow-graph/model/workflow-action.service.ts:478-482 | a missing box or key fails with nothing changed; otherwise only the content of the comments with that key is replaced |
| `WorkflowActions.WorkflowActionService.DeleteCommentBox` | core/gui/src/app/workspace/service/workflow-graph/model/workflow-action.service.ts:334-337 | a missing box fails with nothing changed; otherwise that box is removed |
| `WorkflowActions.WorkflowActionService.AddCommentBox` | core/gui/src/app/workspace/service/workflow-graph/model/workflow-action.service.ts:287-297 | the selection is cleared and multi-select is off; the box goes in empty and then ends up holding exactly its comments, in order |
| `WorkflowActions.WorkflowActionService.AddOperatorsAndLinks` | core/gui/src/app/workspace/service/workflow-graph/model/workflow-action.service.ts:305-328 | the selection is cleared; the result equals BulkAdd of the operators, links and boxes in order; it is one undo entry |
| `WorkflowActions.WorkflowActionService.DeleteOperatorsAndLinks` | core/gui/src/app/workspace/service/workflow-graph/model/workflow-action.service.ts:343-357 | works on the de-duplicated list; every link touching a listed operator goes; the operators go in order up to the first missing id; on success none of the listed operators exist and no link touches them |
| `WorkflowActions.WorkflowActionService.SetOperatorProperty` | core/gui/src/app/workspace/service/workflow-graph/model/workflow-action.service.ts:454-458 | the property object of that operator alone is replaced wholesale; a missing operator fails with nothing changed |
| `WorkflowActions.WorkflowActionService.SetPortProperty` | core/gui/src/app/workspace/service/workflow-graph/model/workflow-action.service.ts:460-464 | the property object of that port is replaced wholesale; a missing port fails with nothing changed |
| `WorkflowActions.WorkflowActionService.SetOperatorVersion` | core/gui/src/app/workspace/service/workflow-graph/model/workflow-action.service.ts:579-581 | only that operator's version changes; a missing operator fails with nothing changed |
| `WorkflowActions.WorkflowActionService.SetOperatorFlags` | core/gui/src/app/workspace/service/workflow-graph/model/workflow-action.service.ts:531-577 | the flag is set on the listed operators in order, up to the first id that names no operator |
| `WorkflowActions.WorkflowActionService.DisableOperators` | core/gui/src/app/workspace/service/workflow-graph/model/workflow-action.service.ts:531-537 | the listed operators are disabled up to the first missing id; the whole batch is one undo entry, and the redo stack is emptied when the graph changed |
| `WorkflowActions.WorkflowActionService.EnableOperators` | core/gui/src/app/workspace/service/workflow-graph/model/workflow-action.service.ts:539-545 | the listed operators are enabled up to the first missing id; the whole batch is one undo entry, and the redo stack is emptied when the graph changed |
| `WorkflowActions.WorkflowActionService.MarkReuseResults` | core/gui/src/app/workspace/service/workflow-graph/model/workflow-action.service.ts:547-553 | the listed operators are marked for reuse up to the first missing id; the whole batch is one undo entry, and the redo stack is emptied when the graph changed |
| `WorkflowActions.WorkflowActionService.RemoveMarkReuseResults` | core/gui/src/app/workspace/service/workflow-graph/model/workflow-action.service.ts:555-561 | the reuse mark is removed from the listed operators up to the first missing id; the whole batch is one undo entry, and the redo stack is emptied when the graph changed |
| `WorkflowActions.WorkflowActionService.SetViewOperatorResults` | core/gui/src/app/workspace/service/workflow-graph/model/workflow-action.service.ts:563-569 | view-result is set on the listed operators up to the first missing id; the whole batch is one undo entry, and the redo stack is emptied when the graph changed |
| `WorkflowActions.WorkflowActionService.UnsetViewOperatorResults` | core/gui/src/app/workspace/service/workflow-graph/model/workflow-action.service.ts:571-577 | view-result is cleared on the listed operators up to the first missing id; the whole batch is one undo entry, and the redo stack is emptied when the graph changed |
| `WorkflowActions.WorkflowActionService.HighlightOperators` | core/gui/src/app/workspace/service/workflow-graph/model/workflow-action.service.ts:484-491 | sets the multi-select mode; in single-select the selection becomes exactly the given operators, otherwise they are added |
| `WorkflowActions.WorkflowActionService.UnhighlightOperators` | core/gui/src/app/workspace/service/workflow-graph/model/workflow-action.service.ts:493-499 | exactly the given operators leave the selection |
| `WorkflowActions.WorkflowActionService.HighlightLinks` | core/gui/src/app/workspace/service/workflow-graph/model/workflow-action.service.ts:501-504 | as HighlightOperators, for links |
| `WorkflowActions.WorkflowActionService.UnhighlightLinks` | core/gui/src/app/workspace/service/workflow-graph/model/workflow-action.service.ts:506-508 | exactly the given links leave the selection |
| `WorkflowActions.WorkflowActionService.HighlightCommentBoxes` | core/gui/src/app/workspace/service/workflow-graph/model/workflow-action.service.ts:510-513 | as HighlightOperators, for comment boxes |
| `WorkflowActions.WorkflowActionService.HighlightPorts` | core/gui/src/app/workspace/service/workflow-graph/model/workflow-action.service.ts:522-525 | as HighlightOperators, for ports |
| `WorkflowActions.WorkflowActionService.UnhighlightPorts` | core/gui/src/app/workspace/service/workflow-graph/model/workflow-action.service.ts:527-529 | exactly the given ports leave the selection |
| `WorkflowActions.WorkflowActionService.HighlightElements` | core/gui/src/app/workspace/service/workflow-graph/model/workflow-action.service.ts:515-520 | each id is highlighted as an operator, a link or a comment box according to what it names; in single-select only the last non-empty kind stays selected |
| `WorkflowActions.WorkflowActionService.MoveGroup` | core/gui/src/app/workspace/service/workflow-graph/model/workflow-action.service.ts:886-895 | the highlighted operators, then comment boxes, move by (dx, dy); each moved position-map entry equals the drawn position; nothing else moves |
| `WorkflowActions.WorkflowActionService.PersistCommentBoxPositions` | core/gui/src/app/workspace/service/workflow-graph/model/workflow-action.service.ts:879-885 | each selected comment box records its drawn position; nothing else changes |
| `WorkflowActions.WorkflowActionService.MoveSelection` | core/gui/src/app/workspace/service/workflow-graph/model/workflow-action.service.ts:867-897 | the dragged element's entry becomes its new position, every other highlighted element moves by the same offset, and both listen flags end up true |
| `WorkflowActions.WorkflowActionService.HandleJointElementDrag` | core/gui/src/app/workspace/service/workflow-graph/model/workflow-action.service.ts:847-901 | a drag of a highlighted element whose stored position differs shifts every other highlighted operator and comment box by (newPosition - oldPosition), records it as one undo entry, and leaves non-highlighted elements and the listen flags as they were; any other drag changes nothing |
| `WorkflowActions.WorkflowActionService.TopLeft` | core/gui/src/app/workspace/service/workflow-graph/model/workflow-action.service.ts:396-411 | the min-tracking loop yields the componentwise minimum of the drawn positions |
| `WorkflowActions.WorkflowActionService.CalculateTopLeftOperatorPosition` | core/gui/src/app/workspace/service/workflow-graph/model/workflow-action.service.ts:390-415 | with operators, the centre point becomes their top-left position and the listener is back on; with none, the centre point is kept and the listener stays off |
| `WorkflowActions.WorkflowActionService.CalculateTopLeftOperatorPositionIntended` | core/gui/src/app/workspace/service/workflow-graph/model/workflow-action.service.ts:390-415 | as above, but the listener is back on in both cases |
| `WorkflowActions.WorkflowActionService.SetWorkflowMetadata` | core/gui/src/app/workspace/service/workflow-graph/model/workflow-action.service.ts:711-719 | passing the current metadata changes nothing and fires no event; otherwise the given metadata (DEFAULT_WORKFLOW for none) is stored and one event fires |
| `WorkflowActions.WorkflowActionService.SetWorkflowSettings` | core/gui/src/app/workspace/service/workflow-graph/model/workflow-action.service.ts:721-728 | the given settings are stored, or the default ones for none |
| `WorkflowActions.WorkflowActionService.SetWorkflowName` | core/gui/src/app/workspace/service/workflow-graph/model/workflow-action.service.ts:798-801 | only the name changes, to the effective name (the default for a blank name) |
| `WorkflowActions.WorkflowActionService.SetWorkflowDataTransferBatchSize` | core/gui/src/app/workspace/service/workflow-graph/model/workflow-action.service.ts:803-807 | only the batch size changes, and only when the size is positive |
| `WorkflowActions.WorkflowActionService.SetWorkflowIsPublished` | core/gui/src/app/workspace/service/workflow-graph/model/workflow-action.service.ts:817-819 | only the published state changes |
| `WorkflowActions.WorkflowActionService.SetHighlightingEnabled` | core/gui/src/app/workspace/service/workflow-graph/model/workflow-action.service.ts:914-916 | the highlighting switch takes the given value |
| `WorkflowActions.WorkflowActionService.PositionTable` | core/gui/src/app/workspace/service/workflow-graph/model/workflow-action.service.ts:747-754 | each listed operator's id is sent to its stored position, and the table holds no other ids |
| `WorkflowActions.WorkflowActionService.GetWorkflowContent` | core/gui/src/app/workspace/service/workflow-graph/model/workflow-action.service.ts:738-762 | the snapshot lists every operator, link and comment box once, maps exactly the operator ids to their stored positions, and carries the settings |
| `WorkflowActions.WorkflowActionService.GetWorkflow` | core/gui/src/app/workspace/service/workflow-graph/model/workflow-action.service.ts:764-769 | the current metadata together with the content snapshot: every operator, link and comment box once, and each operator's stored position |
| `WorkflowActions.WorkflowActionService.SetTempWorkflow` | core/gui/src/app/workspace/service/workflow-graph/model/workflow-action.service.ts:775-780 | the session is disconnected and the snapshot is held |
| `WorkflowActions.WorkflowActionService.ResetTempWorkflow` | core/gui/src/app/workspace/service/workflow-graph/model/workflow-action.service.ts:785-788 | the snapshot is dropped and the session is connected |
| `WorkflowActions.WorkflowActionService.SetNewSharedModel` | core/gui/src/app/workspace/service/workflow-graph/model/workflow-action.service.ts:602-605 | a fresh shared document: empty graph, empty undo and redo stacks, connected exactly when a workflow id is given |
| `WorkflowActions.WorkflowActionService.DestroySharedModel` | core/gui/src/app/workspace/service/workflow-graph/model/workflow-action.service.ts:610-612 | the session is disconnected |
| `WorkflowActions.WorkflowActionService.PairsWithPositions` | core/gui/src/app/workspace/service/workflow-graph/model/workflow-action.service.ts:648-655 | each snapshot operator is paired, in order, with its position from the table |
| `WorkflowActions.WorkflowActionService.UpdateOperatorVersions` | core/gui/src/app/workspace/service/workflow-graph/model/workflow-action.service.ts:903-912 | each operator is migrated and keeps its position, in order |
| `WorkflowActions.WorkflowActionService.DeleteEverything` | core/gui/src/app/workspace/service/workflow-graph/model/workflow-action.service.ts:630-638 | no operator, link or comment box is left, and the operators' positions are gone |
| `WorkflowActions.WorkflowActionService.StartReload` | core/gui/src/app/workspace/service/workflow-graph/model/workflow-action.service.ts:625-638 | the reloading mark is on, the metadata is stored, and the graph is empty |
| `WorkflowActions.WorkflowActionService.LoadContent` | core/gui/src/app/workspace/service/workflow-graph/model/workflow-action.service.ts:645-663 | an operator without a position fails before anything is added; otherwise the migrated operators, the links and the boxes are bulk-added |
| `WorkflowActions.WorkflowActionService.ReloadWorkflow` | core/gui/src/app/workspace/service/workflow-graph/model/workflow-action.service.ts:621-675 | reload(undefined): no operators, links or boxes, an empty position map, DEFAULT_WORKFLOW, empty undo and redo stacks. reload(w): w's metadata and settings; a missing position fails; otherwise w's graph is loaded, and success empties both stacks; the session and the port properties are untouched; when every operator has a position the selection ends empty and multi-select off |
| `WorkflowActions.WorkflowActionService.ClearWorkflow` | core/gui/src/app/workspace/service/workflow-graph/model/workflow-action.service.ts:809-815 | an empty graph with default metadata and settings, empty stacks, disconnected, highlighting off |
| `WorkflowActions.WorkflowActionService.ResetAsNewWorkflow` | core/gui/src/app/workspace/service/workflow-graph/model/workflow-action.service.ts:824-828 | an empty graph with default metadata, settings kept, empty stacks, disconnected |

## Left out

- JointJS rendering and layout (`autoLayoutWorkflow`, `restoreDefaultZoomAndOffset`, the rendering context, asynchronous rendering): an external UI library; only the drawn position of each element is kept.
- The RxJS streams and subjects (`workflowChanged`, the result-panel subject with `openResultPanel`/`closeResultPanel`, the reset subject, the modification stream): event plumbing; only the metadata-change event is counted, by a ghost counter.
- The Yjs shared model, the websocket provider's network behaviour and awareness broadcasts (`updateSharedModelAwareness`): replicated-document and network internals; the provider is the `connected` flag and the undo manager is its two stacks.
- `WorkflowGraph` and `JointGraphWrapper` are not part of this model: bundle nesting is modelled by which methods record an undo entry, and the highlight primitives follow the documented single-select behaviour (a non-empty list replaces the selection).
- The read-only getters (`getTexeraGraph`, `getJointGraph`, `getCenterPoint`, `checkWorkflowModificationEnabled`, …): the fields are read directly.
- The `user` argument of `setNewSharedModel` and the configured shared-editing server: only used by the network layer.
- Floating-point coordinates and the `Infinity` start of the minimum search: points are integers and the search starts unset.
- Naming.ResizedSettings: the batch size is an integer; a fractional positive size (stored by the source as given) and the `null` and `NaN` sizes the guard rejects are not modelled.
- WorkflowActions.WorkflowActionService.SetWorkflowDataTransferBatchSize: as ResizedSettings, the size is an integer; fractional, `null` and `NaN` sizes are not modelled.
- WorkflowActions.WorkflowActionService.AddCommentBox: a comment box whose id is already in use replaces the existing one; no duplicate-id failure is modelled, since the graph's own checks are not part of this model.
- WorkflowActions.WorkflowActionService.HandleJointElementDrag: requires every highlighted element to have a drawn position, where the rendering layer would otherwise throw.
- WorkflowActions.WorkflowActionService.CalculateTopLeftOperatorPosition: requires every operator to have a drawn position, where the rendering layer would otherwise throw.
- WorkflowActions.WorkflowActionService.AddThenDeleteOperator: requires the new id to have no stored position, so that deletion restores the position map exactly.

## Findings

| source | as written | input that shows it | evidently intended | confidence | as-written member | corrected member |
|---|---|---|---|---|---|---|
| core/gui/src/app/workspace/service/workflow-graph/model/workflow-action.service.ts:246 | the probing loop compares candidate ids with `inputPorts` even when an output port is added | an operator with no input ports and output ports "output-0" and "output-2": the new output port gets "output-2" again | probe the ports of the requested direction, so the new id is unused in that direction | not executed; high | `PortIds.OutputProbeCollides` | `WorkflowActions.WorkflowActionService.AddPortIntended` |
| core/gui/src/app/workspace/service/workflow-graph/model/workflow-action.service.ts:394 | the early return on an empty graph skips `setListenJointCommand(true)` at 413 | calculateTopLeftOperatorPosition on a workflow with no operators leaves listenJointCommand false, so later drags are ignored by the group move | switch the listener back on whether or not there are operators | not executed; medium | `WorkflowActions.WorkflowActionService.CalculateTopLeftOperatorPosition` | `WorkflowActions.WorkflowActionService.CalculateTopLeftOperatorPositionIntended` |
