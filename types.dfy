/**
 * Value types of the workflow graph: operators with their ports, links between
 * ports, comment boxes, workflow metadata and settings, and the persisted
 * workflow snapshot. Also the errors the workflow actions raise.
 */
module Types {

  datatype Option<T> = None | Some(value: T) {
    function GetOr(default: T): T {
      if Some? then value else default
    }
  }

  /** A position on the canvas. Coordinates are integers in this model. */
  datatype Point = Point(x: int, y: int)

  /** An operator's (or port's) property bag, opaque to the workflow actions. */
  type Property = map<string, string>

  datatype PortDescription = PortDescription(
    portID: string,
    displayName: string,
    allowMultiInputs: Option<bool>,
    isDynamicPort: bool,
    dependencies: seq<string>)

  datatype Operator = Operator(
    operatorID: string,
    operatorType: string,
    operatorVersion: string,
    operatorProperties: Property,
    inputPorts: seq<PortDescription>,
    outputPorts: seq<PortDescription>,
    dynamicInputPorts: bool,
    dynamicOutputPorts: bool,
    isDisabled: bool,
    markedForReuse: bool,
    viewResult: bool)

  /** One end of a link: an operator and one of its ports. */
  datatype LogicalPort = LogicalPort(operatorID: string, portID: string)

  datatype OperatorLink = OperatorLink(linkID: string, source: LogicalPort, target: LogicalPort)

  /** A comment is identified inside its box by (creatorID, creationTime). */
  datatype Comment = Comment(content: string, creationTime: string, creatorName: string, creatorID: int)

  datatype CommentBox = CommentBox(commentBoxID: string, comments: seq<Comment>, commentBoxPosition: Point)

  datatype WorkflowSettings = WorkflowSettings(dataTransferBatchSize: int)

  datatype WorkflowMetadata = WorkflowMetadata(
    name: string,
    description: Option<string>,
    wid: int,
    creationTime: Option<int>,
    lastModifiedTime: Option<int>,
    isPublished: int,
    readonly: bool)

  datatype OperatorAndPosition = OperatorAndPosition(op: Operator, pos: Point)

  /** The persisted shape of a workflow's graph. */
  datatype WorkflowContent = WorkflowContent(
    operators: seq<Operator>,
    operatorPositions: map<string, Point>,
    links: seq<OperatorLink>,
    commentBoxes: seq<CommentBox>,
    settings: Option<WorkflowSettings>)

  datatype Workflow = Workflow(metadata: WorkflowMetadata, content: WorkflowContent)

  /** The operator flags that the batch flag actions switch. */
  datatype OperatorFlag = Disabled | ReuseResult | ViewResult

  datatype Error =
    | OperatorNotFound(operatorID: string)
    | OperatorAlreadyExists(operatorID: string)
    | UnknownOperatorType(operatorType: string)
    | PortCapabilityViolation(operatorID: string)
    | InvalidPortOption
    | PortNotFound(port: LogicalPort)
    | NoPortToRemove(operatorID: string)
    | LinkAlreadyExists(linkID: string)
    | LinkInvalid(linkID: string)
    | LinkNotFound
    | CommentBoxNotFound(commentBoxID: string)
    | CommentNotFound(commentBoxID: string)
    | MissingPosition(operatorID: string)

  /** What an action reports: it went through, or it threw the given error. */
  datatype Outcome = Pass | Fail(error: Error)

  const DefaultWorkflowName: string := "Untitled Workflow"

  /** The metadata of a fresh, unsaved workflow. */
  const DefaultWorkflow: WorkflowMetadata :=
    WorkflowMetadata(DefaultWorkflowName, None, 0, None, None, 0, false)
}
