/** The read-only view of one flow graph (`ProgramModel`). Its fields are set once, by the
    constructor, and never change, so it is a value. */
module Program {
  import opened Wrappers
  import opened Types

  datatype ProgramModel = ProgramModel(
    id: string,
    name: Option<string>,
    nodes: map<NodeId, Node>,
    commands: seq<Command>,
    variables: seq<string>,
    startNodeID: NodeId)
  {
    function GetID(): string { id }

    function GetCommands(): seq<Command> { commands }

    function GetStartNodeID(): NodeId { startNodeID }

    function GetVariables(): seq<string> { variables }

    /** `getNode(nodeID)`: no node for a missing, empty or unknown id; otherwise a copy of the
        stored node whose `id` is the key it was looked up by. */
    function GetNode(nodeID: Option<NodeId>): (r: Option<Node>)
      ensures !Truthy(nodeID) ==> r.None?
      ensures Truthy(nodeID) && nodeID.value !in nodes ==> r.None?
      ensures Truthy(nodeID) && nodeID.value in nodes ==>
                r.Some? && r.value.id == nodeID.value && r.value == nodes[nodeID.value].(id := nodeID.value)
    {
      if !(Truthy(nodeID) && nodeID.value in nodes) then None
      else Some(nodes[nodeID.value].(id := nodeID.value))
    }
  }

  /** The constructor: `variables` and `commands` default to empty lists. */
  function NewProgram(id: string, lines: map<NodeId, Node>, variables: Option<seq<string>>,
                      commands: Option<seq<Command>>, name: Option<string>, startId: NodeId): (p: ProgramModel)
    ensures p.GetID() == id && p.GetStartNodeID() == startId && p.name == name
    ensures p.nodes == lines
    ensures p.GetVariables() == (if variables.Some? then variables.value else [])
    ensures p.GetCommands() == (if commands.Some? then commands.value else [])
  {
    ProgramModel(id, name, lines, commands.GetOr([]), variables.GetOr([]), startId)
  }

  /** A resolved node is found again under its own id, unchanged: lookups have no effect on the
      program and repeated lookups agree. */
  lemma GetNodeStable(p: ProgramModel, nodeID: Option<NodeId>)
    requires p.GetNode(nodeID).Some?
    ensures p.GetNode(Some(p.GetNode(nodeID).value.id)) == p.GetNode(nodeID)
  {
  }
}
