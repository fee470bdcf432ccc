/** Flow templates and their insertion into the configuration being edited
    (frontend/src/studio/templates.ts). The configuration and the template are objects
    the studio updates in place. */
module Templates {
  import opened Base
  import opened Localization
  import opened FlowTypes
  import TypeUtils

  /** The configuration of a bot's user flow, as edited in the studio. */
  class FlowConfig {
    var entrypoints: seq<EntryPointConfig>
    var blocks: seq<BlockConfig>
    var nodeDisplayCoords: NodeDisplayCoords

    constructor (entrypoints: seq<EntryPointConfig>, blocks: seq<BlockConfig>, nodeDisplayCoords: NodeDisplayCoords)
      ensures this.entrypoints == entrypoints && this.blocks == blocks && this.nodeDisplayCoords == nodeDisplayCoords
    {
      this.entrypoints := entrypoints;
      this.blocks := blocks;
      this.nodeDisplayCoords := nodeDisplayCoords;
    }
  }

  /** A ready-made piece of flow: its own configuration, the block a start command
      should lead to, and the command to add when the bot's start command is taken. */
  class Template {
    const config: FlowConfig
    const entryBlockId: string
    var customStartCmd: CommandEntryPoint

    constructor (config: FlowConfig, entryBlockId: string, customStartCmd: CommandEntryPoint)
      ensures this.config == config && this.entryBlockId == entryBlockId && this.customStartCmd == customStartCmd
    {
      this.config := config;
      this.entryBlockId := entryBlockId;
      this.customStartCmd := customStartCmd;
    }
  }

  /** The template with a single content block holding one markdown text. The two node
      ids are generated at random by the studio and are given here. */
  method ContentOnlyTemplate(contentBlockId: string, startCommandId: string, exampleText: string) returns (t: Template)
    ensures fresh(t) && fresh(t.config)
    ensures t.config.entrypoints == []
    ensures t.config.blocks == [BlockConfig(
      Some(ContentBlock(contentBlockId, [Content(Some(ContentText(Plain(exampleText), Markdown)), [])], None)),
      None, None, None, None)]
    ensures t.config.nodeDisplayCoords == map[contentBlockId := Position(0, 130)]
    ensures TypeUtils.GetBlockId(t.config.blocks[0]) == Returns(t.entryBlockId)
    ensures t.entryBlockId in t.config.nodeDisplayCoords
    ensures t.customStartCmd == CommandEntryPoint(startCommandId, "content", None, Some("private"), None)
  {
    var content := Content(Some(ContentText(Plain(exampleText), Markdown)), []);
    var block := BlockConfig(Some(ContentBlock(contentBlockId, [content], None)), None, None, None, None);
    var config := new FlowConfig([], [block], map[]);
    config.nodeDisplayCoords := config.nodeDisplayCoords[contentBlockId := Position(0, 130)];
    t := new Template(config, contentBlockId, CommandEntryPoint(startCommandId, "content", None, Some("private"), None));
  }

  datatype BoundingBox = BoundingBox(xMin: int, xMax: int, yMin: int, yMax: int)

  const NODE_WIDTH: int := 250
  const NODE_HEIGHT: int := 200
  const X_MARGIN: int := 30

  function Max(a: int, b: int): int { if a >= b then a else b }

  predicate OverlapInY(existing: BoundingBox, template: BoundingBox)
  {
    !(existing.yMax < template.yMin || existing.yMin > template.yMax)
  }

  /** The horizontal shift for a template placed next to existing nodes: none when the
      boxes do not share a y range; otherwise the smaller of the two moves (right of the
      existing box, or left of it) that leaves a margin of 30 between the boxes. */
  function XOffset(existing: BoundingBox, template: BoundingBox): (off: int)
    ensures !OverlapInY(existing, template) ==> off == 0
    ensures OverlapInY(existing, template) ==>
      template.xMin + off >= existing.xMax + X_MARGIN || template.xMax + off <= existing.xMin - X_MARGIN
    ensures OverlapInY(existing, template) && off > 0 ==>
      off == Max(existing.xMax - template.xMin, 0) + X_MARGIN && Max(existing.xMax - template.xMin, 0) < Max(template.xMax - existing.xMin, 0)
    ensures OverlapInY(existing, template) && off < 0 ==>
      off == -Max(template.xMax - existing.xMin, 0) - X_MARGIN && Max(template.xMax - existing.xMin, 0) <= Max(existing.xMax - template.xMin, 0)
  {
    if OverlapInY(existing, template) then
      var xDeltaRight := Max(existing.xMax - template.xMin, 0);
      var xDeltaLeft := Max(template.xMax - existing.xMin, 0);
      if xDeltaRight < xDeltaLeft then xDeltaRight + X_MARGIN else -xDeltaLeft - X_MARGIN
    else
      0
  }

  /** Every node moved by `off` along x; y is kept. */
  function Shifted(coords: NodeDisplayCoords, off: int): (r: NodeDisplayCoords)
    ensures r.Keys == coords.Keys
    ensures forall k :: k in coords ==> r[k].y == coords[k].y && r[k].x - coords[k].x == off
  {
    map k | k in coords :: Position(coords[k].x + off, coords[k].y)
  }

  predicate IsStartCommand(ep: EntryPointConfig, startCommandId: string)
  {
    ep.command.Some? && ep.command.value.entrypointId == startCommandId
  }

  /** Index of the first entrypoint that is the command with the given id. */
  function FindStartCommand(eps: seq<EntryPointConfig>, startCommandId: string): (r: Option<nat>)
    ensures r.Some? ==> r.value < |eps| && IsStartCommand(eps[r.value], startCommandId)
    ensures r.Some? ==> forall j :: 0 <= j < r.value ==> !IsStartCommand(eps[j], startCommandId)
    ensures r.None? ==> forall j :: 0 <= j < |eps| ==> !IsStartCommand(eps[j], startCommandId)
  {
    if eps == [] then None
    else if IsStartCommand(eps[0], startCommandId) then Some(0)
    else match FindStartCommand(eps[1..], startCommandId)
      case None => None
      case Some(k) => Some(k + 1)
  }

  function WithNextBlock(ep: EntryPointConfig, nextBlockId: string): EntryPointConfig
    requires ep.command.Some?
  {
    ep.(command := Some(ep.command.value.(nextBlockId := Some(nextBlockId))))
  }

  /** `applyTemplate`: appends the template's entrypoints and blocks to the
      configuration. If the bot's start command leads nowhere, it is pointed at the
      template's entry block and the template's coordinates are copied as they are.
      Otherwise the template's own start command is pointed at the entry block, placed
      at the origin of the template and added, and the template's nodes are shifted
      along x so that they do not overlap the existing ones. Without a start command it
      throws and changes nothing. `boundingBox` (node coordinates, node width and
      height to a box) is given. */
  method ApplyTemplate(
    config: FlowConfig,
    template: Template,
    startCommandId: string,
    boundingBox: (NodeDisplayCoords, int, int) -> BoundingBox)
    returns (r: Throws<FlowConfig>)
    requires template.config != config
    modifies config, template, template.config
    ensures template.config.entrypoints == old(template.config.entrypoints)
    ensures template.config.blocks == old(template.config.blocks)
    ensures FindStartCommand(old(config.entrypoints), startCommandId).None? ==>
      r == Raises("Start command not found in the config!")
      && unchanged(config) && unchanged(template) && unchanged(template.config)
    ensures FindStartCommand(old(config.entrypoints), startCommandId).Some? ==>
      var i := FindStartCommand(old(config.entrypoints), startCommandId).value;
      r == Returns(config)
      && config.blocks == old(config.blocks) + old(template.config.blocks)
      && (old(config.entrypoints[i].command.value.nextBlockId).None? ==>
            config.entrypoints == old(config.entrypoints)[i := WithNextBlock(old(config.entrypoints[i]), template.entryBlockId)]
                                  + old(template.config.entrypoints)
            && config.nodeDisplayCoords == old(config.nodeDisplayCoords) + old(template.config.nodeDisplayCoords)
            && template.customStartCmd == old(template.customStartCmd)
            && template.config.nodeDisplayCoords == old(template.config.nodeDisplayCoords))
      && (old(config.entrypoints[i].command.value.nextBlockId).Some? ==>
            template.customStartCmd == old(template.customStartCmd).(nextBlockId := Some(template.entryBlockId))
            && template.config.nodeDisplayCoords == old(template.config.nodeDisplayCoords)[template.customStartCmd.entrypointId := Position(0, 0)]
            && config.entrypoints == old(config.entrypoints) + old(template.config.entrypoints)
                                     + [EntryPointConfig(Some(template.customStartCmd), None, None)]
            && config.nodeDisplayCoords == old(config.nodeDisplayCoords) + Shifted(template.config.nodeDisplayCoords,
                 XOffset(boundingBox(old(config.nodeDisplayCoords), NODE_WIDTH, NODE_HEIGHT),
                         boundingBox(template.config.nodeDisplayCoords, NODE_WIDTH, NODE_HEIGHT))))
  {
    var found := FindStartCommand(config.entrypoints, startCommandId);
    if found.None? {
      return Raises("Start command not found in the config!");
    }
    var i := found.value;
    var startCommand := config.entrypoints[i].command.value;
    config.entrypoints := config.entrypoints + template.config.entrypoints;
    config.blocks := config.blocks + template.config.blocks;
    if startCommand.nextBlockId.None? {
      config.entrypoints := config.entrypoints[i := WithNextBlock(config.entrypoints[i], template.entryBlockId)];
      config.nodeDisplayCoords := config.nodeDisplayCoords + template.config.nodeDisplayCoords;
    } else {
      template.customStartCmd := template.customStartCmd.(nextBlockId := Some(template.entryBlockId));
      template.config.nodeDisplayCoords := template.config.nodeDisplayCoords[template.customStartCmd.entrypointId := Position(0, 0)];
      config.entrypoints := config.entrypoints + [EntryPointConfig(Some(template.customStartCmd), None, None)];
      var existingBbox := boundingBox(config.nodeDisplayCoords, NODE_WIDTH, NODE_HEIGHT);
      var templateBbox := boundingBox(template.config.nodeDisplayCoords, NODE_WIDTH, NODE_HEIGHT);
      var xOffset := XOffset(existingBbox, templateBbox);
      config.nodeDisplayCoords := config.nodeDisplayCoords + Shifted(template.config.nodeDisplayCoords, xOffset);
    }
    return Returns(config);
  }

  /** After a template is applied, an existing node keeps its position unless the
      template has a node with the same id, and every template node ends up at its
      template position moved by the same x offset. */
  lemma {:induction false} MergedCoordinates(existing: NodeDisplayCoords, template: NodeDisplayCoords, off: int, k: string)
    requires k in existing || k in template
    ensures k !in template ==> (existing + Shifted(template, off))[k] == existing[k]
    ensures k in template ==> (existing + Shifted(template, off))[k] == Position(template[k].x + off, template[k].y)
  {
  }
}
