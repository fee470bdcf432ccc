/** How the studio labels and colours a node of the flow graph
    (frontend/src/studio/nodes/display.ts). */
module Display {
  import opened Base
  import opened FlowTypes
  import TypeUtils

  datatype NodeTypeKey =
    | CommandKey
    | ContentKey
    | HumanOperatorKey
    | LanguageSelectKey
    | MenuKey
    | FormKey
    | InfoKey

  /** A node of the graph shows either an entrypoint or a block. */
  datatype NodeConfig = EntryPointNode(entryPoint: EntryPointConfig) | BlockNode(block: BlockConfig)

  /** `getNodeTypeKey`: the kind of a node. An entrypoint is a command node when its
      command is set and has no kind otherwise (catch-all and regex entrypoints); a block
      takes the first variant set in the order content, human operator, language
      selection, menu, form. The info kind is never produced. */
  function GetNodeTypeKey(config: NodeConfig): (r: Option<NodeTypeKey>)
    ensures r != Some(InfoKey)
    ensures config.EntryPointNode? ==> (r == Some(CommandKey) <==> config.entryPoint.command.Some?)
    ensures config.EntryPointNode? ==> (r.None? <==> config.entryPoint.command.None?)
    ensures config.BlockNode? ==> r != Some(CommandKey)
    ensures config.BlockNode? ==> (r.None? <==> TypeUtils.NoBlockVariant(config.block))
    ensures config.BlockNode? && config.block.content.Some? ==> r == Some(ContentKey)
    ensures config.BlockNode? && config.block.content.None? && config.block.humanOperator.Some? ==> r == Some(HumanOperatorKey)
    ensures (config.BlockNode? && config.block.content.None? && config.block.humanOperator.None?
             && config.block.languageSelect.Some?) ==> r == Some(LanguageSelectKey)
    ensures (config.BlockNode? && config.block.content.None? && config.block.humanOperator.None?
             && config.block.languageSelect.None? && config.block.menu.Some?) ==> r == Some(MenuKey)
    ensures (config.BlockNode? && config.block.content.None? && config.block.humanOperator.None?
             && config.block.languageSelect.None? && config.block.menu.None? && config.block.form.Some?) ==> r == Some(FormKey)
  {
    match config
    case EntryPointNode(e) =>
      if e.command.Some? then Some(CommandKey) else None
    case BlockNode(b) =>
      if b.content.Some? then Some(ContentKey)
      else if b.humanOperator.Some? then Some(HumanOperatorKey)
      else if b.languageSelect.Some? then Some(LanguageSelectKey)
      else if b.menu.Some? then Some(MenuKey)
      else if b.form.Some? then Some(FormKey)
      else None
  }

  /** The kind key matching a block variant. */
  function VariantKey(b: TypeUtils.ConcreteBlock): NodeTypeKey
  {
    match b
    case ContentVariant(_) => ContentKey
    case HumanOperatorVariant(_) => HumanOperatorKey
    case MenuVariant(_) => MenuKey
    case FormVariant(_) => FormKey
    case LanguageSelectVariant(_) => LanguageSelectKey
  }

  /** Exactly one variant of the block is set. */
  predicate SingleVariant(b: BlockConfig)
  {
    (if b.content.Some? then 1 else 0) + (if b.humanOperator.Some? then 1 else 0) + (if b.menu.Some? then 1 else 0)
    + (if b.form.Some? then 1 else 0) + (if b.languageSelect.Some? then 1 else 0) == 1
  }

  /** The node kind and the block getter check the variants in different orders
      (language selection before menu here, after form there); on a well-formed block,
      where exactly one variant is set, they agree. */
  lemma NodeKeyAgreesWithConcreteConfig(b: BlockConfig)
    requires SingleVariant(b)
    ensures TypeUtils.GetBlockConcreteConfig(b).Some?
    ensures GetNodeTypeKey(BlockNode(b)) == Some(VariantKey(TypeUtils.GetBlockConcreteConfig(b).value))
  {
  }

  /** `headerColor`: the CSS colour of a node's header for a hue, given as the decimal
      text of the number. */
  function HeaderColor(hue: string): (r: string)
    ensures |r| == |hue| + 15
    ensures r[..4] == "hsl(" && r[|r| - 11..] == ", 85%, 70%)"
    ensures r[4..|r| - 11] == hue
  {
    "hsl(" + hue + ", 85%, 70%)"
  }

  /** Distinct hues give distinct colours. */
  lemma HeaderColorInjective(a: string, b: string)
    requires HeaderColor(a) == HeaderColor(b)
    ensures a == b
  {
    assert a == HeaderColor(a)[4..|HeaderColor(a)| - 11];
  }
}
