/** Accessors over the tagged-union configuration records (frontend/src/api/typeUtils.ts). */
module TypeUtils {
  import opened Base
  import opened FlowTypes
  import opened BotEvents

  /** `e.timestamp || 0`: a missing timestamp reads as 0. */
  function BotEventTimestamp(e: BotEvent): (t: int)
    ensures e.timestamp.Some? ==> t == e.timestamp.value
    ensures e.timestamp.None? ==> t == 0
  {
    if e.timestamp.Some? && e.timestamp.value != 0 then e.timestamp.value else 0
  }

  /** The variant of a block that is set. */
  datatype ConcreteBlock =
    | ContentVariant(content: ContentBlock)
    | HumanOperatorVariant(humanOperator: HumanOperatorBlock)
    | MenuVariant(menu: MenuBlock)
    | FormVariant(form: FormBlock)
    | LanguageSelectVariant(languageSelect: LanguageSelectBlock)
  {
    function BlockId(): string
    {
      match this
      case ContentVariant(b) => b.blockId
      case HumanOperatorVariant(b) => b.blockId
      case MenuVariant(b) => b.blockId
      case FormVariant(b) => b.blockId
      case LanguageSelectVariant(b) => b.blockId
    }
  }

  predicate NoBlockVariant(c: BlockConfig)
  {
    c.content.None? && c.humanOperator.None? && c.menu.None? && c.form.None? && c.languageSelect.None?
  }

  /** The first variant set, in the order content, human operator, menu, form,
      language selection. */
  function GetBlockConcreteConfig(c: BlockConfig): (r: Option<ConcreteBlock>)
    ensures r.None? <==> NoBlockVariant(c)
    ensures c.content.Some? ==> r == Some(ContentVariant(c.content.value))
    ensures c.content.None? && c.humanOperator.Some? ==> r == Some(HumanOperatorVariant(c.humanOperator.value))
    ensures c.content.None? && c.humanOperator.None? && c.menu.Some? ==> r == Some(MenuVariant(c.menu.value))
    ensures c.content.None? && c.humanOperator.None? && c.menu.None? && c.form.Some? ==> r == Some(FormVariant(c.form.value))
    ensures c.content.None? && c.humanOperator.None? && c.menu.None? && c.form.None? && c.languageSelect.Some? ==>
      r == Some(LanguageSelectVariant(c.languageSelect.value))
  {
    if c.content.Some? then Some(ContentVariant(c.content.value))
    else if c.humanOperator.Some? then Some(HumanOperatorVariant(c.humanOperator.value))
    else if c.menu.Some? then Some(MenuVariant(c.menu.value))
    else if c.form.Some? then Some(FormVariant(c.form.value))
    else if c.languageSelect.Some? then Some(LanguageSelectVariant(c.languageSelect.value))
    else None
  }

  /** The block id of the variant set; a record with no variant throws. */
  function GetBlockId(c: BlockConfig): (r: Throws<string>)
    ensures r.Raises? <==> NoBlockVariant(c)
    ensures r.Returns? ==> r.value == GetBlockConcreteConfig(c).value.BlockId()
    ensures r.Raises? ==> r.message == "getBlockId got unexpected config variant: [object Object]"
  {
    match GetBlockConcreteConfig(c)
    case Some(b) => Returns(b.BlockId())
    case None => Raises("getBlockId got unexpected config variant: [object Object]")
  }

  datatype ConcreteEntryPoint =
    | CommandVariant(command: CommandEntryPoint)
    | CatchAllVariant(catchAll: CatchAllEntryPoint)
    | RegexVariant(regex: RegexEntryPoint)
  {
    function EntrypointId(): string
    {
      match this
      case CommandVariant(e) => e.entrypointId
      case CatchAllVariant(e) => e.entrypointId
      case RegexVariant(e) => e.entrypointId
    }
  }

  /** The first variant set, in the order command, catch-all, regex. */
  function GetEntrypointConcreteConfig(c: EntryPointConfig): (r: Option<ConcreteEntryPoint>)
    ensures r.None? <==> c.command.None? && c.catchAll.None? && c.regex.None?
    ensures c.command.Some? ==> r == Some(CommandVariant(c.command.value))
    ensures c.command.None? && c.catchAll.Some? ==> r == Some(CatchAllVariant(c.catchAll.value))
    ensures c.command.None? && c.catchAll.None? && c.regex.Some? ==> r == Some(RegexVariant(c.regex.value))
  {
    if c.command.Some? then Some(CommandVariant(c.command.value))
    else if c.catchAll.Some? then Some(CatchAllVariant(c.catchAll.value))
    else if c.regex.Some? then Some(RegexVariant(c.regex.value))
    else None
  }

  function GetEntrypointId(c: EntryPointConfig): (r: Throws<string>)
    ensures r.Raises? <==> c.command.None? && c.catchAll.None? && c.regex.None?
    ensures r.Returns? ==> r.value == GetEntrypointConcreteConfig(c).value.EntrypointId()
    ensures r.Raises? ==> r.message == "getEntrypointId got unexpected config variant: [object Object]"
  {
    match GetEntrypointConcreteConfig(c)
    case Some(e) => Returns(e.EntrypointId())
    case None => Raises("getEntrypointId got unexpected config variant: [object Object]")
  }

  /** The fields of a form in pre-order: a member that is a field contributes it (even if
      a branch is also set), a branch member contributes the fields of its members. */
  function FormFields(members: seq<FormMember>): seq<FormFieldConfig>
    decreases members, 1
  {
    if members == [] then [] else MemberFields(members[0]) + FormFields(members[1..])
  }

  function MemberFields(m: FormMember): seq<FormFieldConfig>
    decreases m, 0
  {
    if m.field.Some? then [m.field.value]
    else if m.branch.Some? then FormFields(m.branch.value.members)
    else []
  }

  lemma {:induction false} FormFieldsAppend(xs: seq<FormMember>, ys: seq<FormMember>)
    ensures FormFields(xs + ys) == FormFields(xs) + FormFields(ys)
  {
    if xs == [] {
      assert xs + ys == ys;
    } else {
      assert (xs + ys)[0] == xs[0] && (xs + ys)[1..] == xs[1..] + ys;
      FormFieldsAppend(xs[1..], ys);
    }
  }

  method FlattenedFormFields(members: seq<FormMember>) returns (fields: seq<FormFieldConfig>)
    ensures fields == FormFields(members)
    decreases MembersSize(members)
  {
    fields := [];
    for i := 0 to |members|
      invariant fields == FormFields(members[..i])
    {
      var m := members[i];
      if m.field.Some? {
        fields := fields + [m.field.value];
      } else if m.branch.Some? {
        NestedMembersSmaller(members, i);
        var nested := FlattenedFormFields(m.branch.value.members);
        fields := fields + nested;
      }
      assert members[..i + 1] == members[..i] + [m];
      FormFieldsAppend(members[..i], [m]);
    }
    assert members[..|members|] == members;
  }

  /** The branches of a form in pre-order: each branch comes right before the branches
      nested in it. */
  function FormBranches(members: seq<FormMember>): seq<FormBranch>
    decreases members, 1
  {
    if members == [] then [] else MemberBranches(members[0]) + FormBranches(members[1..])
  }

  function MemberBranches(m: FormMember): seq<FormBranch>
    decreases m, 0
  {
    if m.branch.Some? then [m.branch.value] + FormBranches(m.branch.value.members) else []
  }

  /** Number of members in a form tree, nested ones included: a termination measure for
      the loops that recurse into branches. */
  ghost function MembersSize(members: seq<FormMember>): nat
    decreases members, 1
  {
    if members == [] then 0 else MemberSize(members[0]) + MembersSize(members[1..])
  }

  ghost function MemberSize(m: FormMember): nat
    decreases m, 0
  {
    1 + if m.branch.Some? then MembersSize(m.branch.value.members) else 0
  }

  lemma {:induction false} NestedMembersSmaller(members: seq<FormMember>, i: nat)
    requires i < |members| && members[i].branch.Some?
    ensures MembersSize(members[i].branch.value.members) < MembersSize(members)
  {
    if i > 0 { NestedMembersSmaller(members[1..], i - 1); }
  }

  lemma {:induction false} FormBranchesAppend(xs: seq<FormMember>, ys: seq<FormMember>)
    ensures FormBranches(xs + ys) == FormBranches(xs) + FormBranches(ys)
  {
    if xs == [] {
      assert xs + ys == ys;
    } else {
      assert (xs + ys)[0] == xs[0] && (xs + ys)[1..] == xs[1..] + ys;
      FormBranchesAppend(xs[1..], ys);
    }
  }

  method FlattenedFormBranches(members: seq<FormMember>) returns (branches: seq<FormBranch>)
    ensures branches == FormBranches(members)
    decreases MembersSize(members)
  {
    branches := [];
    for i := 0 to |members|
      invariant branches == FormBranches(members[..i])
    {
      var m := members[i];
      if m.branch.Some? {
        branches := branches + [m.branch.value];
        NestedMembersSmaller(members, i);
        var nested := FlattenedFormBranches(m.branch.value.members);
        branches := branches + nested;
      }
      assert members[..i + 1] == members[..i] + [m];
      FormBranchesAppend(members[..i], [m]);
    }
    assert members[..|members|] == members;
  }
}
