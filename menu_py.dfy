/** The backend menu block (telebot_constructor/user_flow/blocks/menu.py): checking a menu
    item's options, converting the configured menu tree into the menu engine's tree, and
    what selecting a terminal item does. */
module MenuPy {
  import opened Base
  import opened Localization
  import opened FlowTypes
  import PyUtils

  const NOOP_TERMINATOR: string := "noop"

  const OPTIONS_ERROR: string := "At most one of the options may be specified: submenu, next block, or link URL"

  /** How many of the item's options (submenu, next block, link) are set. */
  function OptionCount(item: MenuItem): nat
  {
    (if item.submenu.Some? then 1 else 0) + (if item.nextBlockId.Some? then 1 else 0) + (if item.linkUrl.Some? then 1 else 0)
  }

  /** `MenuItem.model_post_init`: rejects an item with more than one option set, and
      otherwise yields its noop flag. */
  function ItemPostInit(item: MenuItem): (r: Throws<bool>)
    ensures r.Raises? <==> OptionCount(item) > 1
    ensures r.Raises? ==> r.message == OPTIONS_ERROR
    ensures r.Returns? ==> (r.value <==> item.submenu.None? && item.nextBlockId.None? && item.linkUrl.None?)
  {
    var specified := OptionCount(item);
    if specified > 1 then Raises(OPTIONS_ERROR) else Returns(specified == 0)
  }

  /** A menu whose items, nested ones included, all pass `model_post_init` (the only menus
      that can be constructed). */
  predicate MenuWellFormed(m: Menu)
    decreases m, 1
  {
    forall i :: 0 <= i < |m.items| ==> ItemWellFormed(m.items[i])
  }

  predicate ItemWellFormed(item: MenuItem)
    decreases item, 0
  {
    ItemPostInit(item).Returns? && (item.submenu.Some? ==> MenuWellFormed(item.submenu.value))
  }

  datatype ComponentsMenuConfig = ComponentsMenuConfig(
    backLabel: Option<LocalizableText>, lockAfterTermination: bool, mechanism: MenuMechanism, textMarkup: TextMarkup)

  /** The menu engine's tree: a terminal item carries a terminator, the string passed back
      when it is selected. */
  datatype ComponentsMenuItem = ComponentsMenuItem(
    labelText: LocalizableText, submenu: Option<ComponentsMenu>, terminator: Option<string>, linkUrl: Option<string>)

  datatype ComponentsMenu = ComponentsMenu(text: LocalizableText, menuItems: seq<ComponentsMenuItem>, config: ComponentsMenuConfig)

  /** `to_components_menu_item`; the text preprocessing of the menu engine's input is a
      parameter. */
  function ToComponentsMenuItem(item: MenuItem, preprocess: (LocalizableText, TextMarkup) -> LocalizableText): (r: ComponentsMenuItem)
    decreases item, 0
    ensures r.labelText == item.labelText && r.linkUrl == item.linkUrl
    ensures r.submenu.Some? <==> item.submenu.Some?
    ensures OptionCount(item) == 0 ==> r.terminator == Some(NOOP_TERMINATOR)
    ensures OptionCount(item) != 0 ==> r.terminator == item.nextBlockId
  {
    ComponentsMenuItem(
      item.labelText,
      if item.submenu.None? then None else Some(ToComponentsMenu(item.submenu.value, preprocess)),
      if OptionCount(item) == 0 then Some(NOOP_TERMINATOR) else item.nextBlockId,
      item.linkUrl)
  }

  /** The items converted one by one, in order. */
  function ToComponentsItems(items: seq<MenuItem>, preprocess: (LocalizableText, TextMarkup) -> LocalizableText): (r: seq<ComponentsMenuItem>)
    decreases items, 2
    ensures |r| == |items|
    ensures forall i :: 0 <= i < |items| ==> r[i] == ToComponentsMenuItem(items[i], preprocess)
  {
    if items == [] then [] else [ToComponentsMenuItem(items[0], preprocess)] + ToComponentsItems(items[1..], preprocess)
  }

  /** `Menu.to_components_menu`. */
  function ToComponentsMenu(m: Menu, preprocess: (LocalizableText, TextMarkup) -> LocalizableText): (r: ComponentsMenu)
    decreases m, 3
    ensures r.text == preprocess(m.text, m.markup)
    ensures r.config == ComponentsMenuConfig(m.config.backLabel, m.config.lockAfterTermination, m.config.mechanism, m.markup)
    ensures |r.menuItems| == |m.items|
    ensures forall i :: 0 <= i < |m.items| ==> r.menuItems[i] == ToComponentsMenuItem(m.items[i], preprocess)
  {
    ComponentsMenu(
      preprocess(m.text, m.markup),
      ToComponentsItems(m.items, preprocess),
      ComponentsMenuConfig(m.config.backLabel, m.config.lockAfterTermination, m.config.mechanism, m.markup))
  }

  /** On a well-formed item exactly the items without a submenu or link are terminal, and
      the terminator is "noop" or the next block's id. */
  lemma TerminatorOfWellFormedItem(item: MenuItem, preprocess: (LocalizableText, TextMarkup) -> LocalizableText)
    requires ItemWellFormed(item)
    ensures ToComponentsMenuItem(item, preprocess).terminator.Some? <==> item.submenu.None? && item.linkUrl.None?
    ensures item.nextBlockId.Some? ==> ToComponentsMenuItem(item, preprocess).terminator == item.nextBlockId
    ensures item.submenu.None? && item.nextBlockId.None? && item.linkUrl.None? ==>
      ToComponentsMenuItem(item, preprocess).terminator == Some(NOOP_TERMINATOR)
  {
  }

  /** Converting keeps the shape of the tree: a submenu of the i-th item becomes the
      submenu of the i-th converted item, converted in turn. */
  lemma {:induction false} SubmenuConverted(m: Menu, i: nat, preprocess: (LocalizableText, TextMarkup) -> LocalizableText)
    requires i < |m.items| && m.items[i].submenu.Some?
    ensures ToComponentsMenu(m, preprocess).menuItems[i].submenu == Some(ToComponentsMenu(m.items[i].submenu.value, preprocess))
  {
  }

  /** `on_terminal_menu_option_selected`: the block entered when a terminal item is
      selected, if any. */
  function OnTerminalSelected(terminator: string): (r: Option<string>)
    ensures r.None? <==> terminator == NOOP_TERMINATOR
    ensures r.Some? ==> r.value == terminator
  {
    if terminator != NOOP_TERMINATOR then Some(terminator) else None
  }

  /** Selecting a terminal item of a well-formed menu enters the item's next block, and a
      noop item enters nothing. A next block whose id is literally "noop" is entered
      neither. */
  lemma SelectingTerminalItem(item: MenuItem, preprocess: (LocalizableText, TextMarkup) -> LocalizableText)
    requires ItemWellFormed(item) && item.submenu.None? && item.linkUrl.None?
    ensures ToComponentsMenuItem(item, preprocess).terminator.Some?
    ensures OnTerminalSelected(ToComponentsMenuItem(item, preprocess).terminator.value) ==
      if item.nextBlockId.Some? && item.nextBlockId.value != NOOP_TERMINATOR then item.nextBlockId else None
  {
  }

  function NextBlockOf(item: MenuItem): Option<string>
  {
    item.nextBlockId
  }

  predicate HasNextBlock(item: MenuItem)
  {
    item.nextBlockId.Some?
  }

  /** `MenuBlock.possible_next_block_ids`: the next blocks of the top-level items, in
      order; items inside submenus are not looked at. */
  function PossibleNextBlockIds(block: MenuBlock): (r: seq<string>)
    ensures forall x :: x in r <==> exists i :: 0 <= i < |block.menu.items| && block.menu.items[i].nextBlockId == Some(x)
    ensures |r| == |Filter(block.menu.items, HasNextBlock)|
    ensures forall k :: 0 <= k < |r| ==> Filter(block.menu.items, HasNextBlock)[k].nextBlockId == Some(r[k])
  {
    var ids := Map(block.menu.items, NextBlockOf);
    var r := PyUtils.WithoutNones(ids);
    forall x ensures Some(x) in ids <==> exists i :: 0 <= i < |block.menu.items| && block.menu.items[i].nextBlockId == Some(x) {
      if Some(x) in ids {
        var i :| 0 <= i < |ids| && ids[i] == Some(x);
        assert block.menu.items[i].nextBlockId == Some(x);
      }
    }
    PresentIdsInOrder(block.menu.items);
    r
  }

  /** Keeping the present next-block ids is taking the next-block id of each item that
      has one. */
  lemma {:induction false} PresentIdsInOrder(items: seq<MenuItem>)
    ensures Filter(Map(items, NextBlockOf), PyUtils.IsPresent) == Map(Filter(items, HasNextBlock), NextBlockOf)
  {
    if items != [] {
      PresentIdsInOrder(items[1..]);
      var ids := Map(items, NextBlockOf);
      assert ids == [NextBlockOf(items[0])] + Map(items[1..], NextBlockOf);
      var rest := Filter(items[1..], HasNextBlock);
      if HasNextBlock(items[0]) {
        assert Map([items[0]] + rest, NextBlockOf) == [NextBlockOf(items[0])] + Map(rest, NextBlockOf);
      }
    }
  }
}
