/** The configuration-level logic of the backend content block
    (telebot_constructor/user_flow/blocks/content.py). Sending the contents is I/O and is
    not modelled; what entering the block leads to is. */
module ContentPy {
  import opened Base
  import opened Localization
  import opened FlowTypes
  import PyUtils

  /** `ContentTextMarkup.as_parse_mode`: the Telegram parse mode of a markup. */
  function AsParseMode(markup: TextMarkup): (r: Option<string>)
    ensures r.None? <==> markup.NoMarkup?
    ensures markup.Html? ==> r == Some("HTML")
    ensures markup.Markdown? ==> r == Some("MarkdownV2")
  {
    match markup
    case NoMarkup => None
    case Html => Some("HTML")
    case Markdown => Some("MarkdownV2")
  }

  /** Distinct markups are sent with distinct parse modes. */
  lemma ParseModeInjective(a: TextMarkup, b: TextMarkup)
    requires AsParseMode(a) == AsParseMode(b)
    ensures a == b
  {
  }

  /** `ContentBlock.possible_next_block_ids`. */
  function PossibleNextBlockIds(block: ContentBlock): (r: seq<string>)
    ensures |r| <= 1
    ensures forall x :: x in r <==> block.nextBlockId == Some(x)
  {
    PyUtils.WithoutNones([block.nextBlockId])
  }

  /** `ContentBlock.simple_text`: a block with a single content, the given text without
      markup and no attachments. */
  function SimpleText(blockId: string, messageText: LocalizableText, nextBlockId: Option<string>): (r: ContentBlock)
    ensures r.blockId == blockId && r.nextBlockId == nextBlockId
    ensures |r.contents| == 1 && r.contents[0].attachments == []
    ensures r.contents[0].text == Some(ContentText(messageText, NoMarkup))
  {
    ContentBlock(blockId, [Content(Some(ContentText(messageText, NoMarkup)), [])], nextBlockId)
  }

  /** The block that entering a content block leads to once its contents are sent. */
  function EnteredNext(block: ContentBlock): (r: Option<string>)
  {
    if block.nextBlockId.Some? then Some(block.nextBlockId.value) else None
  }

  /** Entering a content block moves on exactly to the block it declares as possible, and
      stays put when it declares none. */
  lemma EnterMatchesPossibleNext(block: ContentBlock)
    ensures EnteredNext(block).None? <==> PossibleNextBlockIds(block) == []
    ensures EnteredNext(block).Some? ==> PossibleNextBlockIds(block) == [EnteredNext(block).value]
  {
    var r := PossibleNextBlockIds(block);
    if block.nextBlockId.Some? {
      assert block.nextBlockId.value in r;
      assert |r| == 1;
    }
  }

  /** As written, a content with two or more attachments, one of them an image, reaches
      `media_group.append(InputMediaPhoto(...), **common_kwargs)` (lines 147-150, or
      156-159 when the image is not cached yet); `list.append` takes no keyword arguments,
      so sending that content raises `TypeError`. */
  predicate SendRaisesAsWritten(content: Content)
  {
    |content.attachments| >= 2 && exists a :: a in content.attachments && a.image.Some?
  }

  const APPEND_KEYWORDS_ERROR := "list.append() takes no keyword arguments"

  /** The loop over the contents as written: the first content whose sending raises ends
      it with that error. */
  function SendContentsAsWritten(contents: seq<Content>): (r: Option<string>)
    ensures r.Some? <==> exists k :: 0 <= k < |contents| && SendRaisesAsWritten(contents[k])
    ensures r.Some? ==> r.value == APPEND_KEYWORDS_ERROR
  {
    if contents == [] then None
    else if SendRaisesAsWritten(contents[0]) then Some(APPEND_KEYWORDS_ERROR)
    else
      var r := SendContentsAsWritten(contents[1..]);
      assert forall k :: 1 <= k < |contents| ==> contents[k] == contents[1..][k - 1];
      r
  }

  /** `enter` as written: it raises exactly when some content has several attachments
      with an image among them; otherwise it moves on as `EnteredNext` says. */
  function EnterAsWritten(block: ContentBlock): (r: Throws<Option<string>>)
    ensures r.Raises? <==> exists k :: 0 <= k < |block.contents| && SendRaisesAsWritten(block.contents[k])
    ensures r.Returns? ==> r.value == EnteredNext(block)
  {
    match SendContentsAsWritten(block.contents)
    case Some(e) => Raises(e)
    case None => Returns(EnteredNext(block))
  }

  /** As written, a block whose one content holds two images never moves on to the next
      block it declares. */
  lemma TwoImagesNeverMoveOn(blockId: string, next: string, image1: string, image2: string)
    ensures var block := ContentBlock(blockId, [Content(None, [ContentAttachment(Some(image1)), ContentAttachment(Some(image2))])], Some(next));
      PossibleNextBlockIds(block) == [next] && EnterAsWritten(block) == Raises(APPEND_KEYWORDS_ERROR)
  {
    var content := Content(None, [ContentAttachment(Some(image1)), ContentAttachment(Some(image2))]);
    assert content.attachments[0] in content.attachments;
    var block := ContentBlock(blockId, [content], Some(next));
    EnterMatchesPossibleNext(block);
    assert block.contents[0] == content;
  }
}
