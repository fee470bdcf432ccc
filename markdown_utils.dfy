/** Markdown entities the text editor inserts around a selection
    (frontend/src/components/inputs/markdown_utils.ts). */
module MarkdownUtils {
  import opened Base
  import opened Strings

  /** What the editor puts before and after the selection, and what the selection
      becomes. */
  datatype MarkdownEntity = MarkdownEntity(prefix: string, suffix: string, processed: string)

  /** Every line of `text` prefixed with ">". */
  function QuoteLines(text: string): string
  {
    Join(Map(Split(text, '\n'), (line: string) => ">" + line), "\n")
  }

  /** `makeMarkdownEntity`: the entity type is given as its name; an unknown name throws. */
  function MakeMarkdownEntity(text: string, entityType: string, linkUrl: string := "url"): (r: Throws<MarkdownEntity>)
    ensures r.Raises? <==> entityType !in ["bold", "italic", "strikethrough", "link", "blockquote", "spoiler"]
    ensures r.Raises? ==> r.message == "Unexpected markdown entity type: " + entityType
    ensures entityType in ["bold", "italic", "strikethrough", "link", "spoiler"] ==> r.Returns? && r.value.processed == text
    ensures entityType in ["bold", "italic", "strikethrough", "spoiler"] ==> r.Returns? && r.value.prefix == r.value.suffix
    ensures entityType == "link" ==> r.Returns? && r.value.prefix == "[" && r.value.suffix == "](" + linkUrl + ")"
    ensures entityType == "blockquote" ==> r.Returns? && r.value.prefix == "\n" && r.value.suffix == "\n\n"
    ensures entityType == "blockquote" ==> r.Returns? && r.value.processed == QuoteLines(text)
  {
    if entityType == "bold" then Returns(MarkdownEntity("**", "**", text))
    else if entityType == "italic" then Returns(MarkdownEntity("_", "_", text))
    else if entityType == "strikethrough" then Returns(MarkdownEntity("~~", "~~", text))
    else if entityType == "link" then Returns(MarkdownEntity("[", "](" + linkUrl + ")", text))
    else if entityType == "blockquote" then Returns(MarkdownEntity("\n", "\n\n", QuoteLines(text)))
    else if entityType == "spoiler" then Returns(MarkdownEntity("||", "||", text))
    else Raises("Unexpected markdown entity type: " + entityType)
  }

  /** The markers of the symmetric entities. */
  lemma SymmetricMarkers(text: string)
    ensures MakeMarkdownEntity(text, "bold").value.prefix == "**"
    ensures MakeMarkdownEntity(text, "italic").value.prefix == "_"
    ensures MakeMarkdownEntity(text, "strikethrough").value.prefix == "~~"
    ensures MakeMarkdownEntity(text, "spoiler").value.prefix == "||"
    ensures MakeMarkdownEntity(text, "link").value.suffix == "](url)"
  {
  }

  /** A blockquote keeps the number of lines and puts ">" before each of them. */
  lemma {:induction false} BlockquoteLines(text: string)
    ensures |Split(QuoteLines(text), '\n')| == |Split(text, '\n')|
    ensures forall i :: 0 <= i < |Split(text, '\n')| ==> Split(QuoteLines(text), '\n')[i] == ">" + Split(text, '\n')[i]
  {
    var lines := Split(text, '\n');
    var quoted := Map(lines, (line: string) => ">" + line);
    SplitParts(text, '\n');
    forall i | 0 <= i < |quoted| ensures '\n' !in quoted[i] {
      assert quoted[i] == ">" + lines[i];
    }
    SplitJoin(quoted, '\n');
  }

  /** A line with its leading ">" dropped. */
  function Unquote(line: string): string
  {
    if |line| > 0 && line[0] == '>' then line[1..] else line
  }

  /** Dropping the ">" from each line of a blockquote gives the selection back. */
  lemma {:induction false} BlockquoteRoundTrip(text: string)
    ensures Join(Map(Split(QuoteLines(text), '\n'), Unquote), "\n") == text
  {
    var lines := Split(text, '\n');
    BlockquoteLines(text);
    var back := Map(Split(QuoteLines(text), '\n'), Unquote);
    assert back == lines by {
      forall i | 0 <= i < |lines| ensures back[i] == lines[i] {
        assert Unquote(">" + lines[i]) == lines[i];
      }
    }
    JoinSplit(text, '\n');
  }
}
