/** The tooltip body built from a markdown description: one stacked, padded container
    whose children are the converter's paragraphs, optionally followed by a wrapped
    container holding a link to the online reference. */
module ContainerElementHelper {
  import opened Text
  import opened Outcomes
  import opened Adornments
  import opened MarkdownConverter

  /** The style of the outer container, in both overloads. */
  const RichStyle: set<Flag> := {Stacked, VerticalPadding}

  /** The link block's hyperlink. Opening the url in a browser is its click action, which
      is not modelled. */
  function CreateHyperlink(url: string): Node {
    Hyperlink("HTMX Reference", "Click here to see more details in official documentation", url)
  }

  /** The block that the two-argument overload appends after the paragraphs. */
  function LinkBlock(url: string): Node {
    Container({Wrapped}, [CreateHyperlink(url)])
  }

  /** The paragraph containers, in order. */
  function Containers(blocks: seq<Block>): (cs: seq<Node>)
    ensures |cs| == |blocks|
    ensures forall i :: 0 <= i < |blocks| ==> cs[i] == BlockContainer(blocks[i])
  {
    seq(|blocks|, i requires 0 <= i < |blocks| => BlockContainer(blocks[i]))
  }

  /** `CreateRichContent(description)`. */
  function RichContent(description: string): (r: Outcome<Node>)
    ensures r.Returns? <==> Converted(description).Returns?
    ensures r.Diverges? <==> Converted(description).Diverges?
    ensures r.Returns? ==> r.value.Container? && r.value.style == RichStyle
    ensures r.Returns? ==> |r.value.children| == |Converted(description).value|
    ensures r.Returns? ==> r.value.children == Containers(Converted(description).value)
  {
    match Converted(description)
    case Returns(blocks) => Returns(Container(RichStyle, Containers(blocks)))
    case Throws(e) => Throws(e)
    case Diverges => Diverges
  }

  /** `CreateRichContent(description, link)`: the same paragraphs followed by exactly one
      wrapped container that holds the "HTMX Reference" hyperlink to `link`. */
  function RichContentWithLink(description: string, link: string): (r: Outcome<Node>)
    ensures r.Returns? <==> RichContent(description).Returns?
    ensures r.Diverges? <==> RichContent(description).Diverges?
    ensures r.Returns? ==> r.value.Container? && r.value.style == RichStyle
    ensures r.Returns? ==> r.value.children == RichContent(description).value.children + [LinkBlock(link)]
  {
    match Converted(description)
    case Returns(blocks) => Returns(Container(RichStyle, Containers(blocks) + [LinkBlock(link)]))
    case Throws(e) => Throws(e)
    case Diverges => Diverges
  }

  /** Every child of the plain overload is a stacked paragraph of text elements, never an
      empty one, so the link block is the only wrapped child of the other overload and the
      only one that holds no text. */
  lemma ParagraphChildren(description: string)
    ensures RichContent(description).Returns? ==>
      forall i :: 0 <= i < |RichContent(description).value.children| ==>
        var c := RichContent(description).value.children[i];
        c.Container? && c.style == {Stacked} && c.children != [] &&
        forall j :: 0 <= j < |c.children| ==> c.children[j].TextElement?
  {
    BlocksNonEmpty(Split(description, '\n'), 0, []);
  }

  /** The link block is the last child, and no paragraph child looks like it. */
  lemma LinkIsLastAndOnlyWrappedChild(description: string, link: string)
    ensures RichContentWithLink(description, link).Returns? ==>
      var cs := RichContentWithLink(description, link).value.children;
      |cs| >= 1 && cs[|cs| - 1] == LinkBlock(link) &&
      forall i :: 0 <= i < |cs| - 1 ==> cs[i].Container? && Wrapped !in cs[i].style
  {
    ParagraphChildren(description);
    if RichContentWithLink(description, link).Returns? {
      LinkAfterParagraphs(RichContent(description).value.children, RichContentWithLink(description, link).value.children, link);
    }
  }

  /** The appended block is a wrapped container holding one hyperlink, captioned
      "HTMX Reference", whose target is the link. */
  lemma LinkBlockHoldsReference(description: string, link: string)
    ensures RichContentWithLink(description, link).Returns? ==>
      var cs := RichContentWithLink(description, link).value.children;
      var block := cs[|cs| - 1];
      && block.Container? && block.style == {Wrapped} && |block.children| == 1
      && block.children[0].Hyperlink?
      && block.children[0].text == "HTMX Reference" && block.children[0].url == link
  {
  }

  lemma LinkAfterParagraphs(ps: seq<Node>, cs: seq<Node>, link: string)
    requires cs == ps + [LinkBlock(link)]
    requires forall i :: 0 <= i < |ps| ==> ps[i].Container? && ps[i].style == {Stacked}
    ensures |cs| >= 1 && cs[|cs| - 1] == LinkBlock(link)
    ensures forall i :: 0 <= i < |cs| - 1 ==> cs[i].Container? && Wrapped !in cs[i].style
  {
    forall i | 0 <= i < |cs| - 1
      ensures cs[i].Container? && Wrapped !in cs[i].style
    {
      assert cs[i] == ps[i];
    }
  }

  /** A blank description gives an empty container, or one holding only the link block. */
  lemma BlankDescription(description: string, link: string)
    requires AllWhiteSpace(description)
    ensures RichContent(description).Returns? && RichContent(description).value.children == []
    ensures RichContentWithLink(description, link).Returns?
    ensures RichContentWithLink(description, link).value.children == [LinkBlock(link)]
  {
    WhiteSpaceConvertsToNothing(description);
  }
}
