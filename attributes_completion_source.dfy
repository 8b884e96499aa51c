/** Completion of attribute values: right after the opening quote of a known `hx-`
    attribute, the values documented for that attribute are offered. */
module HtmxAttributesCompletionSource {
  import opened Outcomes
  import opened Adornments
  import opened SnapshotPointExtensions
  import opened AttributeTooltipsProvider
  import HtmxCompletionSource

  type CompletionItem = HtmxCompletionSource.CompletionItem

  /** `ConvertToItem`: a value is inserted as it is. */
  function ConvertToItem(keyword: string): (item: CompletionItem)
    ensures item.displayText == item.insertText == item.sortText == item.filterText == keyword
  {
    HtmxCompletionSource.CompletionItem(keyword, keyword, keyword, keyword)
  }

  /** `InitializeCompletion`: `Some(span)` is `ProvidesItems` with that applicable span,
      `None` is `DoesNotParticipateInCompletion`. */
  function InitializeCompletion(buf: string, p: nat, lineStart: nat, lineEnd: nat): (r: Outcome<Option<Span>>)
    requires lineStart <= p <= lineEnd <= |buf|
    ensures !InsideTag(buf[..p]) ==> r == Returns(None)
    ensures r.Returns? && r.value.Some? ==> r.value.value == Span(p, p)
  {
    if !InsideTag(buf[..p]) then Returns(None)
    else
      match HxAttributeAt(buf, p, lineStart, lineEnd)
      case Returns(probe) => if probe.inside then Returns(Some(Span(p, p))) else Returns(None)
      case Throws(e) => Throws(e)
      case Diverges => Diverges
  }

  /** Participation is exactly "inside a tag and just after the opening quote of an `hx-`
      attribute", with an empty span at the caret. */
  lemma InitializeCompletionIff(buf: string, p: nat, lineStart: nat, lineEnd: nat)
    requires lineStart <= p <= lineEnd <= |buf|
    requires InitializeCompletion(buf, p, lineStart, lineEnd).Returns?
    ensures InitializeCompletion(buf, p, lineStart, lineEnd).value.Some? <==>
      InsideTag(buf[..p]) && HxAttributeAt(buf, p, lineStart, lineEnd).Returns? &&
      HxAttributeAt(buf, p, lineStart, lineEnd).value.inside
    ensures InitializeCompletion(buf, p, lineStart, lineEnd).value.Some? ==>
      p >= 3 && buf[p - 2] == '=' && buf[p - 1] == '"'
  {
  }

  /** Right after a `<` at the very start of the snapshot, the attribute probe reads
      before the snapshot and throws: the tag test lets position 1 through. */
  lemma InitializeCompletionThrowsAfterOpeningBracket(buf: string, lineEnd: nat)
    requires 1 <= lineEnd <= |buf| && buf[0] == '<'
    ensures InitializeCompletion(buf, 1, 0, lineEnd) == Throws(ArgumentOutOfRange)
  {
    assert buf[..1] == ['<'];
  }

  /** `GetCompletionContextAsync`: `None` (a null context) unless the caret is just after
      the opening quote of an `hx-` attribute that the registry knows; otherwise one item
      per documented value, in registry order. */
  function GetCompletionContext(provider: AttributeToolTipsProvider, buf: string, p: nat, lineStart: nat, lineEnd: nat)
    : (r: Outcome<Option<seq<CompletionItem>>>)
    requires lineStart <= p <= lineEnd <= |buf|
    ensures HxAttributeAt(buf, p, lineStart, lineEnd).Returns? <==> r.Returns?
    ensures r.Returns? && r.value.Some? ==>
      var attribute := HxAttributeAt(buf, p, lineStart, lineEnd).value.attribute;
      && attribute.Some? && attribute.value in provider.table
      && |r.value.value| == |provider.table[attribute.value]|
      && (forall i :: 0 <= i < |r.value.value| ==> r.value.value[i].insertText == provider.table[attribute.value][i].key)
      && (forall i :: 0 <= i < |r.value.value| ==> r.value.value[i] == ConvertToItem(provider.table[attribute.value][i].key))
    ensures r.Returns? && r.value.None? ==>
      var probe := HxAttributeAt(buf, p, lineStart, lineEnd).value;
      !probe.inside || probe.attribute.value !in provider.table
  {
    match HxAttributeAt(buf, p, lineStart, lineEnd)
    case Throws(e) => Throws(e)
    case Diverges => Diverges
    case Returns(probe) =>
      if !probe.inside then Returns(None)
      else
        match provider.GetKeywords(probe.attribute.value)
        case None => Returns(None)
        case Some(keywords) =>
          Returns(Some(seq(|keywords|, i requires 0 <= i < |keywords| => ConvertToItem(keywords[i]))))
  }

  /** `GetDescriptionAsync`: the registry's entry for the attribute recorded when the
      context was built and the item's value; `None` when the attribute is unknown. */
  method GetDescription(provider: AttributeToolTipsProvider, attribute: string, item: CompletionItem)
    returns (r: Outcome<Option<Node>>)
    requires provider.Valid()
    modifies provider
    ensures provider.Valid()
    ensures attribute !in provider.table ==> r == Returns(None)
    ensures attribute in provider.table && FirstWithKey(provider.table[attribute], item.displayText).None? ==>
      r == Throws(NullReference)
    ensures attribute in provider.table && FirstWithKey(provider.table[attribute], item.displayText).Some? ==>
      var cell := (attribute, FirstWithKey(provider.table[attribute], item.displayText).value);
      var doc := provider.render(provider.table[attribute][cell.1].markdown);
      && (cell in old(provider.forced) ==>
            r == Returns(Some(old(provider.forced)[cell])) && provider.forced == old(provider.forced))
      && (cell !in old(provider.forced) && doc.Returns? ==>
            r == Returns(Some(doc.value)) && provider.forced == old(provider.forced)[cell := doc.value])
      && (cell !in old(provider.forced) && !doc.Returns? ==>
            r.Throws? == doc.Throws? && r.Diverges? == doc.Diverges? && (r.Throws? ==> r.error == doc.error))
    ensures !(r.Returns? && r.value.Some?) ==> provider.forced == old(provider.forced)
    ensures r.Returns? && r.value.Some? ==>
      attribute in provider.table && FirstWithKey(provider.table[attribute], item.displayText).Some? &&
      provider.Holds((attribute, FirstWithKey(provider.table[attribute], item.displayText).value), r.value.value)
  {
    r := provider.TryGetValue(attribute, item.displayText);
  }
}
