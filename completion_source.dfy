/** Completion of `hx-` attribute names inside an HTML tag: when to offer it, the items
    offered, and the description shown beside an item. */
module HtmxCompletionSource {
  import opened Text
  import opened Outcomes
  import opened Adornments
  import opened SnapshotPointExtensions
  import opened TooltipsProvider

  /** The parts of a `CompletionItem` the extension sets from the keyword. */
  datatype CompletionItem = CompletionItem(displayText: string, insertText: string, sortText: string, filterText: string)

  /** `ConvertToItem`: the item for a keyword. `hx-on` is completed as `hx-on:`, any other
      keyword `k` as `k=""`. */
  function ConvertToItem(keyword: string): (item: CompletionItem)
    ensures item.displayText == item.sortText == item.filterText == keyword
    ensures StartsWith(item.insertText, keyword)
    ensures EndsWith(item.insertText, "=\"\"") <==> keyword != "hx-on"
    ensures keyword == "hx-on" ==> item.insertText == "hx-on:"
    ensures keyword != "hx-on" ==> |item.insertText| == |keyword| + 3
  {
    var insertText := if keyword == "hx-on" then "hx-on:" else keyword + "=\"\"";
    CompletionItem(keyword, insertText, keyword, keyword)
  }

  /** `GetCompletionContextAsync`: one item per keyword, in keyword order. */
  function CompletionContext(keywords: seq<string>): (items: seq<CompletionItem>)
    ensures |items| == |keywords|
    ensures forall i :: 0 <= i < |keywords| ==> items[i] == ConvertToItem(keywords[i])
  {
    seq(|keywords|, i requires 0 <= i < |keywords| => ConvertToItem(keywords[i]))
  }

  /** Different keywords give different insert texts: the keyword is the insert text
      without its suffix `=""`, or without the `:` of `hx-on:`. */
  lemma InsertTextDeterminesKeyword(k1: string, k2: string)
    requires ConvertToItem(k1).insertText == ConvertToItem(k2).insertText
    ensures k1 == k2
  {
    var t := ConvertToItem(k1).insertText;
    if k1 == "hx-on" || k2 == "hx-on" {
      assert t[|t| - 1] == ':';
    } else {
      assert k1 == t[..|t| - 3] == k2;
    }
  }

  /** `InitializeCompletion`: `Some(span)` is `ProvidesItems` with that applicable span,
      `None` is `DoesNotParticipateInCompletion`. Outside a tag nothing is offered; inside
      one, the token at the caret is offered for when it starts with `hx` in any case, or
      when `-` was typed and the token before it is `hx` in any case. */
  function InitializeCompletion(buf: string, p: nat, lineStart: nat, lineEnd: nat, typed: char): (r: Outcome<Option<Span>>)
    requires lineStart <= p <= lineEnd <= |buf|
    ensures !InsideTag(buf[..p]) ==> r == Returns(None)
    ensures r.Returns? && r.value.Some? ==> r.value.value == ContainingToken(buf, p, lineStart, lineEnd)
  {
    if !InsideTag(buf[..p]) then Returns(None)
    else
      var tokenSpan := ContainingToken(buf, p, lineStart, lineEnd);
      var currentToken := SpanText(buf, tokenSpan);
      if StartsWithIgnoreCase(currentToken, "hx") || StartsWithIgnoreCase(currentToken, "hx-") then
        Returns(Some(tokenSpan))
      else if typed != '-' then Returns(None)
      else
        match PreviousToken(buf, tokenSpan, lineStart, lineEnd)
        case Returns(previous) =>
          if EqualsIgnoreCase(SpanText(buf, previous), "hx") then Returns(Some(tokenSpan)) else Returns(None)
        case Throws(e) => Throws(e)
        case Diverges => Diverges
  }

  /** Participation is exactly "inside a tag, and either the token at the caret starts
      with `hx` in any case, or `-` was typed and the token before it is `hx` in any case";
      the lookup of that previous token cannot throw there, so the answer is always
      returned. */
  lemma InitializeCompletionIff(buf: string, p: nat, lineStart: nat, lineEnd: nat, typed: char)
    requires lineStart <= p <= lineEnd <= |buf|
    ensures InitializeCompletion(buf, p, lineStart, lineEnd, typed).Returns?
    ensures
      var tokenSpan := ContainingToken(buf, p, lineStart, lineEnd);
      var previous := PreviousToken(buf, tokenSpan, lineStart, lineEnd);
      InitializeCompletion(buf, p, lineStart, lineEnd, typed).value.Some? <==>
        && InsideTag(buf[..p])
        && (|| StartsWithIgnoreCase(SpanText(buf, tokenSpan), "hx")
            || (typed == '-' && previous.Returns? && EqualsIgnoreCase(SpanText(buf, previous.value), "hx")))
  {
    InitializeCompletionNeverThrows(buf, p, lineStart, lineEnd, typed);
    var tokenSpan := ContainingToken(buf, p, lineStart, lineEnd);
    if StartsWithIgnoreCase(SpanText(buf, tokenSpan), "hx-") {
      HxDashSubsumed(SpanText(buf, tokenSpan));
    }
  }

  /** The `hx-` test adds nothing to the `hx` test beside it. */
  lemma HxDashSubsumed(s: string)
    requires StartsWithIgnoreCase(s, "hx-")
    ensures StartsWithIgnoreCase(s, "hx")
  {
    assert s[..2] == s[..3][..2];
  }

  /** Inside a tag the token at the caret never starts the snapshot: an open `<` lies
      before it. So the previous-token lookup, which throws only for a token at position
      0, never throws here, and neither does `InitializeCompletion`. */
  lemma {:induction false} InitializeCompletionNeverThrows(buf: string, p: nat, lineStart: nat, lineEnd: nat, typed: char)
    requires lineStart <= p <= lineEnd <= |buf|
    ensures InitializeCompletion(buf, p, lineStart, lineEnd, typed).Returns?
  {
    if InsideTag(buf[..p]) {
      var tokenSpan := ContainingToken(buf, p, lineStart, lineEnd);
      InsideTagIff(buf[..p]);
      var i :| 0 <= i < p && buf[..p][i] == '<' && forall j :: i < j < p ==> buf[..p][j] != '>';
      assert tokenSpan.start != 0;
    }
  }

  /** The separator `GetDescriptionAsync` puts between two description elements. */
  const Separator: Node := TextElement([Run(Space, " ")])

  /** The description elements with a separator between each two neighbours. */
  function Interleaved(elements: seq<Node>): (r: seq<Node>)
    ensures |elements| > 0 ==> |r| == 2 * |elements| - 1
  {
    if |elements| <= 1 then elements else [elements[0], Separator] + Interleaved(elements[1..])
  }

  /** Element `i` lands at position `2i`, and every odd position holds the separator. */
  lemma {:induction false} InterleavedIndex(elements: seq<Node>, k: nat)
    requires k < 2 * |elements| - 1
    ensures Interleaved(elements)[k] == if k % 2 == 0 then elements[k / 2] else Separator
  {
    if |elements| > 1 && k >= 2 {
      InterleavedIndex(elements[1..], k - 2);
      assert Interleaved(elements)[k] == Interleaved(elements[1..])[k - 2];
    }
  }

  /** The loop of `GetDescriptionAsync` over an array of `2n - 1` slots; with no elements
      the array size is negative and the allocation throws. */
  method Interleave(elements: seq<Node>) returns (r: Outcome<seq<Node>>)
    ensures elements == [] ==> r == Throws(Overflow)
    ensures elements != [] ==> r.Returns? && r.value == Interleaved(elements)
  {
    if |elements| * 2 - 1 < 0 {
      return Throws(Overflow);
    }
    var newElements := new Node[|elements| * 2 - 1](_ => Separator);
    for i := 0 to |elements|
      invariant forall k :: 0 <= k < 2 * i && k < newElements.Length ==>
        newElements[k] == if k % 2 == 0 then elements[k / 2] else Separator
    {
      newElements[i * 2] := elements[i];
      if i < |elements| - 1 {
        newElements[i * 2 + 1] := Separator;
      }
    }
    forall k | 0 <= k < newElements.Length
      ensures newElements[k] == Interleaved(elements)[k]
    {
      InterleavedIndex(elements, k);
    }
    return Returns(newElements[..]);
  }

  /** `GetDescriptionAsync`: the attribute's tooltip without the reference link, its
      children separated by single spaces and its style widened by `Wrapped`; `None` when
      the registry does not know the item. */
  method GetDescription(provider: ToolTipsProvider, item: CompletionItem) returns (r: Outcome<Option<Node>>)
    requires provider.Valid()
    modifies provider
    ensures provider.Valid()
    ensures item.displayText !in provider.keywords ==> r == Returns(None) && provider.cache == old(provider.cache)
    ensures r.Returns? && r.value.Some? ==>
      item.displayText in provider.cache && provider.cache[item.displayText].Container? &&
      var cached := provider.cache[item.displayText];
      cached.children != [] &&
      r.value.value == Container(cached.style + {Wrapped}, Interleaved(cached.children))
    ensures item.displayText in old(provider.cache) ==>
      var cached := old(provider.cache)[item.displayText];
      && cached.Container?
      && provider.cache == old(provider.cache)
      && (cached.children != [] ==>
            r == Returns(Some(Container(cached.style + {Wrapped}, Interleaved(cached.children)))))
      && (cached.children == [] ==> r == Throws(Overflow))
    ensures (&& item.displayText !in old(provider.cache) && item.displayText in provider.keywords
             && provider.Render(item.displayText, false).Returns?) ==>
      var n := provider.Render(item.displayText, false).value;
      && n.Container?
      && provider.cache == old(provider.cache)[item.displayText := n]
      && (n.children != [] ==> r == Returns(Some(Container(n.style + {Wrapped}, Interleaved(n.children)))))
      && (n.children == [] ==> r == Throws(Overflow))
    ensures (&& item.displayText !in old(provider.cache) && item.displayText in provider.keywords
             && !provider.Render(item.displayText, false).Returns?) ==>
      var doc := provider.Render(item.displayText, false);
      && r.Throws? == doc.Throws? && r.Diverges? == doc.Diverges? && (r.Throws? ==> r.error == doc.error)
      && provider.cache == old(provider.cache)
  {
    var found := provider.TryGetValue(item.displayText, false);
    match found {
      case Returns(Some(element)) =>
        var children := Interleave(element.children);
        match children {
          case Returns(newElements) =>
            return Returns(Some(Container(element.style + {Wrapped}, newElements)));
          case Throws(e) =>
            return Throws(e);
          case Diverges =>
            return Diverges;
        }
      case Returns(None) =>
        return Returns(None);
      case Throws(e) =>
        return Throws(e);
      case Diverges =>
        return Diverges;
    }
  }
}
