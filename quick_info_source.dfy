/** The hover tooltip: the word under the mouse is taken as an attribute name when it
    looks like one, and the attribute's documentation is looked up by that name. */
module HtmxQuickInfoSource {
  import opened Text
  import opened Outcomes
  import opened Adornments
  import opened SnapshotPointExtensions
  import opened TooltipsProvider

  /** The attribute name at `p`: the run of letters, digits and `-` around `p` in the whole
      snapshot, when it has at least three characters and, in case it reaches past `p`,
      begins with `hx`. A run that ends at `p` is taken without looking at its prefix, and
      only the two letters `hx` are checked, not `hx-`. */
  function AttributeText(buf: string, p: nat): (r: Option<string>)
    requires p <= |buf|
    ensures r.Some? ==> |r.value| >= 3 && r.value == SpanText(buf, ContainingToken(buf, p, 0, |buf|))
  {
    var span := ContainingToken(buf, p, 0, |buf|);
    if span.end - span.start < 3 then None
    else if span.end > p && (buf[span.start] != 'h' || buf[span.start + 1] != 'x') then None
    else Some(buf[span.start..span.end])
  }

  /** When a name is reported: the run is at least three long, and it either ends at `p` or
      starts with `hx`. */
  lemma AttributeTextIff(buf: string, p: nat)
    requires p <= |buf|
    ensures var span := ContainingToken(buf, p, 0, |buf|);
      AttributeText(buf, p).Some? <==>
        span.end - span.start >= 3 && (span.end == p || StartsWith(SpanText(buf, span), "hx"))
  {
    var span := ContainingToken(buf, p, 0, |buf|);
    if span.end - span.start >= 3 {
      assert SpanText(buf, span)[..2] == [buf[span.start], buf[span.start + 1]];
    }
  }

  /** `GetAttributeText`: a backward scan that prepends characters, then a forward scan
      that appends them and gives up once two characters are collected that are not
      `hx`. */
  method GetAttributeText(buf: string, p: nat) returns (r: Option<string>)
    requires p <= |buf|
    ensures r == AttributeText(buf, p)
  {
    var start, sb := ScanBack(buf, p);
    r := ScanForward(buf, p, start, sb);
  }

  /** The backward scan: the characters of the run before `p`. */
  method ScanBack(buf: string, p: nat) returns (start: nat, sb: string)
    requires p <= |buf|
    ensures start == TokenStart(buf, p, 0) && sb == buf[start..p]
  {
    start := p;
    sb := [];
    while start > 0 && IsTokenChar(buf[start - 1])
      invariant start <= p
      invariant sb == buf[start..p]
      invariant TokenStart(buf, start, 0) == TokenStart(buf, p, 0)
    {
      sb := [buf[start - 1]] + sb;
      start := start - 1;
    }
  }

  /** The forward scan and the length check, from the run's start. */
  method ScanForward(buf: string, p: nat, start: nat, sb: string) returns (r: Option<string>)
    requires p <= |buf| && start == TokenStart(buf, p, 0) && sb == buf[start..p]
    ensures var e := TokenEnd(buf, p, |buf|);
      r == if e - start < 3 || (e > p && (buf[start] != 'h' || buf[start + 1] != 'x')) then None
        else Some(buf[start..e])
  {
    ghost var e := TokenEnd(buf, p, |buf|);
    var end: nat := p;
    var text := sb;
    while end < |buf| && IsTokenChar(buf[end])
      invariant p <= end <= e
      invariant text == buf[start..end]
      invariant TokenEnd(buf, end, |buf|) == e
      invariant end > p && end - start >= 3 ==> buf[start] == 'h' && buf[start + 1] == 'x'
    {
      if |text| >= 2 && (text[0] != 'h' || text[1] != 'x') {
        assert text[0] == buf[start] && text[1] == buf[start + 1] && e > end;
        return None;
      }
      assert |text| >= 2 ==> text[0] == buf[start] && text[1] == buf[start + 1];
      SliceExtend(buf, start, end);
      text := text + [buf[end]];
      end := end + 1;
    }
    assert e == end;
    if |text| < 3 {
      return None;
    }
    return Some(text);
  }

  /** `BuildQuickInfoElementsAsync` once the trigger point is known: no tooltip without an
      attribute name, otherwise whatever the attribute registry holds for that name. The
      applicable span comes from the editor's word navigator, which is not modelled. */
  method BuildQuickInfoElements(provider: ToolTipsProvider, buf: string, p: nat) returns (r: Outcome<Option<Node>>)
    requires p <= |buf|
    requires provider.Valid()
    modifies provider
    ensures provider.Valid()
    ensures AttributeText(buf, p).None? ==>
      r == Returns(None) && provider.cache == old(provider.cache)
    ensures AttributeText(buf, p).Some? && AttributeText(buf, p).value !in provider.keywords ==>
      r == Returns(None) && provider.cache == old(provider.cache)
    ensures AttributeText(buf, p).Some? && AttributeText(buf, p).value in old(provider.cache) ==>
      r == Returns(Some(old(provider.cache)[AttributeText(buf, p).value])) && provider.cache == old(provider.cache)
    ensures (&& AttributeText(buf, p).Some? && AttributeText(buf, p).value !in old(provider.cache)
             && AttributeText(buf, p).value in provider.keywords
             && provider.Render(AttributeText(buf, p).value, true).Returns?) ==>
      var n := provider.Render(AttributeText(buf, p).value, true).value;
      r == Returns(Some(n)) && provider.cache == old(provider.cache)[AttributeText(buf, p).value := n]
    ensures (&& AttributeText(buf, p).Some? && AttributeText(buf, p).value !in old(provider.cache)
             && AttributeText(buf, p).value in provider.keywords
             && !provider.Render(AttributeText(buf, p).value, true).Returns?) ==>
      var doc := provider.Render(AttributeText(buf, p).value, true);
      && r.Throws? == doc.Throws? && r.Diverges? == doc.Diverges? && (r.Throws? ==> r.error == doc.error)
      && provider.cache == old(provider.cache)
    ensures r.Returns? && r.value.Some? ==>
      AttributeText(buf, p).Some? && AttributeText(buf, p).value in provider.keywords &&
      AttributeText(buf, p).value in provider.cache && provider.cache[AttributeText(buf, p).value] == r.value.value
  {
    var searchText := GetAttributeText(buf, p);
    if searchText.None? || searchText.value == [] {
      return Returns(None);
    }
    var value := provider.TryGetValue(searchText.value, true);
    return value;
  }
}
