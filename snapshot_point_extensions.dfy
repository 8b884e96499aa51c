/** Read-only scans of a text snapshot around a cursor position: is the cursor inside an
    HTML tag, just after the opening quote of an `hx-` attribute, inside a token, and which
    token precedes a given one.

    A snapshot is a `string`; a position `p` satisfies `p <= |buf|`. The line that contains
    a position is supplied by the editor and is given here as the pair `lineStart, lineEnd`
    with `lineStart <= p <= lineEnd <= |buf|`. Each scan is a method with the loop of the
    source, proved equal to a specification function, and the functions carry what the
    scan means. */
module SnapshotPointExtensions {
  import opened Text
  import opened Outcomes

  /** The half-open range `[start, end)` of a snapshot. */
  datatype Span = Span(start: nat, end: nat)

  function SpanText(buf: string, span: Span): string
    requires span.start <= span.end <= |buf|
  {
    buf[span.start..span.end]
  }

  // ---------------------------------------------------------------------------------------
  // IsInsideHtmlTag

  /** Reading `before` from its end towards its start, a `<` comes before any `>`. */
  predicate InsideTag(before: string)
  {
    if before == [] then false
    else
      var c := before[|before| - 1];
      if c == '>' then false
      else if c == '<' then true
      else InsideTag(before[..|before| - 1])
  }

  /** The backward scan agrees with its declarative reading: there is a `<` before the
      position with no `>` between it and the position. */
  lemma {:induction false} InsideTagIff(before: string)
    ensures InsideTag(before) <==>
      exists i :: 0 <= i < |before| && before[i] == '<' && forall j :: i < j < |before| ==> before[j] != '>'
  {
    if before != [] {
      var n := |before| - 1;
      var init := before[..n];
      InsideTagIff(init);
      if before[n] == '>' {
        forall i | 0 <= i < |before| && before[i] == '<'
          ensures !(forall j :: i < j < |before| ==> before[j] != '>')
        {
          assert i < n && before[n] == '>';
        }
      } else if before[n] == '<' {
      } else {
        forall i | 0 <= i < n
          ensures (before[i] == '<' && forall j :: i < j < |before| ==> before[j] != '>')
              <==> (init[i] == '<' && forall j :: i < j < |init| ==> init[j] != '>')
        {
        }
      }
    }
  }

  /** Whether the character before `p` belongs to an open tag. Only `buf[..p]` is read,
      and the answer is false at the start of the snapshot. */
  method IsInsideHtmlTag(buf: string, p: nat) returns (inside: bool)
    requires p <= |buf|
    ensures inside == InsideTag(buf[..p])
    ensures p == 0 ==> !inside
  {
    if p == 0 {
      return false;
    }
    var openBracketPos := -1;
    var i := p - 1;
    while i >= 0
      invariant -1 <= i < p
      invariant openBracketPos == -1
      invariant InsideTag(buf[..p]) == InsideTag(buf[..i + 1])
    {
      assert buf[..i + 1][..i] == buf[..i];
      if buf[i] == '>' {
        return false;
      }
      if buf[i] == '<' {
        openBracketPos := i;
        break;
      }
      i := i - 1;
    }
    return openBracketPos != -1;
  }

  // ---------------------------------------------------------------------------------------
  // GetContainingToken

  /** `span` is a run of token characters in `[lo, hi)` that touches `p` and cannot be
      extended on either side within `[lo, hi)`. */
  ghost predicate MaximalRun(buf: string, lo: nat, hi: nat, p: nat, span: Span)
    requires hi <= |buf|
  {
    && lo <= span.start <= p <= span.end <= hi
    && (forall k :: span.start <= k < span.end ==> IsTokenChar(buf[k]))
    && (span.start == lo || !IsTokenChar(buf[span.start - 1]))
    && (span.end == hi || !IsTokenChar(buf[span.end]))
  }

  /** Where the backward scan over token characters from `p` stops. */
  function TokenStart(buf: string, p: nat, lineStart: nat): (s: nat)
    requires lineStart <= p <= |buf|
    ensures lineStart <= s <= p
    ensures forall k :: s <= k < p ==> IsTokenChar(buf[k])
    ensures s == lineStart || !IsTokenChar(buf[s - 1])
    decreases p
  {
    if p > lineStart && IsTokenChar(buf[p - 1]) then TokenStart(buf, p - 1, lineStart) else p
  }

  /** Where the forward scan over token characters from `p` stops. */
  function TokenEnd(buf: string, p: nat, lineEnd: nat): (e: nat)
    requires p <= lineEnd <= |buf|
    ensures p <= e <= lineEnd
    ensures forall k :: p <= k < e ==> IsTokenChar(buf[k])
    ensures e == lineEnd || !IsTokenChar(buf[e])
    decreases lineEnd - p
  {
    if p < lineEnd && IsTokenChar(buf[p]) then TokenEnd(buf, p + 1, lineEnd) else p
  }

  /** The token around `p`: the maximal run of letters, digits and `-` within the line. */
  function ContainingToken(buf: string, p: nat, lineStart: nat, lineEnd: nat): (span: Span)
    requires lineStart <= p <= lineEnd <= |buf|
    ensures MaximalRun(buf, lineStart, lineEnd, p, span)
  {
    Span(TokenStart(buf, p, lineStart), TokenEnd(buf, p, lineEnd))
  }

  /** There is only one maximal run around a position, so `ContainingToken` is it. */
  lemma MaximalRunUnique(buf: string, lo: nat, hi: nat, p: nat, a: Span, b: Span)
    requires hi <= |buf|
    requires MaximalRun(buf, lo, hi, p, a) && MaximalRun(buf, lo, hi, p, b)
    ensures a == b
  {
  }

  /** When neither neighbour of `p` is a token character, the token is empty at `p`. */
  lemma ContainingTokenEmpty(buf: string, p: nat, lineStart: nat, lineEnd: nat)
    requires lineStart <= p <= lineEnd <= |buf|
    requires p == lineStart || !IsTokenChar(buf[p - 1])
    requires p == lineEnd || !IsTokenChar(buf[p])
    ensures ContainingToken(buf, p, lineStart, lineEnd) == Span(p, p)
  {
  }

  method GetContainingToken(buf: string, p: nat, lineStart: nat, lineEnd: nat) returns (span: Span)
    requires lineStart <= p <= lineEnd <= |buf|
    ensures span == ContainingToken(buf, p, lineStart, lineEnd)
  {
    var tokenStart := p;
    while tokenStart > lineStart && IsTokenChar(buf[tokenStart - 1])
      invariant lineStart <= tokenStart <= p
      invariant TokenStart(buf, tokenStart, lineStart) == TokenStart(buf, p, lineStart)
    {
      tokenStart := tokenStart - 1;
    }
    var tokenEnd := p;
    while tokenEnd < lineEnd && IsTokenChar(buf[tokenEnd])
      invariant p <= tokenEnd <= lineEnd
      invariant TokenEnd(buf, tokenEnd, lineEnd) == TokenEnd(buf, p, lineEnd)
    {
      tokenEnd := tokenEnd + 1;
    }
    return Span(tokenStart, tokenEnd);
  }

  // ---------------------------------------------------------------------------------------
  // GetPreviousToken

  /** Where the backward scan over white space from `i` stops. */
  function WhiteSpaceStart(buf: string, i: nat, lineStart: nat): (e: nat)
    requires lineStart <= i <= |buf|
    ensures lineStart <= e <= i
    ensures forall k :: e <= k < i ==> IsWhiteSpace(buf[k])
    ensures e == lineStart || !IsWhiteSpace(buf[e - 1])
    decreases i
  {
    if i > lineStart && IsWhiteSpace(buf[i - 1]) then WhiteSpaceStart(buf, i - 1, lineStart) else i
  }

  /** The token before `token` on its line. The character just before `token` is skipped
      unconditionally, then white space, then the token characters before that. A token at
      the very start of the snapshot makes the source build a position of -1, which throws;
      a token at the start of a later line gives an empty span at the end of the previous line. */
  function PreviousToken(buf: string, token: Span, lineStart: nat, lineEnd: nat): (r: Outcome<Span>)
    requires lineStart <= token.start <= lineEnd <= |buf|
    ensures r.Throws? <==> token.start == lineStart == 0
    ensures !r.Diverges?
  {
    if token.start == lineStart then
      if lineStart == 0 then Throws(ArgumentOutOfRange) else Returns(Span(lineStart - 1, lineStart - 1))
    else
      var e := WhiteSpaceStart(buf, token.start - 1, lineStart);
      Returns(Span(TokenStart(buf, e, lineStart), e))
  }

  /** What the previous token is: at the start of a later line, the empty span at the end
      of the line before; otherwise the run of token characters that ends where the white
      space before the token's preceding character begins. */
  lemma PreviousTokenIsPrevious(buf: string, token: Span, lineStart: nat, lineEnd: nat)
    requires lineStart <= token.start <= lineEnd <= |buf|
    ensures token.start == lineStart > 0 ==>
      PreviousToken(buf, token, lineStart, lineEnd) == Returns(Span(lineStart - 1, lineStart - 1))
    ensures token.start > lineStart ==> (PreviousToken(buf, token, lineStart, lineEnd).Returns? &&
      var prev := PreviousToken(buf, token, lineStart, lineEnd).value;
      && lineStart <= prev.start <= prev.end <= token.start - 1
      && (forall k :: prev.end <= k < token.start - 1 ==> IsWhiteSpace(buf[k]))
      && (prev.end == lineStart || !IsWhiteSpace(buf[prev.end - 1]))
      && (forall k :: prev.start <= k < prev.end ==> IsTokenChar(buf[k]))
      && (prev.start == lineStart || !IsTokenChar(buf[prev.start - 1])))
  {
  }

  method GetPreviousToken(buf: string, token: Span, lineStart: nat, lineEnd: nat) returns (r: Outcome<Span>)
    requires lineStart <= token.start <= lineEnd <= |buf|
    ensures r == PreviousToken(buf, token, lineStart, lineEnd)
  {
    var lineText := buf[lineStart..lineEnd];
    var tokenStartPosition := token.start - lineStart;
    var previousTokenEnd := SkipWhiteSpaceBack(buf, lineStart, lineText, tokenStartPosition);
    var previousTokenStart := SkipTokenBack(buf, lineStart, lineText, previousTokenEnd);
    if lineStart + previousTokenStart < 0 {
      return Throws(ArgumentOutOfRange);
    }
    var start: nat, end: nat := lineStart + previousTokenStart, lineStart + previousTokenEnd;
    PreviousTokenBounds(buf, token, lineStart, lineEnd, start, end);
    return Returns(Span(start, end));
  }

  /** The value `GetPreviousToken` computes, from where its two loops stop. */
  lemma PreviousTokenBounds(buf: string, token: Span, lineStart: nat, lineEnd: nat, start: nat, end: nat)
    requires lineStart <= token.start <= lineEnd <= |buf|
    requires token.start == lineStart ==> start == end == lineStart - 1
    requires token.start > lineStart ==> end == WhiteSpaceStart(buf, token.start - 1, lineStart)
    requires token.start > lineStart ==> start == TokenStart(buf, end, lineStart)
    ensures PreviousToken(buf, token, lineStart, lineEnd) == Returns(Span(start, end))
  {
  }

  /** The first loop of `GetPreviousToken`: from the character before the token, back over
      white space. */
  method SkipWhiteSpaceBack(buf: string, lineStart: nat, lineText: string, tokenStartPosition: nat)
    returns (previousTokenEnd: int)
    requires lineStart + |lineText| <= |buf| && lineText == buf[lineStart..lineStart + |lineText|]
    requires tokenStartPosition <= |lineText|
    ensures tokenStartPosition == 0 ==> previousTokenEnd == -1
    ensures tokenStartPosition > 0 ==> 0 <= previousTokenEnd
    ensures tokenStartPosition > 0 ==>
      lineStart + previousTokenEnd == WhiteSpaceStart(buf, lineStart + tokenStartPosition - 1, lineStart)
  {
    previousTokenEnd := tokenStartPosition - 1;
    while previousTokenEnd > 0 && IsWhiteSpace(lineText[previousTokenEnd - 1])
      invariant -1 <= previousTokenEnd < tokenStartPosition
      invariant tokenStartPosition > 0 ==> (0 <= previousTokenEnd &&
        WhiteSpaceStart(buf, lineStart + previousTokenEnd, lineStart) ==
        WhiteSpaceStart(buf, lineStart + tokenStartPosition - 1, lineStart))
    {
      assert lineText[previousTokenEnd - 1] == buf[lineStart + previousTokenEnd - 1];
      previousTokenEnd := previousTokenEnd - 1;
    }
    if previousTokenEnd > 0 {
      assert lineText[previousTokenEnd - 1] == buf[lineStart + previousTokenEnd - 1];
    }
  }

  /** The second loop of `GetPreviousToken`: back over token characters. */
  method SkipTokenBack(buf: string, lineStart: nat, lineText: string, previousTokenEnd: int)
    returns (previousTokenStart: int)
    requires lineStart + |lineText| <= |buf| && lineText == buf[lineStart..lineStart + |lineText|]
    requires -1 <= previousTokenEnd <= |lineText|
    ensures previousTokenEnd < 0 ==> previousTokenStart == previousTokenEnd
    ensures previousTokenEnd >= 0 ==> 0 <= previousTokenStart
    ensures previousTokenEnd >= 0 ==>
      lineStart + previousTokenStart == TokenStart(buf, lineStart + previousTokenEnd, lineStart)
  {
    previousTokenStart := previousTokenEnd;
    while previousTokenStart > 0 && IsTokenChar(lineText[previousTokenStart - 1])
      invariant -1 <= previousTokenStart <= previousTokenEnd
      invariant previousTokenEnd >= 0 ==> (0 <= previousTokenStart &&
        TokenStart(buf, lineStart + previousTokenStart, lineStart) == TokenStart(buf, lineStart + previousTokenEnd, lineStart))
    {
      assert lineText[previousTokenStart - 1] == buf[lineStart + previousTokenStart - 1];
      previousTokenStart := previousTokenStart - 1;
    }
    if previousTokenStart > 0 {
      assert lineText[previousTokenStart - 1] == buf[lineStart + previousTokenStart - 1];
    }
  }

  // ---------------------------------------------------------------------------------------
  // IsInsideHxAttribute

  /** The characters that end an attribute name on its left. */
  predicate IsNameBoundary(c: char) {
    IsWhiteSpace(c) || c == '>'
  }

  /** Where the backward scan for the start of an attribute name, begun at `i`, stops: just
      after the nearest boundary at a position above `lineStart`, or at `lineStart` itself
      (whose own character is never examined), or at `i` when `i` is not above `lineStart`. */
  function NameStart(buf: string, i: nat, lineStart: nat): (r: nat)
    requires i < |buf|
    ensures i <= lineStart ==> r == i
    ensures i > lineStart ==> lineStart <= r <= i + 1
    ensures forall k :: r <= k <= i && k > lineStart ==> !IsNameBoundary(buf[k])
    ensures r > lineStart ==> IsNameBoundary(buf[r - 1])
    decreases i
  {
    if i > lineStart then
      if IsNameBoundary(buf[i]) then i + 1 else NameStart(buf, i - 1, lineStart)
    else i
  }

  /** The answer of `IsInsideHxAttribute` and its `out` parameter. */
  datatype Probe = Probe(inside: bool, attribute: Option<string>)

  /** Whether `p` is just after the opening quote of an `hx-` attribute, and its name. */
  function HxAttributeAt(buf: string, p: nat, lineStart: nat, lineEnd: nat): (r: Outcome<Probe>)
    requires lineStart <= p <= lineEnd <= |buf|
    ensures !r.Diverges?
    ensures r.Throws? <==> p == 1 || (p == 2 && buf[0] == '=' && buf[1] == '"')
    ensures r.Returns? ==> (r.value.inside <==> r.value.attribute.Some?)
    ensures r.Returns? && r.value.inside ==>
      && p >= 3 && buf[p - 2] == '=' && buf[p - 1] == '"'
      && StartsWith(r.value.attribute.value, "hx-")
      && r.value.attribute.value == buf[NameStart(buf, p - 3, lineStart)..p - 2]
    ensures p >= 3 && buf[p - 2] == '=' && buf[p - 1] == '"' ==>
      r.Returns? && (r.value.inside <==> StartsWith(buf[NameStart(buf, p - 3, lineStart)..p - 2], "hx-"))
  {
    if p == 0 then Returns(Probe(false, None))
    else if p == 1 then Throws(ArgumentOutOfRange)
    else if buf[p - 2] != '=' || buf[p - 1] != '"' then Returns(Probe(false, None))
    else if p == 2 then Throws(ArgumentOutOfRange)
    else
      var value := buf[NameStart(buf, p - 3, lineStart)..p - 2];
      if StartsWith(value, "hx-") then Returns(Probe(true, Some(value))) else Returns(Probe(false, None))
  }

  method IsInsideHxAttribute(buf: string, p: nat, lineStart: nat, lineEnd: nat) returns (r: Outcome<Probe>)
    requires lineStart <= p <= lineEnd <= |buf|
    ensures r == HxAttributeAt(buf, p, lineStart, lineEnd)
  {
    var attribute: Option<string> := None;
    if p == 0 {
      return Returns(Probe(false, attribute));
    }
    if p == 1 {
      // reading the character at p - 2 == -1
      return Throws(ArgumentOutOfRange);
    }
    if buf[p - 2] != '=' || buf[p - 1] != '"' {
      return Returns(Probe(false, attribute));
    }

    var tokenStart := ScanNameStart(buf, p, lineStart);
    if tokenStart < 0 {
      // GetText(-1, 1)
      return Throws(ArgumentOutOfRange);
    }
    var value := buf[tokenStart..p - 2];
    if StartsWith(value, "hx-") {
      attribute := Some(value);
      return Returns(Probe(true, attribute));
    }
    return Returns(Probe(false, attribute));
  }

  /** The backward scan of `IsInsideHxAttribute` for the start of the attribute name,
      begun at `p - 3`; at `p == 2` it starts, and stays, at -1. */
  method ScanNameStart(buf: string, p: nat, lineStart: nat) returns (tokenStart: int)
    requires 2 <= p <= |buf|
    ensures p == 2 ==> tokenStart == -1
    ensures p >= 3 ==> tokenStart == NameStart(buf, p - 3, lineStart)
  {
    tokenStart := p - 3;
    while tokenStart > lineStart
      invariant p == 2 ==> tokenStart == -1
      invariant p >= 3 ==> (0 <= tokenStart <= p - 3 &&
        NameStart(buf, tokenStart, lineStart) == NameStart(buf, p - 3, lineStart))
    {
      var currentChar := buf[tokenStart];
      if IsWhiteSpace(currentChar) || currentChar == '>' {
        tokenStart := tokenStart + 1;
        break;
      }
      tokenStart := tokenStart - 1;
    }
  }

  /** The scan stops just after a boundary when only name characters lie between it and
      the starting point. */
  lemma {:induction false} NameStartAfterBoundary(buf: string, lo: nat, i: nat, lineStart: nat)
    requires lineStart + 1 < lo <= i + 1 && i < |buf| && IsNameBoundary(buf[lo - 1])
    requires forall k :: lo <= k <= i ==> !IsNameBoundary(buf[k])
    ensures NameStart(buf, i, lineStart) == lo
    decreases i
  {
    if i >= lo {
      NameStartAfterBoundary(buf, lo, i - 1, lineStart);
    }
  }

  /** In the test buffer, the name that ends before `="` at position 11 starts at 5. */
  lemma HxGetNameStart()
    ensures NameStart("<div hx-get=\"\">Hello</div>", 10, 0) == 5
  {
    var buf := "<div hx-get=\"\">Hello</div>";
    assert buf[4] == ' ' && buf[5..11] == "hx-get";
    NameStartAfterBoundary(buf, 5, 10, 0);
  }

  /** The cursor right after the opening quote of `hx-get` reports `hx-get`. */
  lemma HxAttributeAfterQuote()
    ensures HxAttributeAt("<div hx-get=\"\">Hello</div>", 13, 0, 26) == Returns(Probe(true, Some("hx-get")))
  {
    var buf := "<div hx-get=\"\">Hello</div>";
    HxGetNameStart();
    assert buf[5..11] == "hx-get";
  }

  /** At the quote itself, one position earlier, nothing is reported. */
  lemma HxAttributeAtQuote()
    ensures HxAttributeAt("<div hx-get=\"\">Hello</div>", 12, 0, 26) == Returns(Probe(false, None))
  {
  }

  /** In the second test buffer, the name `class` starts at 5. */
  lemma ClassNameStart()
    ensures NameStart("<div class=\"test\">Hello</div>", 9, 0) == 5
  {
    var cls := "<div class=\"test\">Hello</div>";
    assert cls[4] == ' ';
    assert cls[5] == 'c' && cls[6] == 'l' && cls[7] == 'a' && cls[8] == 's' && cls[9] == 's';
    NameStartAfterBoundary(cls, 5, 9, 0);
  }

  /** A non-`hx-` attribute is not reported. */
  lemma HxAttributeNotHx()
    ensures HxAttributeAt("<div class=\"test\">Hello</div>", 12, 0, 29) == Returns(Probe(false, None))
  {
    var cls := "<div class=\"test\">Hello</div>";
    ClassNameStart();
    assert cls[5..10][0] == 'c';
  }
}
