/** Committing a completion item: an `hx-` attribute item replaces the applicable span
    with `name=""` and puts the caret between the two quotes; any other item is left to
    the editor's default commit. */
module HtmxCompletionCommitManager {
  import opened Text
  import opened SnapshotPointExtensions
  import HtmxCompletionSource

  /** `PotentialCommitCharacters`: no character commits an item by itself. */
  const PotentialCommitCharacters: seq<char> := []

  /** `ShouldCommitCompletion`: every typed character is accepted. */
  function ShouldCommitCompletion(typed: char): (r: bool)
    ensures r
  {
    true
  }

  datatype CommitResult = Handled | Unhandled

  /** The insert texts this manager commits itself: `hx` at the start and `=""` at the
      end, which cannot overlap, so such a text is at least `hx=""`. */
  predicate IsAttributeInsert(insertText: string): (b: bool)
    ensures b <==>
      && |insertText| >= 5
      && insertText[0] == 'h' && insertText[1] == 'x'
      && insertText[|insertText| - 3] == '=' && insertText[|insertText| - 2] == '"' && insertText[|insertText| - 1] == '"'
  {
    var n := |insertText|;
    assert n >= 2 ==> insertText[..2] == [insertText[0], insertText[1]];
    assert n >= 3 ==> insertText[n - 3..] == [insertText[n - 3], insertText[n - 2], insertText[n - 1]];
    StartsWith(insertText, "hx") && EndsWith(insertText, "=\"\"")
  }

  /** The buffer after replacing `span` by `insertText`. */
  function Replace(text: string, span: Span, insertText: string): (r: string)
    requires span.start <= span.end <= |text|
    ensures |r| == |text| - (span.end - span.start) + |insertText|
  {
    text[..span.start] + insertText + text[span.end..]
  }

  /** The editor state `TryCommit` changes: the buffer's text and the caret position. */
  class TextView {
    var text: string
    var caret: nat

    constructor(text: string, caret: nat)
      ensures this.text == text && this.caret == caret
    {
      this.text := text;
      this.caret := caret;
    }
  }

  /** `TryCommit`: for an attribute item, replace the session's applicable span with the
      insert text and move the caret one character back from its end, between the two
      quotes; for any other item, touch nothing and report it unhandled. */
  method TryCommit(view: TextView, span: Span, item: HtmxCompletionSource.CompletionItem) returns (result: CommitResult)
    requires span.start <= span.end <= |view.text|
    modifies view
    ensures result == Handled <==> IsAttributeInsert(item.insertText)
    ensures result == Handled ==>
      view.text == Replace(old(view.text), span, item.insertText) && view.caret == span.start + |item.insertText| - 1
    ensures result == Unhandled ==> view.text == old(view.text) && view.caret == old(view.caret)
  {
    if StartsWith(item.insertText, "hx") && EndsWith(item.insertText, "=\"\"") {
      view.text := view.text[..span.start] + item.insertText + view.text[span.end..];
      view.caret := span.start + |item.insertText| - 1;
      return Handled;
    }
    return Unhandled;
  }

  /** After a handled commit the caret sits between the quotes of `=""`, the text before
      the span is unchanged and the text after the span follows the inserted text. */
  lemma CaretBetweenQuotes(text: string, span: Span, insertText: string)
    requires span.start <= span.end <= |text| && IsAttributeInsert(insertText)
    ensures var r := Replace(text, span, insertText);
      var caret := span.start + |insertText| - 1;
      && caret < |r| && r[caret - 2] == '=' && r[caret - 1] == '"' && r[caret] == '"'
      && r[..span.start] == text[..span.start]
      && r[caret + 1..] == text[span.end..]
  {
    var r := Replace(text, span, insertText);
    var caret := span.start + |insertText| - 1;
    var n := |insertText|;
    assert insertText[n - 3..] == "=\"\"";
    assert r[span.start..span.start + n] == insertText;
    assert r[caret + 1..] == text[span.end..];
  }

  /** Which keyword items this manager commits: every `hx` keyword except `hx-on`, whose
      item inserts `hx-on:` and is left to the editor. */
  lemma KeywordItemHandled(keyword: string)
    ensures IsAttributeInsert(HtmxCompletionSource.ConvertToItem(keyword).insertText) <==>
      StartsWith(keyword, "hx") && keyword != "hx-on"
  {
    var t := HtmxCompletionSource.ConvertToItem(keyword).insertText;
    if keyword != "hx-on" {
      assert t == keyword + "=\"\"";
      if |keyword| >= 2 {
        assert t[..2] == keyword[..2];
      } else {
        assert t[|keyword|] == '=';
      }
    }
  }
}
