/** The minimal Markdown renderer behind every tooltip: a line-by-line state machine that
    groups lines into blocks, and a single-pass inline scanner that splits a line into
    plain, bold and code runs.

    The inline scanner never advances on a `*` that does not start `**` (the search for the
    next special character finds that very `*`), so on such a line the source loops
    forever. The model returns `Diverges` there, and the whole conversion diverges with it. */
module MarkdownConverter {
  import opened Text
  import opened Outcomes
  import opened Adornments

  /** One line of output: a `ClassifiedTextElement`. */
  type Element = seq<Run>

  /** One paragraph: the elements of a `Stacked` container. */
  type Block = seq<Element>

  /** The container the converter builds for a block. */
  function BlockContainer(b: Block): (n: Node)
    ensures n.Container? && n.style == {Stacked} && |n.children| == |b|
    ensures forall i :: 0 <= i < |b| ==> n.children[i] == TextElement(b[i])
  {
    Container({Stacked}, seq(|b|, i requires 0 <= i < |b| => TextElement(b[i])))
  }

  // ---------------------------------------------------------------------------------------
  // The string searches of the inline scanner

  predicate IsSpecial(c: char) {
    c == '*' || c == '`'
  }

  predicate DoubleStarAt(line: string, k: nat)
    requires k + 2 <= |line|
  {
    line[k] == '*' && line[k + 1] == '*'
  }

  /** `line.Substring(index).StartsWith("**")`. */
  predicate OpensBold(line: string, index: nat) {
    index + 2 <= |line| && DoubleStarAt(line, index)
  }

  /** `line.IndexOf("**", from)`: the first `**` at or after `from`. */
  function IndexOfDoubleStar(line: string, from: nat): (r: Option<nat>)
    requires from <= |line|
    ensures r.Some? ==> from <= r.value && r.value + 2 <= |line| && DoubleStarAt(line, r.value)
    ensures forall k :: from <= k && k + 2 <= |line| && (r.None? || k < r.value) ==> !DoubleStarAt(line, k)
    decreases |line| - from
  {
    if from + 2 > |line| then None
    else if DoubleStarAt(line, from) then Some(from)
    else IndexOfDoubleStar(line, from + 1)
  }

  /** `line.IndexOf(c, from)`. */
  function IndexOfChar(line: string, c: char, from: nat): (r: Option<nat>)
    requires from <= |line|
    ensures r.Some? ==> from <= r.value < |line| && line[r.value] == c
    ensures forall k :: from <= k < |line| && (r.None? || k < r.value) ==> line[k] != c
    decreases |line| - from
  {
    if from == |line| then None
    else if line[from] == c then Some(from)
    else IndexOfChar(line, c, from + 1)
  }

  /** `line.IndexOfAny(new[] { '*', '`' }, from)`. */
  function IndexOfSpecial(line: string, from: nat): (r: Option<nat>)
    requires from <= |line|
    ensures r.Some? ==> from <= r.value < |line| && IsSpecial(line[r.value])
    ensures forall k :: from <= k < |line| && (r.None? || k < r.value) ==> !IsSpecial(line[k])
    decreases |line| - from
  {
    if from == |line| then None
    else if IsSpecial(line[from]) then Some(from)
    else IndexOfSpecial(line, from + 1)
  }

  // ---------------------------------------------------------------------------------------
  // ProcessInlineElements

  /** A leading `-` is shown as a bullet. */
  function Bullet(line: string): (r: string)
    ensures |r| == |line| && (|line| > 0 ==> r[1..] == line[1..])
    ensures StartsWith(line, "-") ==> r[0] == '•'
    ensures !StartsWith(line, "-") ==> r == line
  {
    if StartsWith(line, "-") then "•" + line[1..] else line
  }

  function Prepend(run: Run, rest: Outcome<Element>): Outcome<Element> {
    if rest.Returns? then Returns([run] + rest.value) else rest
  }

  function PrependRuns(runs: Element, rest: Outcome<Element>): Outcome<Element> {
    if rest.Returns? then Returns(runs + rest.value) else rest
  }

  /** The runs the scanner produces from `index` to the end of `line`; every run consumes
      at least one character, so there are never more runs than characters left. */
  function InlineFrom(line: string, index: nat): (r: Outcome<Element>)
    requires index <= |line|
    ensures r.Returns? ==> |r.value| <= |line| - index
    decreases |line| - index
  {
    if index == |line| then Returns([])
    else if OpensBold(line, index) then
      match IndexOfDoubleStar(line, index + 2)
      case Some(endBold) => Prepend(Run(Bold, line[index + 2..endBold]), InlineFrom(line, endBold + 2))
      case None => Returns([Run(Plain, line[index..])])
    else if line[index] == '`' then
      match IndexOfChar(line, '`', index + 1)
      case Some(endCode) => Prepend(Run(Code, line[index + 1..endCode]), InlineFrom(line, endCode + 1))
      case None => Returns([Run(Plain, line[index..])])
    else
      match IndexOfSpecial(line, index)
      case None => Returns([Run(Plain, line[index..])])
      case Some(nextSpecial) =>
        if nextSpecial == index then Diverges
        else Prepend(Run(Plain, line[index..nextSpecial]), InlineFrom(line, nextSpecial))
  }

  /** The element one trimmed, non-fence line becomes: when it is computed, its runs with
      their markers restored give back the line, a leading `-` shown as a bullet. */
  function InlineRuns(line: string): (r: Outcome<Element>)
    ensures r.Returns? ==> Unparse(r.value) == Bullet(line)
  {
    InlineRoundTrip(Bullet(line), 0);
    InlineFrom(Bullet(line), 0)
  }

  lemma PrependRunsStep(runs: Element, run: Run, rest: Outcome<Element>)
    ensures PrependRuns(runs, Prepend(run, rest)) == PrependRuns(runs + [run], rest)
  {
    if rest.Returns? {
      assert runs + ([run] + rest.value) == runs + [run] + rest.value;
    }
  }

  /** What one iteration of the scanner's loop at `index` achieves: it emits `run` and
      resumes at `next` (`-1` when this run was the last one), or it is `stuck`, leaving
      `index` where it was. */
  ghost predicate ScanSpec(text: string, index: nat, run: Run, next: int, stuck: bool)
    requires index < |text|
  {
    && (stuck ==> InlineFrom(text, index) == Diverges)
    && (!stuck && next < 0 ==> InlineFrom(text, index) == Returns([run]))
    && (!stuck && next >= 0 ==>
          index < next <= |text| && InlineFrom(text, index) == Prepend(run, InlineFrom(text, next)))
  }

  /** One iteration of the scanner's loop. */
  method ScanRun(text: string, index: nat) returns (run: Run, next: int, stuck: bool)
    requires index < |text|
    ensures ScanSpec(text, index, run, next, stuck)
  {
    if OpensBold(text, index) {
      run, next := ScanBold(text, index);
      stuck := false;
    } else if text[index] == '`' {
      run, next := ScanCode(text, index);
      stuck := false;
    } else {
      run, next, stuck := ScanPlain(text, index);
    }
  }

  /** The iteration on `**`: a bold run up to the closing `**`, or the rest of the line. */
  method ScanBold(text: string, index: nat) returns (run: Run, next: int)
    requires index < |text| && OpensBold(text, index)
    ensures ScanSpec(text, index, run, next, false)
  {
    var endBold := IndexOfDoubleStar(text, index + 2);
    if endBold.Some? {
      run, next := Run(Bold, text[index + 2..endBold.value]), endBold.value + 2;
      BoldClosed(text, index, endBold.value, run, next);
    } else {
      run, next := Run(Plain, text[index..]), -1;
      UnterminatedMarker(text, index);
    }
  }

  /** The iteration on a backtick: a code run up to the closing one, or the rest of the line. */
  method ScanCode(text: string, index: nat) returns (run: Run, next: int)
    requires index < |text| && !OpensBold(text, index) && text[index] == '`'
    ensures ScanSpec(text, index, run, next, false)
  {
    var endCode := IndexOfChar(text, '`', index + 1);
    if endCode.Some? {
      run, next := Run(Code, text[index + 1..endCode.value]), endCode.value + 1;
      CodeClosed(text, index, endCode.value, run, next);
    } else {
      run, next := Run(Plain, text[index..]), -1;
      UnterminatedMarker(text, index);
    }
  }

  /** The iteration on anything else: plain text up to the next special character. */
  method ScanPlain(text: string, index: nat) returns (run: Run, next: int, stuck: bool)
    requires index < |text| && !OpensBold(text, index) && text[index] != '`'
    ensures ScanSpec(text, index, run, next, stuck)
  {
    var nextSpecial := IndexOfSpecial(text, index);
    next, stuck := -1, false;
    if nextSpecial.None? {
      run := Run(Plain, text[index..]);
      PlainRest(text, index);
    } else if nextSpecial.value == index {
      // the source sets index to itself and repeats this iteration forever
      run, stuck := Run(Plain, []), true;
    } else {
      run := Run(Plain, text[index..nextSpecial.value]);
      next := nextSpecial.value;
      PlainStep(text, index, nextSpecial.value);
    }
  }

  method ProcessInlineElements(line: string) returns (r: Outcome<Element>)
    ensures r == InlineRuns(line)
  {
    var runs: Element := [];
    var index := 0;
    var text := line;
    if StartsWith(text, "-") {
      text := "•" + text[1..];
    }
    assert PrependRuns(runs, InlineFrom(text, index)) == InlineFrom(text, index) by {
      if InlineFrom(text, index).Returns? {
        assert runs + InlineFrom(text, index).value == InlineFrom(text, index).value;
      }
    }
    while index < |text|
      invariant text == Bullet(line) && index <= |text|
      invariant InlineRuns(line) == PrependRuns(runs, InlineFrom(text, index))
      decreases |text| - index
    {
      var run, next, stuck := ScanRun(text, index);
      if stuck {
        return Diverges;
      }
      if next < 0 {
        runs := runs + [run];
        break;
      }
      PrependRunsStep(runs, run, InlineFrom(text, next));
      runs := runs + [run];
      index := next;
    }
    assert InlineRuns(line) == Returns(runs) by {
      if index == |text| {
        assert runs + [] == runs;
      }
    }
    return Returns(runs);
  }

  /** The Markdown a run stands for: its text with the markers the scanner dropped. */
  function Source(run: Run): string {
    match run.kind
    case Bold => "**" + run.text + "**"
    case Code => "`" + run.text + "`"
    case _ => run.text
  }

  function Unparse(runs: Element): string {
    if runs == [] then "" else Source(runs[0]) + Unparse(runs[1..])
  }

  lemma UnparseCons(run: Run, rest: Element)
    ensures Unparse([run] + rest) == Source(run) + Unparse(rest)
  {
    assert ([run] + rest)[1..] == rest;
  }

  lemma RoundTripCons(line: string, index: nat, next: nat, run: Run, rest: Outcome<Element>)
    requires index <= next <= |line| && Source(run) == line[index..next]
    requires rest.Returns? ==> Unparse(rest.value) == line[next..]
    ensures Prepend(run, rest).Returns? ==> Unparse(Prepend(run, rest).value) == line[index..]
  {
    if rest.Returns? {
      UnparseCons(run, rest.value);
      assert line[index..] == line[index..next] + line[next..];
    }
  }

  /** A closed bold marker: one bold run, and the scan resumes after the closing `**`. */
  lemma BoldStep(line: string, index: nat, e: nat)
    requires index < |line| && OpensBold(line, index) && IndexOfDoubleStar(line, index + 2) == Some(e)
    ensures InlineFrom(line, index) == Prepend(Run(Bold, line[index + 2..e]), InlineFrom(line, e + 2))
    ensures Source(Run(Bold, line[index + 2..e])) == line[index..e + 2]
  {
    BoldSource(line, index, e);
  }

  lemma BoldSource(line: string, index: nat, e: nat)
    requires index + 2 <= e && e + 2 <= |line| && DoubleStarAt(line, index) && DoubleStarAt(line, e)
    ensures Source(Run(Bold, line[index + 2..e])) == line[index..e + 2]
  {
    assert line[index..index + 2] == "**" == line[e..e + 2];
    assert line[index..e + 2] == line[index..index + 2] + line[index + 2..e] + line[e..e + 2];
  }

  /** A closed code marker: one code run, and the scan resumes after the closing backtick. */
  lemma CodeStep(line: string, index: nat, e: nat)
    requires index < |line| && !OpensBold(line, index) && line[index] == '`'
    requires IndexOfChar(line, '`', index + 1) == Some(e)
    ensures InlineFrom(line, index) == Prepend(Run(Code, line[index + 1..e]), InlineFrom(line, e + 1))
    ensures Source(Run(Code, line[index + 1..e])) == line[index..e + 1]
  {
    CodeSource(line, index, e);
  }

  lemma CodeSource(line: string, index: nat, e: nat)
    requires index < e < |line| && line[index] == '`' && line[e] == '`'
    ensures Source(Run(Code, line[index + 1..e])) == line[index..e + 1]
  {
    assert line[index..e + 1] == [line[index]] + line[index + 1..e] + [line[e]];
  }

  /** Plain text up to the next special character, where the scan resumes. */
  lemma PlainStep(line: string, index: nat, e: nat)
    requires index < |line| && !OpensBold(line, index) && line[index] != '`'
    requires IndexOfSpecial(line, index) == Some(e) && e != index
    ensures InlineFrom(line, index) == Prepend(Run(Plain, line[index..e]), InlineFrom(line, e))
    ensures Source(Run(Plain, line[index..e])) == line[index..e]
  {
  }

  /** A scan that ends in one plain run of the rest of the line gives that rest back. */
  lemma PlainTail(line: string, index: nat)
    requires index < |line| && InlineFrom(line, index) == Returns([Run(Plain, line[index..])])
    ensures Unparse(InlineFrom(line, index).value) == line[index..]
  {
    UnparseCons(Run(Plain, line[index..]), []);
    assert [Run(Plain, line[index..])] + [] == [Run(Plain, line[index..])];
  }

  /** One step of the scanner: the first run and where the scan resumes, the markers the
      run dropped lying between `index` and `next`. */
  lemma InlineStep(line: string, index: nat) returns (run: Run, next: nat)
    requires index < |line|
    ensures index < next <= |line| && Source(run) == line[index..next]
    ensures InlineFrom(line, index).Returns? ==> InlineFrom(line, index) == Prepend(run, InlineFrom(line, next))
  {
    if OpensBold(line, index) {
      run, next := BoldNext(line, index);
    } else if line[index] == '`' {
      run, next := CodeNext(line, index);
    } else {
      run, next := PlainNext(line, index);
    }
  }

  /** The whole rest of the line as the last, plain run. */
  lemma LastRun(line: string, index: nat)
    requires index < |line| && InlineFrom(line, index) == Returns([Run(Plain, line[index..])])
    ensures InlineFrom(line, index) == Prepend(Run(Plain, line[index..]), InlineFrom(line, |line|))
  {
    assert [Run(Plain, line[index..])] + [] == [Run(Plain, line[index..])];
  }

  /** An unterminated marker as a step that ends the scan. */
  lemma UnterminatedRun(line: string, index: nat)
    requires index < |line|
    requires
      || (OpensBold(line, index) && IndexOfDoubleStar(line, index + 2).None?)
      || (!OpensBold(line, index) && line[index] == '`' && IndexOfChar(line, '`', index + 1).None?)
    ensures InlineFrom(line, index) == Prepend(Run(Plain, line[index..]), InlineFrom(line, |line|))
    ensures Source(Run(Plain, line[index..])) == line[index..|line|]
  {
    UnterminatedMarker(line, index);
    LastRun(line, index);
  }

  lemma BoldNext(line: string, index: nat) returns (run: Run, next: nat)
    requires index < |line| && OpensBold(line, index)
    ensures index < next <= |line| && Source(run) == line[index..next]
    ensures InlineFrom(line, index) == Prepend(run, InlineFrom(line, next))
  {
    var endBold := IndexOfDoubleStar(line, index + 2);
    if endBold.Some? {
      run, next := Run(Bold, line[index + 2..endBold.value]), endBold.value + 2;
      BoldClosed(line, index, endBold.value, run, next);
      BoldSource(line, index, endBold.value);
    } else {
      run, next := UnterminatedNext(line, index);
    }
  }

  /** The closed bold step, stated for the run and resume position a caller computed. */
  lemma BoldClosed(line: string, index: nat, e: nat, run: Run, next: nat)
    requires index < |line| && OpensBold(line, index) && IndexOfDoubleStar(line, index + 2) == Some(e)
    requires run == Run(Bold, line[index + 2..e]) && next == e + 2
    ensures index < next <= |line|
    ensures InlineFrom(line, index) == Prepend(run, InlineFrom(line, next))
  {
    BoldStep(line, index, e);
  }

  /** An unterminated marker as a step to the end of the line. */
  lemma UnterminatedNext(line: string, index: nat) returns (run: Run, next: nat)
    requires index < |line|
    requires
      || (OpensBold(line, index) && IndexOfDoubleStar(line, index + 2).None?)
      || (!OpensBold(line, index) && line[index] == '`' && IndexOfChar(line, '`', index + 1).None?)
    ensures index < next <= |line| && Source(run) == line[index..next]
    ensures InlineFrom(line, index) == Prepend(run, InlineFrom(line, next))
  {
    run, next := Run(Plain, line[index..]), |line|;
    UnterminatedRun(line, index);
  }

  lemma CodeNext(line: string, index: nat) returns (run: Run, next: nat)
    requires index < |line| && !OpensBold(line, index) && line[index] == '`'
    ensures index < next <= |line| && Source(run) == line[index..next]
    ensures InlineFrom(line, index) == Prepend(run, InlineFrom(line, next))
  {
    var endCode := IndexOfChar(line, '`', index + 1);
    if endCode.Some? {
      run, next := Run(Code, line[index + 1..endCode.value]), endCode.value + 1;
      CodeClosed(line, index, endCode.value, run, next);
      CodeSource(line, index, endCode.value);
    } else {
      run, next := UnterminatedNext(line, index);
    }
  }

  /** The closed code step, stated for the run and resume position a caller computed. */
  lemma CodeClosed(line: string, index: nat, e: nat, run: Run, next: nat)
    requires index < |line| && !OpensBold(line, index) && line[index] == '`'
    requires IndexOfChar(line, '`', index + 1) == Some(e)
    requires run == Run(Code, line[index + 1..e]) && next == e + 1
    ensures index < next <= |line|
    ensures InlineFrom(line, index) == Prepend(run, InlineFrom(line, next))
  {
    CodeStep(line, index, e);
  }

  lemma PlainNext(line: string, index: nat) returns (run: Run, next: nat)
    requires index < |line| && !OpensBold(line, index) && line[index] != '`'
    ensures index < next <= |line| && Source(run) == line[index..next]
    ensures InlineFrom(line, index).Returns? ==> InlineFrom(line, index) == Prepend(run, InlineFrom(line, next))
  {
    var nextSpecial := IndexOfSpecial(line, index);
    run, next := Run(Plain, line[index..]), |line|;
    if nextSpecial.None? {
      PlainRest(line, index);
      LastRun(line, index);
    } else if nextSpecial.value != index {
      run, next := Run(Plain, line[index..nextSpecial.value]), nextSpecial.value;
      PlainStep(line, index, nextSpecial.value);
    }
  }

  /** The scanner loses nothing: putting the dropped markers back around the bold and code
      runs and concatenating all runs gives the scanned text back. */
  lemma {:induction false} InlineRoundTrip(line: string, index: nat)
    requires index <= |line|
    ensures InlineFrom(line, index).Returns? ==> Unparse(InlineFrom(line, index).value) == line[index..]
    decreases |line| - index
  {
    if index < |line| {
      var run, next := InlineStep(line, index);
      InlineRoundTrip(line, next);
      RoundTripCons(line, index, next, run, InlineFrom(line, next));
    }
  }

  /** A `*` that does not start `**` stops the scanner for good. */
  lemma LoneStarDiverges(line: string, index: nat)
    requires index < |line| && line[index] == '*'
    requires index + 1 == |line| || line[index + 1] != '*'
    ensures InlineFrom(line, index) == Diverges
  {
  }

  /** Without any `*` the scanner always finishes. */
  lemma {:induction false} NoStarTerminates(line: string, index: nat)
    requires index <= |line|
    requires forall k :: index <= k < |line| ==> line[k] != '*'
    ensures InlineFrom(line, index).Returns?
    decreases |line| - index
  {
    if index < |line| {
      assert !OpensBold(line, index);
      if line[index] == '`' {
        var endCode := IndexOfChar(line, '`', index + 1);
        if endCode.Some? {
          NoStarTerminates(line, endCode.value + 1);
          CodeStep(line, index, endCode.value);
        } else {
          UnterminatedMarker(line, index);
        }
      } else {
        var nextSpecial := IndexOfSpecial(line, index);
        if nextSpecial.Some? {
          NoStarTerminates(line, nextSpecial.value);
          PlainStep(line, index, nextSpecial.value);
        } else {
          PlainRest(line, index);
        }
      }
    }
  }

  /** A non-empty rest of a line without `*` or backtick is one plain run. */
  lemma PlainRest(line: string, index: nat)
    requires index < |line| && forall k :: index <= k < |line| ==> !IsSpecial(line[k])
    ensures InlineFrom(line, index) == Returns([Run(Plain, line[index..])])
  {
  }

  /** The next special character is the first one. */
  lemma NextSpecialAt(line: string, from: nat, k: nat)
    requires from <= k < |line| && IsSpecial(line[k])
    requires forall j :: from <= j < k ==> !IsSpecial(line[j])
    ensures IndexOfSpecial(line, from) == Some(k)
  {
  }

  /** Where `**b**` puts its markers and its text. */
  lemma BoldLayout(line: string, index: nat, b: string)
    requires index + |b| + 4 <= |line| && line[index..index + |b| + 4] == "**" + b + "**"
    requires forall k :: 0 <= k < |b| ==> b[k] != '*'
    ensures OpensBold(line, index) && DoubleStarAt(line, index + 2 + |b|)
    ensures line[index + 2..index + 2 + |b|] == b
    ensures forall k :: index + 2 <= k < index + 2 + |b| ==> line[k] != '*'
  {
    var w := line[index..index + |b| + 4];
    assert line[index] == w[0] && line[index + 1] == w[1];
    assert line[index + 2 + |b|] == w[|b| + 2] && line[index + 3 + |b|] == w[|b| + 3];
    assert w[2..|b| + 2] == b;
    forall j | 0 <= j < |b|
      ensures line[index + 2 + j] == b[j]
    {
      assert line[index + 2 + j] == w[2 + j];
    }
  }

  /** `**b**` with no `*` inside `b` is one bold run `b`, and the scan resumes after it. */
  lemma BoldRun(line: string, index: nat, b: string)
    requires index + |b| + 4 <= |line| && line[index..index + |b| + 4] == "**" + b + "**"
    requires forall k :: 0 <= k < |b| ==> b[k] != '*'
    ensures InlineFrom(line, index) == Prepend(Run(Bold, b), InlineFrom(line, index + |b| + 4))
  {
    BoldLayout(line, index, b);
    var e := index + 2 + |b|;
    var r := IndexOfDoubleStar(line, index + 2);
    assert r == Some(e) by {
      assert r.Some? && r.value <= e;
      assert line[r.value] == '*';
    }
    BoldStep(line, index, e);
    assert e + 2 == index + |b| + 4 && line[index + 2..e] == b;
  }

  /** Where a backtick-delimited `c` puts its markers and its text. */
  lemma CodeLayout(line: string, index: nat, c: string)
    requires index + |c| + 2 <= |line| && line[index..index + |c| + 2] == "`" + c + "`"
    requires forall k :: 0 <= k < |c| ==> c[k] != '`'
    ensures line[index] == '`' && line[index + 1 + |c|] == '`'
    ensures line[index + 1..index + 1 + |c|] == c
    ensures forall k :: index + 1 <= k < index + 1 + |c| ==> line[k] != '`'
  {
    var w := line[index..index + |c| + 2];
    assert line[index] == w[0] && line[index + 1 + |c|] == w[|c| + 1];
    assert w[1..|c| + 1] == c;
    forall j | 0 <= j < |c|
      ensures line[index + 1 + j] == c[j]
    {
      assert line[index + 1 + j] == w[1 + j];
    }
  }

  /** A backtick-delimited `c` with no backtick inside is one code run `c`. */
  lemma CodeRun(line: string, index: nat, c: string)
    requires index + |c| + 2 <= |line| && line[index..index + |c| + 2] == "`" + c + "`"
    requires forall k :: 0 <= k < |c| ==> c[k] != '`'
    ensures InlineFrom(line, index) == Prepend(Run(Code, c), InlineFrom(line, index + |c| + 2))
  {
    CodeLayout(line, index, c);
    var e := index + 1 + |c|;
    var r := IndexOfChar(line, '`', index + 1);
    assert r == Some(e) by {
      assert r.Some? && r.value <= e;
    }
    CodeStep(line, index, e);
    assert e + 1 == index + |c| + 2 && line[index + 1..e] == c;
  }

  /** An unterminated `**` or backtick makes the rest of the line, marker included, one
      plain run, and the scan ends there. */
  lemma UnterminatedMarker(line: string, index: nat)
    requires index < |line|
    requires
      || (OpensBold(line, index) && IndexOfDoubleStar(line, index + 2).None?)
      || (!OpensBold(line, index) && line[index] == '`' && IndexOfChar(line, '`', index + 1).None?)
    ensures InlineFrom(line, index) == Returns([Run(Plain, line[index..])])
  {
  }

  /** A bold span followed by plain text up to the end of the line: two runs. */
  lemma BoldThenText(line: string, start: nat, b: string, c: string)
    requires start + |b| + 4 + |c| == |line| && line[start..start + |b| + 4] == "**" + b + "**"
    requires line[start + |b| + 4..] == c
    requires forall k :: 0 <= k < |b| ==> b[k] != '*'
    requires c != [] && forall k :: 0 <= k < |c| ==> !IsSpecial(c[k])
    ensures InlineFrom(line, start) == Returns([Run(Bold, b), Run(Plain, c)])
  {
    var m := start + |b| + 4;
    BoldRun(line, start, b);
    forall k | m <= k < |line|
      ensures !IsSpecial(line[k])
    {
      assert line[k] == line[m..][k - m];
    }
    PlainRest(line, m);
    assert [Run(Bold, b)] + [Run(Plain, c)] == [Run(Bold, b), Run(Plain, c)];
  }

  /** Text, a bold span and text: three runs, the markers dropped. */
  lemma BoldInText(a: string, b: string, c: string)
    requires a != [] && a[0] != '-' && forall k :: 0 <= k < |a| ==> !IsSpecial(a[k])
    requires forall k :: 0 <= k < |b| ==> b[k] != '*'
    requires c != [] && forall k :: 0 <= k < |c| ==> !IsSpecial(c[k])
    ensures InlineRuns(a + "**" + b + "**" + c) == Returns([Run(Plain, a), Run(Bold, b), Run(Plain, c)])
  {
    TextBoldTextLayout(a, b, c);
    PlainThenBold(a + "**" + b + "**" + c, a, b, c);
  }

  lemma TextBoldTextLayout(a: string, b: string, c: string)
    requires a != [] && a[0] != '-' && forall k :: 0 <= k < |a| ==> !IsSpecial(a[k])
    ensures var line := a + "**" + b + "**" + c;
      && |line| == |a| + |b| + 4 + |c| && Bullet(line) == line && line[|a|] == '*'
      && (forall j :: 0 <= j < |a| ==> !IsSpecial(line[j]))
      && line[0..|a|] == a && line[|a|..|a| + |b| + 4] == "**" + b + "**" && line[|a| + |b| + 4..] == c
  {
    var line := a + "**" + b + "**" + c;
    assert Bullet(line) == line by { assert line[0] == a[0]; }
    forall j | 0 <= j < |a|
      ensures !IsSpecial(line[j])
    {
      assert line[j] == a[j];
    }
  }

  /** Plain text up to a bold span followed by plain text: three runs. */
  lemma PlainThenBold(line: string, a: string, b: string, c: string)
    requires |line| == |a| + |b| + 4 + |c| && a != [] && line[|a|] == '*'
    requires forall j :: 0 <= j < |a| ==> !IsSpecial(line[j])
    requires line[0..|a|] == a && line[|a|..|a| + |b| + 4] == "**" + b + "**" && line[|a| + |b| + 4..] == c
    requires forall k :: 0 <= k < |b| ==> b[k] != '*'
    requires c != [] && forall k :: 0 <= k < |c| ==> !IsSpecial(c[k])
    ensures InlineFrom(line, 0) == Returns([Run(Plain, a), Run(Bold, b), Run(Plain, c)])
  {
    NextSpecialAt(line, 0, |a|);
    PlainStep(line, 0, |a|);
    BoldThenText(line, |a|, b, c);
    assert [Run(Plain, a)] + [Run(Bold, b), Run(Plain, c)] == [Run(Plain, a), Run(Bold, b), Run(Plain, c)];
  }

  /** The example of the documentation. */
  lemma BoldExample()
    ensures InlineRuns("This has **bold** text.") ==
      Returns([Run(Plain, "This has "), Run(Bold, "bold"), Run(Plain, " text.")])
  {
    assert "This has **bold** text." == "This has " + "**" + "bold" + "**" + " text.";
    BoldInText("This has ", "bold", " text.");
  }

  // ---------------------------------------------------------------------------------------
  // Convert

  /** `s.StartsWith("```")`: the line opens or closes a fenced code block. */
  predicate IsFence(s: string): (b: bool)
    ensures b <==> StartsWith(s, "```")
  {
    |s| >= 3 && s[0] == '`' && s[1] == '`' && s[2] == '`'
  }

  /** The first line at or after `from` that starts, untrimmed, with a fence. */
  function FenceEnd(lines: seq<string>, from: nat): (k: nat)
    requires from <= |lines|
    ensures from <= k <= |lines|
    ensures forall j :: from <= j < k ==> !IsFence(lines[j])
    ensures k < |lines| ==> IsFence(lines[k])
    decreases |lines| - from
  {
    if from == |lines| || IsFence(lines[from]) then from else FenceEnd(lines, from + 1)
  }

  /** The pieces appended one after the other, with no separator. */
  function Concat(pieces: seq<string>): string {
    if pieces == [] then "" else Concat(pieces[..|pieces| - 1]) + pieces[|pieces| - 1]
  }

  /** The text of a fenced block: its lines run together, trailing white space removed. */
  function FencedText(lines: seq<string>, from: nat, to: nat): string
    requires from <= to <= |lines|
  {
    TrimEnd(Concat(lines[from..to]))
  }

  /** The paragraph being accumulated, as the list of blocks it contributes. */
  function Flush(current: seq<Element>): (bs: seq<Block>)
    ensures |bs| <= 1 && (bs == [] <==> current == [])
  {
    if current == [] then [] else [current]
  }

  function PrependBlocks(bs: seq<Block>, rest: Outcome<seq<Block>>): Outcome<seq<Block>> {
    if rest.Returns? then Returns(bs + rest.value) else rest
  }

  /** What the converter does with line `i`: the blocks the line closes, the line it moves
      on to and the paragraph it accumulates after it. */
  datatype Step = Step(closed: seq<Block>, next: nat, current: seq<Element>)

  /** One iteration of `Convert`'s loop: a blank line closes the paragraph, a fence takes
      every line up to the closing fence as one code element, and any other line becomes
      one element of inline runs. */
  function Advance(lines: seq<string>, i: nat, current: seq<Element>): (o: Outcome<Step>)
    requires i < |lines|
    ensures o.Returns? ==> i < o.value.next <= |lines| + 1
  {
    var line := Trim(lines[i]);
    if line == [] then Returns(Step(Flush(current), i + 1, []))
    else if IsFence(line) then
      var k := FenceEnd(lines, i + 1);
      Returns(Step([], k + 1, current + [[Run(Markup, FencedText(lines, i + 1, k))]]))
    else
      var element := InlineRuns(line);
      if element.Returns? then Returns(Step([], i + 1, current + [element.value])) else Diverges
  }

  /** What the converter emits from line `i` on, with `current` the elements of the
      paragraph accumulated so far. */
  function BlocksFrom(lines: seq<string>, i: nat, current: seq<Element>): Outcome<seq<Block>>
    requires i <= |lines| + 1
    decreases |lines| + 1 - i
  {
    if i >= |lines| then Returns(Flush(current))
    else
      var o := Advance(lines, i, current);
      if o.Returns? then PrependBlocks(o.value.closed, BlocksFrom(lines, o.value.next, o.value.current))
      else Diverges
  }

  /** The blocks `Convert` returns for a whole Markdown text; none of them is empty. */
  function Converted(markdown: string): (r: Outcome<seq<Block>>)
    ensures r.Returns? ==> forall k :: 0 <= k < |r.value| ==> r.value[k] != []
  {
    BlocksNonEmpty(Split(markdown, '\n'), 0, []);
    BlocksFrom(Split(markdown, '\n'), 0, [])
  }

  lemma PrependBlocksAssoc(done: seq<Block>, more: seq<Block>, rest: Outcome<seq<Block>>)
    ensures PrependBlocks(done, PrependBlocks(more, rest)) == PrependBlocks(done + more, rest)
  {
    if rest.Returns? {
      assert done + (more + rest.value) == done + more + rest.value;
    }
  }

  /** The inner loop of `Convert`: the lines of a fenced block, up to the closing fence or
      the end of the text, run together. */
  method CollectCode(lines: seq<string>, first: nat) returns (code: string, i: nat)
    requires first <= |lines|
    ensures i == FenceEnd(lines, first) && code == Concat(lines[first..i])
  {
    code, i := "", first;
    while i < |lines| && !IsFence(lines[i])
      invariant first <= i <= |lines|
      invariant code == Concat(lines[first..i])
      invariant FenceEnd(lines, i) == FenceEnd(lines, first)
    {
      ConcatSnoc(lines, first, i);
      code := code + lines[i];
      i := i + 1;
    }
  }

  lemma ConcatSnoc(lines: seq<string>, first: nat, i: nat)
    requires first <= i < |lines|
    ensures Concat(lines[first..i + 1]) == Concat(lines[first..i]) + lines[i]
  {
    assert lines[first..i + 1][..i - first] == lines[first..i];
  }

  /** One iteration of `Convert`'s loop at line `i`. */
  method ConvertLine(lines: seq<string>, i: nat, currentElements: seq<Element>)
    returns (closed: seq<Block>, next: nat, current: seq<Element>, stuck: bool)
    requires i < |lines|
    ensures var o := Advance(lines, i, currentElements);
      && (stuck <==> !o.Returns?)
      && (!stuck ==> o.value.closed == closed && o.value.next == next && o.value.current == current)
  {
    closed, next, current, stuck := [], i + 1, currentElements, false;
    var line := Trim(lines[i]);
    if line == [] {
      if |currentElements| > 0 {
        closed := [currentElements];
        current := [];
      }
    } else if IsFence(line) {
      var codeBlock;
      codeBlock, next := CollectCode(lines, i + 1);
      current := currentElements + [[Run(Markup, TrimEnd(codeBlock))]];
      next := next + 1;
    } else {
      var element := ProcessInlineElements(line);
      if !element.Returns? {
        stuck := true;
        return;
      }
      current := currentElements + [element.value];
    }
  }

  method Convert(markdown: string) returns (r: Outcome<seq<Block>>)
    ensures r == Converted(markdown)
  {
    var containers: seq<Block> := [];
    var lines := Split(markdown, '\n');
    var currentElements: seq<Element> := [];
    var i := 0;
    ghost var whole := BlocksFrom(lines, 0, []);
    assert PrependBlocks([], whole) == whole by {
      if whole.Returns? {
        assert [] + whole.value == whole.value;
      }
    }
    while i < |lines|
      invariant i <= |lines| + 1
      invariant whole == PrependBlocks(containers, BlocksFrom(lines, i, currentElements))
      decreases |lines| + 1 - i
    {
      var closed, next, current, stuck := ConvertLine(lines, i, currentElements);
      if stuck {
        return Diverges;
      }
      PrependBlocksAssoc(containers, closed, BlocksFrom(lines, next, current));
      containers, i, currentElements := containers + closed, next, current;
    }
    if |currentElements| > 0 {
      containers := containers + [currentElements];
    } else {
      assert containers + [] == containers;
    }
    return Returns(containers);
  }

  // ---------------------------------------------------------------------------------------
  // What Convert promises

  /** A blank line contributes no element and closes the paragraph; any other line, or
      fenced block, appends its elements to the paragraph and closes nothing. */
  lemma AdvanceShape(lines: seq<string>, i: nat, current: seq<Element>)
    requires i < |lines|
    ensures Advance(lines, i, current).Returns? <==> Advance(lines, i, []).Returns?
    ensures Advance(lines, i, current).Returns? ==>
      var s, e := Advance(lines, i, current).value, Advance(lines, i, []).value;
      && s.next == e.next
      && (Trim(lines[i]) == [] ==> s.closed == Flush(current) && s.current == [] && e.current == [])
      && (Trim(lines[i]) != [] ==> s.closed == [] && e.closed == [] && s.current == current + e.current)
  {
    if Trim(lines[i]) != [] && Advance(lines, i, current).Returns? {
      assert Advance(lines, i, []).value.current == [] + Advance(lines, i, []).value.current;
    }
  }

  /** Every block `Convert` returns holds at least one element: paragraphs are only closed
      when something was accumulated. */
  lemma {:induction false} BlocksNonEmpty(lines: seq<string>, i: nat, current: seq<Element>)
    requires i <= |lines| + 1
    ensures BlocksFrom(lines, i, current).Returns? ==>
      forall k :: 0 <= k < |BlocksFrom(lines, i, current).value| ==> BlocksFrom(lines, i, current).value[k] != []
    decreases |lines| + 1 - i
  {
    if i < |lines| {
      var o := Advance(lines, i, current);
      if o.Returns? {
        BlocksNonEmpty(lines, o.value.next, o.value.current);
        AdvanceShape(lines, i, current);
      }
    }
  }

  /** The blocks run together. */
  function Flatten(blocks: seq<Block>): seq<Element> {
    if blocks == [] then [] else blocks[0] + Flatten(blocks[1..])
  }

  lemma {:induction false} FlattenAppend(a: seq<Block>, b: seq<Block>)
    ensures Flatten(a + b) == Flatten(a) + Flatten(b)
  {
    if a == [] {
      assert a + b == b;
    } else {
      assert (a + b)[0] == a[0] && (a + b)[1..] == a[1..] + b;
      FlattenAppend(a[1..], b);
      assert a[0] + (Flatten(a[1..]) + Flatten(b)) == a[0] + Flatten(a[1..]) + Flatten(b);
    }
  }

  function PrependElements(es: seq<Element>, rest: Outcome<seq<Element>>): Outcome<seq<Element>> {
    if rest.Returns? then Returns(es + rest.value) else rest
  }

  /** The elements the lines from `i` on contribute, paragraphs aside. */
  function ElementsFrom(lines: seq<string>, i: nat): Outcome<seq<Element>>
    requires i <= |lines| + 1
    decreases |lines| + 1 - i
  {
    if i >= |lines| then Returns([])
    else
      var o := Advance(lines, i, []);
      if o.Returns? then PrependElements(o.value.current, ElementsFrom(lines, o.value.next)) else Diverges
  }

  /** Grouping into paragraphs loses, adds and reorders nothing: the blocks, run together,
      are the accumulated elements followed by the element of every later non-blank line
      and fenced block, in order. */
  lemma {:induction false} BlocksFlatten(lines: seq<string>, i: nat, current: seq<Element>)
    requires i <= |lines| + 1
    ensures BlocksFrom(lines, i, current).Returns? <==> ElementsFrom(lines, i).Returns?
    ensures BlocksFrom(lines, i, current).Returns? ==>
      Flatten(BlocksFrom(lines, i, current).value) == current + ElementsFrom(lines, i).value
    decreases |lines| + 1 - i
  {
    if i >= |lines| {
      FlattenFlush(current);
    } else {
      var o := Advance(lines, i, current);
      AdvanceShape(lines, i, current);
      if o.Returns? {
        var s, e := o.value, Advance(lines, i, []).value;
        BlocksFlatten(lines, s.next, s.current);
        var rest := BlocksFrom(lines, s.next, s.current);
        if rest.Returns? {
          FlattenAppend(s.closed, rest.value);
          if Trim(lines[i]) == [] {
            FlattenFlush(current);
            BlankFlatten(current, ElementsFrom(lines, s.next).value);
          } else {
            assert s.closed == [];
            SeqAssoc(current, e.current, ElementsFrom(lines, s.next).value);
          }
        }
      }
    }
  }

  lemma FlattenFlush(current: seq<Element>)
    ensures Flatten(Flush(current)) == current
  {
    if current != [] {
      assert Flatten([current]) == current + Flatten([]);
    }
  }

  lemma BlankFlatten(current: seq<Element>, rest: seq<Element>)
    ensures PrependElements([], Returns(rest)) == Returns(rest)
  {
    assert [] + rest == rest;
  }

  lemma SeqAssoc<T>(a: seq<T>, b: seq<T>, c: seq<T>)
    ensures a + b + c == a + (b + c)
  {
  }

  /** Lines that are all white space produce nothing. */
  lemma {:induction false} BlankLinesNoBlocks(lines: seq<string>, i: nat)
    requires i <= |lines| + 1
    requires forall k :: i <= k < |lines| ==> Trim(lines[k]) == []
    ensures BlocksFrom(lines, i, []).Returns? && BlocksFrom(lines, i, []).value == []
    decreases |lines| + 1 - i
  {
    if i < |lines| {
      var o := Advance(lines, i, []);
      assert o.Returns? && o.value.closed == [] && o.value.next == i + 1 && o.value.current == [];
      BlankLinesNoBlocks(lines, i + 1);
      assert [] + BlocksFrom(lines, i + 1, []).value == [];
    }
  }

  /** A description that is only white space converts to no blocks at all. */
  lemma WhiteSpaceConvertsToNothing(markdown: string)
    requires AllWhiteSpace(markdown)
    ensures Converted(markdown).Returns? && Converted(markdown).value == []
  {
    var lines := Split(markdown, '\n');
    forall k | 0 <= k < |lines|
      ensures Trim(lines[k]) == []
    {
      forall j | 0 <= j < |lines[k]|
        ensures IsWhiteSpace(lines[k][j])
      {
        SplitChars(markdown, '\n', k, j);
      }
      TrimEmptyIff(lines[k]);
    }
    BlankLinesNoBlocks(lines, 0);
  }

  /** Without blank lines everything lands in one paragraph. */
  lemma {:induction false} NoBlankLineOneBlock(lines: seq<string>, i: nat, current: seq<Element>)
    requires i <= |lines| + 1
    requires forall k :: i <= k < |lines| ==> Trim(lines[k]) != []
    ensures BlocksFrom(lines, i, current).Returns? ==> |BlocksFrom(lines, i, current).value| <= 1
    decreases |lines| + 1 - i
  {
    if i < |lines| {
      var o := Advance(lines, i, current);
      AdvanceShape(lines, i, current);
      if o.Returns? {
        NoBlankLineOneBlock(lines, o.value.next, o.value.current);
        if BlocksFrom(lines, o.value.next, o.value.current).Returns? {
          assert [] + BlocksFrom(lines, o.value.next, o.value.current).value ==
            BlocksFrom(lines, o.value.next, o.value.current).value;
        }
      }
    }
  }

  /** How `Advance` takes a fence that opens at line `i`. */
  lemma FenceAdvance(lines: seq<string>, i: nat, current: seq<Element>)
    requires i < |lines| && Trim(lines[i]) != [] && IsFence(Trim(lines[i]))
    ensures var o, k := Advance(lines, i, current), FenceEnd(lines, i + 1);
      && o.Returns? && o.value.closed == [] && o.value.next == k + 1
      && o.value.current == current + [[Run(Markup, FencedText(lines, i + 1, k))]]
  {
  }

  lemma FenceFirstStep(lines: seq<string>)
    requires |lines| == 4 && Trim(lines[0]) != [] && IsFence(Trim(lines[0]))
    requires !IsFence(lines[1]) && !IsFence(lines[2]) && IsFence(lines[3])
    ensures var o := Advance(lines, 0, []);
      && o.Returns? && o.value.closed == [] && o.value.next == 4
      && o.value.current == [[Run(Markup, TrimEnd(lines[1] + lines[2]))]]
  {
    FenceAdvance(lines, 0, []);
    FencedTwoLines(lines);
    assert [] + [[Run(Markup, TrimEnd(lines[1] + lines[2]))]] == [[Run(Markup, TrimEnd(lines[1] + lines[2]))]];
  }

  lemma FencedTwoLines(lines: seq<string>)
    requires |lines| == 4 && !IsFence(lines[1]) && !IsFence(lines[2]) && IsFence(lines[3])
    ensures FenceEnd(lines, 1) == 3 && FencedText(lines, 1, 3) == TrimEnd(lines[1] + lines[2])
  {
    assert FenceEnd(lines, 1) == 3;
    assert Concat(lines[1..3]) == lines[1] + lines[2] by {
      assert lines[1..3][..1] == [lines[1]];
      assert Concat([lines[1]]) == [] + lines[1] by {
        assert [lines[1]][..0] == [];
      }
    }
  }

  /** A fenced block is one code element whose text is the enclosed lines run together
      with no separator between them, trailing white space removed. */
  lemma FenceJoinsLines(lines: seq<string>)
    requires |lines| == 4 && Trim(lines[0]) != [] && IsFence(Trim(lines[0]))
    requires !IsFence(lines[1]) && !IsFence(lines[2]) && IsFence(lines[3])
    ensures var o := BlocksFrom(lines, 0, []);
      o.Returns? && o.value == [[[Run(Markup, TrimEnd(lines[1] + lines[2]))]]]
  {
    FenceFirstStep(lines);
    var code := [Run(Markup, TrimEnd(lines[1] + lines[2]))];
    BlocksFromStep(lines, 0, []);
    assert BlocksFrom(lines, 4, [code]) == Returns([[code]]);
    assert [] + [[code]] == [[code]];
  }

  /** One unfolding of `BlocksFrom` at a line whose iteration returns. */
  lemma BlocksFromStep(lines: seq<string>, i: nat, current: seq<Element>)
    requires i < |lines| && Advance(lines, i, current).Returns?
    ensures var s := Advance(lines, i, current).value;
      BlocksFrom(lines, i, current) == PrependBlocks(s.closed, BlocksFrom(lines, s.next, s.current))
  {
  }

  /** A line that is neither blank nor a fence adds exactly one element, its inline runs,
      to the paragraph being accumulated. */
  lemma TextLineOneElement(lines: seq<string>, i: nat, current: seq<Element>)
    requires i < |lines| && Trim(lines[i]) != [] && !IsFence(Trim(lines[i]))
    ensures Advance(lines, i, current).Returns? <==> InlineRuns(Trim(lines[i])).Returns?
    ensures Advance(lines, i, current).Returns? ==>
      Advance(lines, i, current).value == Step([], i + 1, current + [InlineRuns(Trim(lines[i])).value])
  {
  }

  /** A trimmed line without `*` or backtick converts to one plain run of the whole line,
      its leading `-`, if any, turned into a bullet. */
  lemma PlainLine(line: string)
    requires line != [] && forall k :: 0 <= k < |line| ==> !IsSpecial(line[k])
    ensures InlineRuns(line) == Returns([Run(Plain, Bullet(line))])
  {
    var b := Bullet(line);
    forall k | 0 <= k < |b|
      ensures !IsSpecial(b[k])
    {
      if k > 0 {
        assert b[k] == b[1..][k - 1] == line[1..][k - 1] == line[k];
      }
    }
    PlainRest(b, 0);
    assert b[0..] == b;
  }

  /** A blank line closes the paragraph being accumulated and starts an empty one. */
  lemma BlankLineCloses(lines: seq<string>, i: nat, current: seq<Element>)
    requires i < |lines| && Trim(lines[i]) == []
    ensures Advance(lines, i, current).Returns?
    ensures Advance(lines, i, current).value == Step(Flush(current), i + 1, [])
  {
  }
}
