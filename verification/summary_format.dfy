/**
 * `format_summary`: turns a generated summary into an opening sentence, a
 * blank line, and then short heading lines and space-joined paragraphs.
 * Sentence splitting (NLTK's `sent_tokenize`) is a parameter: it yields the
 * sentence list, or `None` when it raises.
 */
module SummaryFormat {
  import opened Text
  import opened Values
  import opened Headings

  /** A block of the output after the opening sentence. */
  datatype Block = Heading(sentence: string) | Paragraph(sentences: seq<string>)

  /**
   * One sentence added to a grouping: a heading sentence stands alone, any
   * other sentence joins a paragraph that ends the grouping or starts one.
   */
  function Extend(h: string -> bool, bs: seq<Block>, s: string): seq<Block> {
    if h(s) then bs + [Heading(s)]
    else if bs != [] && bs[|bs| - 1].Paragraph? then
      bs[..|bs| - 1] + [Paragraph(bs[|bs| - 1].sentences + [s])]
    else bs + [Paragraph([s])]
  }

  /** The grouping of the first `n` sentences of `rest`, read left to right. */
  function Group(h: string -> bool, rest: seq<string>, n: nat): seq<Block>
    requires n <= |rest|
  {
    if n == 0 then [] else Extend(h, Group(h, rest, n - 1), rest[n - 1])
  }

  /** The grouping of all of `rest` under the heading test `h`. */
  function Grouping(h: string -> bool, rest: seq<string>): seq<Block> {
    Group(h, rest, |rest|)
  }

  /** The grouping `format_summary` makes of the sentences after the first. */
  function Blocks(rest: seq<string>): seq<Block> {
    Grouping(IsHeadingSentence, rest)
  }

  /** The paragraph still being accumulated, as a (possibly absent) last block. */
  function Pending(paragraph: seq<string>): seq<Block> {
    if paragraph == [] then [] else [Paragraph(paragraph)]
  }

  function BlockSentences(b: Block): seq<string> {
    match b
    case Heading(s) => [s]
    case Paragraph(ss) => ss
  }

  /** The sentences of the first `m` blocks, in order. */
  function Flat(bs: seq<Block>, m: nat): seq<string>
    requires m <= |bs|
  {
    if m == 0 then [] else Flat(bs, m - 1) + BlockSentences(bs[m - 1])
  }

  /** The sentences of a block sequence, in order. */
  function Sentences(bs: seq<Block>): seq<string> {
    Flat(bs, |bs|)
  }

  /** A heading holds a heading sentence; a paragraph a non-empty run of other sentences. */
  predicate GoodBlock(h: string -> bool, b: Block) {
    match b
    case Heading(s) => h(s)
    case Paragraph(ss) => ss != [] && forall j :: 0 <= j < |ss| ==> !h(ss[j])
  }

  /** Every block is good and no paragraph directly follows another. */
  predicate WellGrouped(h: string -> bool, bs: seq<Block>) {
    && (forall i :: 0 <= i < |bs| ==> GoodBlock(h, bs[i]))
    && (forall i :: 0 <= i < |bs| - 1 && bs[i].Paragraph? ==> bs[i + 1].Heading?)
  }

  function ClosedText(b: Block): string {
    match b
    case Heading(s) => s + "\n"
    case Paragraph(ss) => Join(ss, " ") + "\n\n"
  }

  /** Blocks followed by more output: heading lines, and paragraphs each closed by a blank line. */
  function RenderClosed(bs: seq<Block>): string
    decreases |bs|
  {
    if bs == [] then "" else RenderClosed(bs[..|bs| - 1]) + ClosedText(bs[|bs| - 1])
  }

  /** The text after the opening sentence: a trailing paragraph carries no newline. */
  function Render(bs: seq<Block>): string {
    if bs != [] && bs[|bs| - 1].Paragraph? then
      RenderClosed(bs[..|bs| - 1]) + Join(bs[|bs| - 1].sentences, " ")
    else RenderClosed(bs)
  }

  /** `Flat` reads only the blocks it covers. */
  lemma {:induction false} FlatPrefix(a: seq<Block>, b: seq<Block>, m: nat)
    requires m <= |a| && m <= |b| && a[..m] == b[..m]
    ensures Flat(a, m) == Flat(b, m)
  {
    if m > 0 {
      assert a[m - 1] == a[..m][m - 1] == b[m - 1];
      assert a[..m - 1] == a[..m][..m - 1];
      assert b[..m - 1] == b[..m][..m - 1];
      FlatPrefix(a, b, m - 1);
    }
  }

  lemma SentencesSnoc(bs: seq<Block>, b: Block)
    ensures Sentences(bs + [b]) == Sentences(bs) + BlockSentences(b)
  {
    FlatPrefix(bs + [b], bs, |bs|);
  }

  /** `Group` reads only the sentences it covers. */
  lemma {:induction false} GroupPrefix(h: string -> bool, a: seq<string>, b: seq<string>, n: nat)
    requires n <= |a| && n <= |b| && a[..n] == b[..n]
    ensures Group(h, a, n) == Group(h, b, n)
  {
    if n > 0 {
      assert a[n - 1] == a[..n][n - 1] == b[n - 1];
      assert a[..n - 1] == a[..n][..n - 1];
      assert b[..n - 1] == b[..n][..n - 1];
      GroupPrefix(h, a, b, n - 1);
    }
  }

  /** Extending a grouping appends the sentence to its sentences. */
  lemma ExtendSentences(h: string -> bool, bs: seq<Block>, s: string)
    ensures Sentences(Extend(h, bs, s)) == Sentences(bs) + [s]
  {
    if h(s) {
      SentencesSnoc(bs, Heading(s));
    } else if bs != [] && bs[|bs| - 1].Paragraph? {
      var front, last := bs[..|bs| - 1], bs[|bs| - 1];
      assert bs == front + [last];
      SentencesSnoc(front, last);
      SentencesSnoc(front, Paragraph(last.sentences + [s]));
    } else {
      SentencesSnoc(bs, Paragraph([s]));
    }
  }

  /** Extending a well-grouped sequence keeps it well grouped. */
  lemma ExtendWellGrouped(h: string -> bool, bs: seq<Block>, s: string)
    requires WellGrouped(h, bs)
    ensures WellGrouped(h, Extend(h, bs, s))
  {
    if !h(s) && bs != [] && bs[|bs| - 1].Paragraph? {
      var last := bs[|bs| - 1];
      var merged := Paragraph(last.sentences + [s]);
      assert GoodBlock(h, last);
      assert GoodBlock(h, merged) by {
        forall j | 0 <= j < |merged.sentences| ensures !h(merged.sentences[j]) {
          if j < |last.sentences| { assert merged.sentences[j] == last.sentences[j]; }
        }
      }
      var r := bs[..|bs| - 1] + [merged];
      assert forall i :: 0 <= i < |bs| - 1 ==> r[i] == bs[i];
    }
  }

  /** Extending a grouping of `rest[..n - 1]` by `rest[n - 1]` groups `rest[..n]`. */
  lemma ExtendPrefix(h: string -> bool, bs: seq<Block>, rest: seq<string>, n: nat)
    requires 0 < n <= |rest| && Sentences(bs) == rest[..n - 1]
    ensures Sentences(Extend(h, bs, rest[n - 1])) == rest[..n]
  {
    ExtendSentences(h, bs, rest[n - 1]);
    assert rest[..n] == rest[..n - 1] + [rest[n - 1]];
  }

  /** Every sentence after the first lands in exactly one block, in input order. */
  lemma {:induction false} GroupSentences(h: string -> bool, rest: seq<string>, n: nat)
    requires n <= |rest|
    ensures Sentences(Group(h, rest, n)) == rest[..n]
  {
    if n > 0 {
      GroupSentences(h, rest, n - 1);
      ExtendPrefix(h, Group(h, rest, n - 1), rest, n);
    }
  }

  /** The grouping obeys the heading rule. */
  lemma {:induction false} GroupWellGrouped(h: string -> bool, rest: seq<string>, n: nat)
    requires n <= |rest|
    ensures WellGrouped(h, Group(h, rest, n))
  {
    if n > 0 {
      GroupWellGrouped(h, rest, n - 1);
      ExtendWellGrouped(h, Group(h, rest, n - 1), rest[n - 1]);
    }
  }

  /**
   * The grouping holds every sentence after the first exactly once, in
   * order, and obeys the heading rule.
   */
  lemma GroupingPartition(h: string -> bool, rest: seq<string>)
    ensures Sentences(Grouping(h, rest)) == rest
    ensures WellGrouped(h, Grouping(h, rest))
  {
    GroupSentences(h, rest, |rest|);
    GroupWellGrouped(h, rest, |rest|);
  }

  lemma WellGroupedFront(h: string -> bool, bs: seq<Block>)
    requires bs != [] && WellGrouped(h, bs)
    ensures WellGrouped(h, bs[..|bs| - 1])
  {
    var front := bs[..|bs| - 1];
    assert forall i :: 0 <= i < |front| ==> front[i] == bs[i];
  }

  /** Dropping the last sentence of a final paragraph of two or more keeps the grouping well formed. */
  lemma WellGroupedShorten(h: string -> bool, front: seq<Block>, ps: seq<string>)
    requires |ps| >= 2 && WellGrouped(h, front + [Paragraph(ps)])
    ensures WellGrouped(h, front + [Paragraph(ps[..|ps| - 1])])
  {
    var bs := front + [Paragraph(ps)];
    var shorter := front + [Paragraph(ps[..|ps| - 1])];
    assert forall i :: 0 <= i < |front| ==> shorter[i] == bs[i];
    assert GoodBlock(h, bs[|front|]);
    assert forall j :: 0 <= j < |ps| - 1 ==> ps[..|ps| - 1][j] == ps[j];
    assert GoodBlock(h, shorter[|front|]);
  }

  /** The grouping of `rest` extended by one sentence `s`. */
  lemma GroupingSnoc(h: string -> bool, rest: seq<string>, s: string)
    ensures Grouping(h, rest + [s]) == Extend(h, Grouping(h, rest), s)
  {
    GroupPrefix(h, rest + [s], rest, |rest|);
  }

  /** The grouping is the only well-grouped block sequence holding `rest`. */
  lemma {:induction false} GroupingUnique(h: string -> bool, bs: seq<Block>, rest: seq<string>)
    requires WellGrouped(h, bs) && Sentences(bs) == rest
    ensures bs == Grouping(h, rest)
    decreases |rest|, 1
  {
    if bs != [] {
      var front, last := bs[..|bs| - 1], bs[|bs| - 1];
      assert bs == front + [last];
      WellGroupedFront(h, bs);
      SentencesSnoc(front, last);
      assert GoodBlock(h, last);
      if last.Heading? {
        GroupingUnique(h, front, Sentences(front));
        GroupingSnoc(h, Sentences(front), last.sentence);
      } else {
        GroupingUniqueParagraph(h, front, last.sentences, rest);
      }
    } else {
      assert rest == [];
    }
  }

  /** `GroupingUnique` when the last block is a paragraph. */
  lemma {:induction false} GroupingUniqueParagraph(h: string -> bool, front: seq<Block>, ps: seq<string>, rest: seq<string>)
    requires WellGrouped(h, front + [Paragraph(ps)]) && WellGrouped(h, front)
    requires rest == Sentences(front) + ps
    ensures front + [Paragraph(ps)] == Grouping(h, rest)
    decreases |rest|, 0
  {
    var bs := front + [Paragraph(ps)];
    assert GoodBlock(h, bs[|front|]);
    var s := ps[|ps| - 1];
    assert !h(s);
    if |ps| == 1 {
      assert ps == [s];
      GroupingUnique(h, front, Sentences(front));
      GroupingSnoc(h, Sentences(front), s);
      assert front != [] ==> front[|front| - 1].Heading? by {
        if front != [] { assert bs[|bs| - 2] == front[|front| - 1]; }
      }
    } else {
      var init := ps[..|ps| - 1];
      var shorter := front + [Paragraph(init)];
      SentencesSnoc(front, Paragraph(init));
      assert ps == init + [s];
      assert rest == Sentences(shorter) + [s];
      WellGroupedShorten(h, front, ps);
      GroupingUnique(h, shorter, Sentences(shorter));
      GroupingSnoc(h, Sentences(shorter), s);
      assert shorter[..|shorter| - 1] == front;
    }
  }

  /**
   * Every sentence after the first lands in exactly one block, in input
   * order; headings hold heading sentences, paragraphs non-empty runs of
   * other sentences, and no paragraph follows another.
   */
  lemma BlocksPartition(rest: seq<string>)
    ensures Sentences(Blocks(rest)) == rest
    ensures WellGrouped(IsHeadingSentence, Blocks(rest))
  {
    GroupingPartition(IsHeadingSentence, rest);
  }

  /** Those properties determine the grouping: no other block sequence has them. */
  lemma BlocksUnique(bs: seq<Block>, rest: seq<string>)
    requires WellGrouped(IsHeadingSentence, bs) && Sentences(bs) == rest
    ensures bs == Blocks(rest)
  {
    GroupingUnique(IsHeadingSentence, bs, rest);
  }

  lemma RenderClosedSnoc(bs: seq<Block>, b: Block)
    ensures RenderClosed(bs + [b]) == RenderClosed(bs) + ClosedText(b)
  {
    assert (bs + [b])[..|bs|] == bs;
  }

  /** The output after the loop: closed blocks, then the pending paragraph without a newline. */
  lemma RenderPending(closed: seq<Block>, paragraph: seq<string>)
    requires closed != [] ==> closed[|closed| - 1].Heading?
    ensures Render(closed + Pending(paragraph))
      == RenderClosed(closed) + (if paragraph == [] then "" else Join(paragraph, " "))
  {
    if paragraph != [] {
      assert (closed + [Paragraph(paragraph)])[..|closed|] == closed;
    } else {
      assert closed + Pending(paragraph) == closed;
    }
  }

  /** After the loop, a pending paragraph is appended without a newline. */
  lemma FinishStep(closed: seq<Block>, paragraph: seq<string>, opening: string, out: string)
    requires closed != [] ==> closed[|closed| - 1].Heading?
    requires out == opening + RenderClosed(closed)
    ensures paragraph != [] ==> out + Join(paragraph, " ") == opening + Render(closed + Pending(paragraph))
    ensures paragraph == [] ==> out == opening + Render(closed + Pending(paragraph))
  {
    RenderPending(closed, paragraph);
    if paragraph != [] {
      Associative(opening, RenderClosed(closed), Join(paragraph, " "));
    } else {
      assert RenderClosed(closed) + "" == RenderClosed(closed);
    }
  }

  lemma Associative(a: string, b: string, c: string)
    ensures (a + b) + c == a + (b + c)
  {
  }

  /** A heading sentence during the loop first closes the pending paragraph. */
  lemma FlushStep(closed: seq<Block>, paragraph: seq<string>, opening: string, out: string)
    requires paragraph != []
    requires out == opening + RenderClosed(closed)
    ensures closed + Pending(paragraph) == (closed + [Paragraph(paragraph)]) + Pending([])
    ensures out + ClosedText(Paragraph(paragraph)) == opening + RenderClosed(closed + [Paragraph(paragraph)])
  {
    RenderClosedSnoc(closed, Paragraph(paragraph));
    calc {
      out + ClosedText(Paragraph(paragraph));
      { Associative(opening, RenderClosed(closed), ClosedText(Paragraph(paragraph))); }
      opening + RenderClosed(closed + [Paragraph(paragraph)]);
    }
  }

  /** Then the heading sentence becomes a line of its own. */
  lemma HeadingStep(h: string -> bool, rest: seq<string>, j: nat, closed: seq<Block>, opening: string, out: string)
    requires j < |rest| && h(rest[j])
    requires Group(h, rest, j) == closed + Pending([])
    requires out == opening + RenderClosed(closed)
    ensures Group(h, rest, j + 1) == (closed + [Heading(rest[j])]) + Pending([])
    ensures out + ClosedText(Heading(rest[j])) == opening + RenderClosed(closed + [Heading(rest[j])])
  {
    var x := rest[j];
    assert closed + Pending([]) == closed;
    assert (closed + [Heading(x)]) + Pending([]) == closed + [Heading(x)];
    RenderClosedSnoc(closed, Heading(x));
    calc {
      out + ClosedText(Heading(x));
      { Associative(opening, RenderClosed(closed), ClosedText(Heading(x))); }
      opening + RenderClosed(closed + [Heading(x)]);
    }
  }

  /** Any other sentence during the loop joins the pending paragraph. */
  lemma ParagraphStep(h: string -> bool, rest: seq<string>, j: nat, closed: seq<Block>, paragraph: seq<string>)
    requires j < |rest| && !h(rest[j])
    requires Group(h, rest, j) == closed + Pending(paragraph)
    requires closed != [] ==> closed[|closed| - 1].Heading?
    ensures Group(h, rest, j + 1) == closed + Pending(paragraph + [rest[j]])
  {
    if paragraph != [] {
      var bs := closed + [Paragraph(paragraph)];
      assert bs[..|bs| - 1] == closed;
    } else {
      assert closed + Pending(paragraph) == closed;
      assert paragraph + [rest[j]] == [rest[j]];
    }
  }

  /**
   * `format_summary(summary_text)`. `tokenize` stands for `sent_tokenize`
   * and `str` for Python's `str()` of a value that is not a string.
   */
  method FormatSummary(input: Json, tokenize: string -> Option<seq<string>>, str: Json -> string)
    returns (out: string)
    ensures !Truthy(input) ==> out == ""
    ensures Truthy(input) && !input.Str? ==> out == str(input)
    ensures input.Str? && input.s != "" && (tokenize(input.s).None? || |tokenize(input.s).value| <= 1)
      ==> out == input.s
    ensures input.Str? && input.s != "" && tokenize(input.s).Some? && |tokenize(input.s).value| >= 2
      ==> var ss := tokenize(input.s).value; out == ss[0] + "\n\n" + Render(Blocks(ss[1..]))
  {
    if !Truthy(input) || !input.Str? {
      out := if Truthy(input) then str(input) else "";
      return;
    }
    var text := input.s;
    var split := tokenize(text);
    if split.None? || |split.value| <= 1 {
      out := text;
      return;
    }
    out := StructureSentences(split.value, IsHeadingSentence);
  }

  /**
   * One pass of the loop of `format_summary` over `rest[j]`: a heading
   * sentence flushes the pending paragraph and adds a heading line; any
   * other sentence joins the pending paragraph.
   */
  method Absorb(isHeading: string -> bool, rest: seq<string>, j: nat, ghost closed: seq<Block>,
                paragraph: seq<string>, ghost opening: string, out: string)
    returns (ghost closed': seq<Block>, paragraph': seq<string>, out': string)
    requires j < |rest|
    requires Group(isHeading, rest, j) == closed + Pending(paragraph)
    requires closed != [] ==> closed[|closed| - 1].Heading?
    requires out == opening + RenderClosed(closed)
    ensures Group(isHeading, rest, j + 1) == closed' + Pending(paragraph')
    ensures closed' != [] ==> closed'[|closed'| - 1].Heading?
    ensures out' == opening + RenderClosed(closed')
    ensures isHeading(rest[j]) ==> paragraph' == []
    ensures isHeading(rest[j]) && paragraph == [] ==> out' == out + ClosedText(Heading(rest[j]))
    ensures isHeading(rest[j]) && paragraph != [] ==>
      out' == out + ClosedText(Paragraph(paragraph)) + ClosedText(Heading(rest[j]))
    ensures !isHeading(rest[j]) ==> paragraph' == paragraph + [rest[j]] && out' == out
  {
    var sentence := rest[j];
    if isHeading(sentence) {
      ghost var flushed := closed;
      var before := out;
      if paragraph != [] {
        FlushStep(closed, paragraph, opening, out);
        flushed := closed + [Paragraph(paragraph)];
        before := out + ClosedText(Paragraph(paragraph));
      }
      HeadingStep(isHeading, rest, j, flushed, opening, before);
      closed', paragraph', out' := flushed + [Heading(sentence)], [], before + ClosedText(Heading(sentence));
    } else {
      ParagraphStep(isHeading, rest, j, closed, paragraph);
      closed', paragraph', out' := closed, paragraph + [sentence], out;
    }
  }

  /**
   * The loop of `format_summary`: the opening sentence and a blank line,
   * then each later sentence either flushes the pending paragraph and adds
   * a heading line, or joins the pending paragraph.
   */
  method StructureSentences(ss: seq<string>, isHeading: string -> bool) returns (out: string)
    requires ss != []
    ensures out == ss[0] + "\n\n" + Render(Grouping(isHeading, ss[1..]))
  {
    out := ss[0] + "\n\n";
    var rest := ss[1..];
    var paragraph: seq<string> := [];
    ghost var closed: seq<Block> := [];
    ghost var opening := out;
    for j := 0 to |rest|
      invariant Group(isHeading, rest, j) == closed + Pending(paragraph)
      invariant closed != [] ==> closed[|closed| - 1].Heading?
      invariant out == opening + RenderClosed(closed)
    {
      closed, paragraph, out := Absorb(isHeading, rest, j, closed, paragraph, opening, out);
    }
    FinishStep(closed, paragraph, opening, out);
    if paragraph != [] {
      out := out + Join(paragraph, " ");
    }
  }
}
