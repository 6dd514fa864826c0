/**
 * The extension popup's two pieces of text logic: rendering the structured
 * summary string as a sequence of `h3`/`h4`/`p` blocks, and flattening the
 * rendered tree back into text when the summary is copied.
 * The DOM is a tree of `Node`s; styling, the clipboard and timers are not
 * part of this model.
 */
module Popup {
  import opened Text
  import opened Headings

  /** A DOM node: a text node, an element with its tag name and children, or any other node (a comment). */
  datatype Node = TextNode(data: string) | Element(tag: string, children: seq<Node>) | OtherNode

  /** `textContent` of a node: the text of its text-node descendants, in document order. */
  function NodeText(n: Node): string
    decreases n, 1
  {
    match n
    case TextNode(d) => d
    case Element(_, cs) => TextContent(cs)
    case OtherNode => ""
  }

  /** The concatenated `textContent` of a list of sibling nodes. */
  function TextContent(ns: seq<Node>): string
    decreases ns, 0
  {
    if ns == [] then "" else TextContent(ns[..|ns| - 1]) + NodeText(ns[|ns| - 1])
  }

  /** What one child contributes to the copied text. */
  function Piece(n: Node): string
    decreases n, 1
  {
    match n
    case TextNode(d) => d
    case Element(tag, cs) =>
      if tag == "H3" then TextContent(cs) + "\n\n"
      else if tag == "H4" || tag == "P" then TextContent(cs) + "\n"
      else Flatten(cs)
    case OtherNode => ""
  }

  /** `extractFormattedText` of an element whose child nodes are `ns`. */
  function Flatten(ns: seq<Node>): string
    decreases ns, 0
  {
    if ns == [] then "" else Flatten(ns[..|ns| - 1]) + Piece(ns[|ns| - 1])
  }

  /** Flattening distributes over sibling lists: children are flattened in order. */
  lemma {:induction false} FlattenAppend(a: seq<Node>, b: seq<Node>)
    ensures Flatten(a + b) == Flatten(a) + Flatten(b)
    decreases |b|
  {
    if b == [] {
      assert a + b == a;
    } else {
      var init := b[..|b| - 1];
      FlattenAppend(a, init);
      assert (a + b)[..|a + b| - 1] == a + init;
      assert (a + b)[|a + b| - 1] == b[|b| - 1];
    }
  }

  /** `extractFormattedText`: an index loop over the children, recursing into elements other than H3, H4 and P. */
  method ExtractFormattedText(ns: seq<Node>) returns (result: string)
    decreases ns, 0
    ensures result == Flatten(ns)
  {
    result := "";
    for i := 0 to |ns|
      invariant result == Flatten(ns[..i])
    {
      var node := ns[i];
      assert ns[..i + 1][..i] == ns[..i];
      match node
      case TextNode(d) =>
        result := result + d;
      case Element(tag, cs) =>
        if tag == "H3" {
          result := result + TextContent(cs) + "\n\n";
        } else if tag == "H4" || tag == "P" {
          result := result + TextContent(cs) + "\n";
        } else {
          var inner := ExtractFormattedText(cs);
          result := result + inner;
        }
      case OtherNode =>
    }
    assert ns[..|ns|] == ns;
  }

  /** The concatenation of `f(x)` over the elements `x` of `xs`, in order. */
  function FlatMap<T, U>(xs: seq<T>, f: T -> seq<U>): seq<U> {
    if xs == [] then [] else FlatMap(xs[..|xs| - 1], f) + f(xs[|xs| - 1])
  }

  lemma {:induction false} FlatMapAppend<T, U>(xs: seq<T>, ys: seq<T>, f: T -> seq<U>)
    ensures FlatMap(xs + ys, f) == FlatMap(xs, f) + FlatMap(ys, f)
    decreases |ys|
  {
    if ys == [] {
      assert xs + ys == xs;
    } else {
      FlatMapAppend(xs, ys[..|ys| - 1], f);
      assert (xs + ys)[..|xs + ys| - 1] == xs + ys[..|ys| - 1];
      assert (xs + ys)[|xs + ys| - 1] == ys[|ys| - 1];
    }
  }

  /** One more element of a prefix adds its image at the end. */
  lemma FlatMapPrefix<T, U>(xs: seq<T>, k: nat, f: T -> seq<U>)
    requires k < |xs|
    ensures FlatMap(xs[..k + 1], f) == FlatMap(xs[..k], f) + f(xs[k])
  {
    assert xs[..k + 1][..k] == xs[..k];
  }

  /** Every element of the result comes from the image of some element of `xs`. */
  lemma {:induction false} FlatMapOrigin<T, U>(xs: seq<T>, f: T -> seq<U>, u: U) returns (x: T)
    requires u in FlatMap(xs, f)
    ensures x in xs && u in f(x)
  {
    var init := xs[..|xs| - 1];
    if u in f(xs[|xs| - 1]) {
      x := xs[|xs| - 1];
    } else {
      x := FlatMapOrigin(init, f, u);
    }
  }

  /** When every image is a single element, the result is the images in order. */
  lemma {:induction false} FlatMapSingletons<T, U>(xs: seq<T>, f: T -> seq<U>)
    requires forall x :: x in xs ==> |f(x)| == 1
    ensures |FlatMap(xs, f)| == |xs|
    ensures forall k :: 0 <= k < |xs| ==> FlatMap(xs, f)[k] == f(xs[k])[0]
  {
    if xs != [] {
      FlatMapSingletons(xs[..|xs| - 1], f);
    }
  }

  /** One non-blank image makes the concatenated text non-blank. */
  lemma {:induction false} FlatMapNonBlank<T>(xs: seq<T>, f: T -> string, k: nat)
    requires k < |xs| && !Blank(f(xs[k]))
    ensures !Blank(FlatMap(xs, f))
  {
    var init := xs[..|xs| - 1];
    if k == |xs| - 1 {
      NonBlankSuffix(FlatMap(init, f), f(xs[k]));
    } else {
      FlatMapNonBlank(init, f, k);
      NonBlankPrefix(FlatMap(init, f), f(xs[|xs| - 1]));
    }
  }

  /** Flattening the blocks of each element in turn is concatenating their texts. */
  lemma {:induction false} FlattenFlatMap<T>(xs: seq<T>, f: T -> seq<Node>, g: T -> string)
    requires forall x :: x in xs ==> Flatten(f(x)) == g(x)
    ensures Flatten(FlatMap(xs, f)) == FlatMap(xs, g)
  {
    if xs != [] {
      var init := xs[..|xs| - 1];
      FlattenFlatMap(init, f, g);
      FlattenAppend(FlatMap(init, f), f(xs[|xs| - 1]));
    }
  }

  /** The block for a non-blank line, given its trimmed text: `h4` for a sub-heading, `p` otherwise. */
  function Block(t: string): Node {
    Element(if IsSubheadingLine(t) then "H4" else "P", [TextNode(t)])
  }

  /** The `h3` block for a paragraph without a line break. */
  function Heading(p: string): Node {
    Element("H3", [TextNode(p)])
  }

  /** What one line of a multi-line paragraph adds: nothing when it is blank. */
  function LineBlock(line: string): seq<Node> {
    if Trim(line) != "" then [Block(Trim(line))] else []
  }

  /** The blocks of one paragraph of the summary. */
  function ParagraphBlocks(p: string): seq<Node> {
    if Trim(p) == "" then []
    else if !Contains(p, "\n") then [Heading(p)]
    else FlatMap(Split(p, "\n"), LineBlock)
  }

  /** The children of the summary area once `summary` is shown: paragraph by paragraph, line by line. */
  function Rendered(summary: string): seq<Node> {
    FlatMap(Split(Trim(summary), "\n\n"), ParagraphBlocks)
  }

  /**
   * A heading line of the backend's structured summary, met by the popup
   * as a line of a multi-line paragraph, becomes an `h4` holding the
   * trimmed line.
   */
  lemma HeadingLineRendersSubheading(line: string)
    requires IsHeadingSentence(line)
    ensures LineBlock(line) == [Element("H4", [TextNode(Trim(line))])]
  {
    TrimmedHeadingIsSubheadingLine(line);
  }

  /** A string with no white space at either end is its own trim. */
  lemma TrimTrimmed(t: string)
    requires t != "" && !IsSpace(t[0]) && !IsSpace(t[|t| - 1])
    ensures Trim(t) == t
  {
    assert SkipSpace(t, 0) == 0;
    assert SkipSpaceBack(t, 0, |t|) == |t|;
  }

  /**
   * Each block of a multi-line paragraph comes from one of its non-blank
   * lines, holds that line trimmed as its only child, and is an `h4`
   * exactly when the trimmed line passes the sub-heading test; when no
   * line is blank, the k-th block is that of the k-th line.
   */
  lemma LineBlocksShape(lines: seq<string>)
    ensures forall b :: b in FlatMap(lines, LineBlock) ==>
      && b.Element? && (b.tag == "H4" || b.tag == "P")
      && |b.children| == 1 && b.children[0].TextNode?
      && b.children[0].data != "" && Trim(b.children[0].data) == b.children[0].data
      && (b.tag == "H4" <==> IsSubheadingLine(b.children[0].data))
      && exists line :: line in lines && Trim(line) == b.children[0].data
    ensures (forall k :: 0 <= k < |lines| ==> Trim(lines[k]) != "") ==>
      |FlatMap(lines, LineBlock)| == |lines|
      && forall k :: 0 <= k < |lines| ==> FlatMap(lines, LineBlock)[k] == Block(Trim(lines[k]))
  {
    forall b | b in FlatMap(lines, LineBlock)
      ensures && b.Element? && (b.tag == "H4" || b.tag == "P")
        && |b.children| == 1 && b.children[0].TextNode?
        && b.children[0].data != "" && Trim(b.children[0].data) == b.children[0].data
        && (b.tag == "H4" <==> IsSubheadingLine(b.children[0].data))
        && exists line :: line in lines && Trim(line) == b.children[0].data
    {
      var line := FlatMapOrigin(lines, LineBlock, b);
      TrimTrimmed(Trim(line));
    }
    if forall k :: 0 <= k < |lines| ==> Trim(lines[k]) != "" {
      FlatMapSingletons(lines, LineBlock);
    }
  }

  /**
   * Every block of a shown summary is an element with one non-empty text
   * child: an `h3` holding a whole paragraph that has no line break, or an
   * `h4`/`p` holding a trimmed line, `h4` exactly for a sub-heading.
   */
  lemma RenderedBlock(summary: string, b: Node)
    requires b in Rendered(summary)
    ensures b.Element? && |b.children| == 1 && b.children[0].TextNode? && b.children[0].data != ""
    ensures b.tag == "H3" || b.tag == "H4" || b.tag == "P"
    ensures b.tag == "H3" ==> b.children[0].data in Split(Trim(summary), "\n\n") && !Contains(b.children[0].data, "\n")
    ensures b.tag != "H3" ==>
      Trim(b.children[0].data) == b.children[0].data && (b.tag == "H4" <==> IsSubheadingLine(b.children[0].data))
  {
    var p := FlatMapOrigin(Split(Trim(summary), "\n\n"), ParagraphBlocks, b);
    if Contains(p, "\n") {
      LineBlocksShape(Split(p, "\n"));
    }
  }

  /** Paragraphs are rendered in order: the blocks of `a + b` are those of `a`, then those of `b`. */
  lemma ParagraphsInOrder(a: seq<string>, b: seq<string>)
    ensures FlatMap(a + b, ParagraphBlocks) == FlatMap(a, ParagraphBlocks) + FlatMap(b, ParagraphBlocks)
  {
    FlatMapAppend(a, b, ParagraphBlocks);
  }

  /** The copied text of one line: the trimmed line and a line break, or nothing when it is blank. */
  function CopiedLine(line: string): string {
    if Trim(line) != "" then Trim(line) + "\n" else ""
  }

  /** The copied text of one paragraph: a single-line paragraph and a blank line, the other lines one by one. */
  function CopiedParagraph(p: string): string {
    if Trim(p) == "" then ""
    else if !Contains(p, "\n") then p + "\n\n"
    else FlatMap(Split(p, "\n"), CopiedLine)
  }

  /** The text the copy produces from a shown summary, built from the summary string alone. */
  function Copied(summary: string): string {
    FlatMap(Split(Trim(summary), "\n\n"), CopiedParagraph)
  }

  lemma FlattenLineBlock(line: string)
    ensures Flatten(LineBlock(line)) == CopiedLine(line)
  {
    if Trim(line) != "" {
      assert Flatten([Block(Trim(line))]) == Flatten([]) + Piece(Block(Trim(line)));
      assert TextContent([TextNode(Trim(line))]) == TextContent([]) + Trim(line);
    }
  }

  lemma FlattenParagraph(p: string)
    ensures Flatten(ParagraphBlocks(p)) == CopiedParagraph(p)
  {
    if Trim(p) != "" {
      if !Contains(p, "\n") {
        assert Flatten([Heading(p)]) == Flatten([]) + Piece(Heading(p));
        assert TextContent([TextNode(p)]) == TextContent([]) + p;
      } else {
        var lines := Split(p, "\n");
        forall line | line in lines ensures Flatten(LineBlock(line)) == CopiedLine(line) {
          FlattenLineBlock(line);
        }
        FlattenFlatMap(lines, LineBlock, CopiedLine);
      }
    }
  }

  /**
   * Copying a rendered summary yields, paragraph by paragraph, the text of
   * each single-line paragraph followed by a blank line, and each non-blank
   * line of the others, trimmed, followed by a line break.
   */
  lemma RenderedCopy(summary: string)
    ensures Flatten(Rendered(summary)) == Copied(summary)
  {
    var paragraphs := Split(Trim(summary), "\n\n");
    forall p | p in paragraphs ensures Flatten(ParagraphBlocks(p)) == CopiedParagraph(p) {
      FlattenParagraph(p);
    }
    FlattenFlatMap(paragraphs, ParagraphBlocks, CopiedParagraph);
  }

  /** A joined string with a blank separator is blank unless one of its parts is not; that part's index. */
  lemma {:induction false} NonBlankPart(parts: seq<string>, sep: string) returns (k: nat)
    requires Blank(sep) && !Blank(Join(parts, sep))
    ensures k < |parts| && !Blank(parts[k])
    decreases |parts|
  {
    if |parts| == 1 || !Blank(parts[0]) {
      k := 0;
    } else {
      var rest := Join(parts[1..], sep);
      assert Join(parts, sep) == parts[0] + sep + rest;
      assert !Blank(rest) by {
        if Blank(rest) {
          var s := parts[0] + sep + rest;
          forall i | 0 <= i < |s| ensures IsSpace(s[i]) {
            if i < |parts[0]| {
              assert s[i] == parts[0][i];
            } else if i < |parts[0]| + |sep| {
              assert s[i] == sep[i - |parts[0]|];
            } else {
              assert s[i] == rest[i - |parts[0]| - |sep|];
            }
          }
        }
      }
      var j := NonBlankPart(parts[1..], sep);
      k := j + 1;
    }
  }

  /** A string that ends with a non-blank one is not blank. */
  lemma NonBlankSuffix(u: string, v: string)
    requires !Blank(v)
    ensures !Blank(u + v)
  {
    var i :| 0 <= i < |v| && !IsSpace(v[i]);
    assert (u + v)[|u| + i] == v[i];
  }

  /** A string that starts with a non-blank one is not blank. */
  lemma NonBlankPrefix(u: string, v: string)
    requires !Blank(u)
    ensures !Blank(u + v)
  {
    var i :| 0 <= i < |u| && !IsSpace(u[i]);
    assert (u + v)[i] == u[i];
  }

  /** A paragraph that is not blank copies to text that is not blank. */
  lemma CopiedParagraphNonBlank(p: string)
    requires !Blank(p)
    ensures !Blank(CopiedParagraph(p))
  {
    if !Contains(p, "\n") {
      NonBlankPrefix(p, "\n\n");
    } else {
      var lines := Split(p, "\n");
      var k := NonBlankPart(lines, "\n");
      NonBlankPrefix(Trim(lines[k]), "\n");
      FlatMapNonBlank(lines, CopiedLine, k);
    }
  }

  /**
   * A summary that is shown always has something to copy: the copy guard
   * refuses only a summary area whose text is blank, and a rendered
   * non-blank summary flattens to non-blank text.
   */
  lemma RenderedCopyNonBlank(summary: string)
    requires Trim(summary) != ""
    ensures Trim(Flatten(Rendered(summary))) != ""
  {
    var paragraphs := Split(Trim(summary), "\n\n");
    var k := NonBlankPart(paragraphs, "\n\n");
    CopiedParagraphNonBlank(paragraphs[k]);
    FlatMapNonBlank(paragraphs, CopiedParagraph, k);
    RenderedCopy(summary);
  }

  /** The summary area of the popup and whether it and the copy button are displayed. */
  class SummaryArea {
    var children: seq<Node>
    var shown: bool

    constructor ()
      ensures children == [] && !shown
    {
      children := [];
      shown := false;
    }

    /** The reset at the start of a fetch: the previous summary is cleared and hidden. */
    method Clear()
      modifies this
      ensures children == [] && !shown
    {
      children := [];
      shown := false;
    }

    /**
     * What a fetch does to the area once the backend answers with a
     * summary: the reset, then the rendering. A blank summary leaves an
     * empty hidden area; any other shows exactly its blocks, whatever was
     * shown before.
     */
    method Present(summary: string)
      modifies this
      ensures shown <==> Trim(summary) != ""
      ensures children == if Trim(summary) == "" then [] else Rendered(summary)
    {
      Clear();
      ShowSummary(summary);
    }

    /**
     * Show the summary the backend returned: a blank summary is an error
     * (the area and the copy button are hidden); otherwise the area is
     * cleared and the blocks are appended paragraph by paragraph and line
     * by line.
     */
    method ShowSummary(summary: string)
      modifies this
      ensures Trim(summary) == "" ==> children == old(children) && !shown
      ensures Trim(summary) != "" ==> children == Rendered(summary) && shown
    {
      var text := Trim(summary);
      if text == "" {
        shown := false;
        return;
      }
      children := [];
      var paragraphs := Split(text, "\n\n");
      for i := 0 to |paragraphs|
        invariant children == FlatMap(paragraphs[..i], ParagraphBlocks)
      {
        FlatMapPrefix(paragraphs, i, ParagraphBlocks);
        AppendParagraph(paragraphs[i]);
      }
      assert paragraphs[..|paragraphs|] == paragraphs;
      shown := true;
    }

    /** The `forEach` callback for one paragraph: a blank one adds nothing, a single line an `h3`, the others their lines. */
    method AppendParagraph(paragraph: string)
      modifies this
      ensures children == old(children) + ParagraphBlocks(paragraph)
      ensures shown == old(shown)
    {
      if Trim(paragraph) != "" {
        if !Contains(paragraph, "\n") {
          children := children + [Heading(paragraph)];
        } else {
          AppendLines(Split(paragraph, "\n"));
        }
      }
    }

    /** The inner `forEach` over the lines of a multi-line paragraph. */
    method AppendLines(lines: seq<string>)
      modifies this
      ensures children == old(children) + FlatMap(lines, LineBlock)
      ensures shown == old(shown)
    {
      for k := 0 to |lines|
        invariant children == old(children) + FlatMap(lines[..k], LineBlock)
        invariant shown == old(shown)
      {
        FlatMapPrefix(lines, k, LineBlock);
        AppendLine(lines[k]);
      }
      assert lines[..|lines|] == lines;
    }

    /** The `forEach` callback for one line: a blank line adds nothing, any other its block. */
    method AppendLine(line: string)
      modifies this
      ensures children == old(children) + LineBlock(line)
      ensures shown == old(shown)
    {
      if Trim(line) != "" {
        children := children + [Block(Trim(line))];
      }
    }

    /** `copySummaryToClipboard`: the text handed to the clipboard, or nothing when it is blank. */
    method CopyText() returns (copied: Option<string>)
      ensures copied.None? <==> Trim(Flatten(children)) == ""
      ensures copied.Some? ==> copied.value == Flatten(children)
    {
      var text := ExtractFormattedText(children);
      if Trim(text) == "" {
        return None;
      }
      copied := Some(text);
    }
  }
}
