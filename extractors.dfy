/**
 * The three file readers of the summarizer: plain text passed through, PDF
 * pages concatenated with no separator, DOCX paragraphs each followed by a
 * newline. The libraries that open and parse the files are inputs: what
 * they would answer, call by call, including an exception at any point.
 */
module Extractors {
  import opened Wrappers

  /** One call into a foreign library: it answers, or it raises. */
  datatype Attempt<+T> = Done(value: T) | Raised

  /** A document as the parsing library presents it: it cannot be opened
      or parsed at all, or it yields its items (pages, paragraphs) one by
      one, each of which may still raise when it is read. */
  datatype Document<+T> = Unopenable | Opened(items: seq<Attempt<T>>)

  /** No item of the document raises. */
  predicate AllDone<T>(items: seq<Attempt<T>>) {
    forall i :: 0 <= i < |items| ==> items[i].Done?
  }

  /** The answers of the items, in document order. */
  function Values<T>(items: seq<Attempt<T>>): (vs: seq<T>)
    requires AllDone(items)
    ensures |vs| == |items|
    ensures forall i :: 0 <= i < |items| ==> vs[i] == items[i].value
  {
    if items == [] then [] else Values(items[..|items| - 1]) + [items[|items| - 1].value]
  }

  lemma ValuesPrefix<T>(items: seq<Attempt<T>>, i: nat)
    requires i < |items| && AllDone(items[..i + 1])
    ensures AllDone(items[..i])
    ensures Values(items[..i + 1]) == Values(items[..i]) + [items[i].value]
  {
  }

  // ---------------------------------------------------------------------
  // Plain text

  /** `read_text_file`: the contents of the file exactly as read, or `None`
      when opening, reading or decoding raises. */
  function ReadTextFile(read: Attempt<string>): (r: Option<string>)
    ensures r.None? <==> read.Raised?
    ensures read.Done? ==> r == Some(read.value)
  {
    match read
    case Done(contents) => Some(contents)
    case Raised => None
  }

  // ---------------------------------------------------------------------
  // PDF

  /** What one page adds: `extract_text() or ""`. */
  function PageText(page: Option<string>): string {
    page.GetOr("")
  }

  /** The pages' texts in page order with no separator. */
  function ConcatPages(pages: seq<Option<string>>): string {
    if pages == [] then "" else ConcatPages(pages[..|pages| - 1]) + PageText(pages[|pages| - 1])
  }

  /** Total length of the pages that have a text. */
  function TextLength(pages: seq<Option<string>>): nat {
    if pages == [] then 0
    else TextLength(pages[1..]) + (if pages[0].Some? then |pages[0].value| else 0)
  }

  /** The value `read_pdf_file` computes for a document. */
  function PdfText(doc: Document<Option<string>>): Option<string> {
    if doc.Opened? && AllDone(doc.items) then Some(ConcatPages(Values(doc.items))) else None
  }

  /** `read_pdf_file`: walks the pages, growing the text one page at a time;
      an exception at any point discards what was gathered. */
  method ReadPdfFile(doc: Document<Option<string>>) returns (r: Option<string>)
    ensures r == PdfText(doc)
  {
    var text := "";
    if doc.Unopenable? {
      return None;
    }
    var pages := doc.items;
    for pageNum := 0 to |pages|
      invariant AllDone(pages[..pageNum])
      invariant text == ConcatPages(Values(pages[..pageNum]))
    {
      match pages[pageNum]
      case Raised =>
        return None;
      case Done(page) =>
        ValuesPrefix(pages, pageNum);
        assert Values(pages[..pageNum + 1])[..pageNum] == Values(pages[..pageNum]);
        text := text + PageText(page);
    }
    assert pages[..|pages|] == pages;
    return Some(text);
  }

  /** Appending a page adds its text's length, or nothing for a page with
      no text. */
  lemma {:induction false} TextLengthSnoc(pages: seq<Option<string>>, page: Option<string>)
    ensures TextLength(pages + [page]) == TextLength(pages) + |PageText(page)|
  {
    if pages != [] {
      assert (pages + [page])[1..] == pages[1..] + [page];
      TextLengthSnoc(pages[1..], page);
    }
  }

  /** The concatenation is as long as all page texts together. */
  lemma {:induction false} ConcatPagesLength(pages: seq<Option<string>>)
    ensures |ConcatPages(pages)| == TextLength(pages)
  {
    if pages != [] {
      var n := |pages| - 1;
      ConcatPagesLength(pages[..n]);
      TextLengthSnoc(pages[..n], pages[n]);
      assert pages[..n] + [pages[n]] == pages;
    }
  }

  /** Concatenation distributes over splitting the page list. */
  lemma {:induction false} ConcatPagesAppend(front: seq<Option<string>>, back: seq<Option<string>>)
    ensures ConcatPages(front + back) == ConcatPages(front) + ConcatPages(back)
    decreases |back|
  {
    if back == [] {
      assert front + back == front;
    } else {
      var n := |back| - 1;
      var whole := front + back;
      assert whole[..|whole| - 1] == front + back[..n];
      assert whole[|whole| - 1] == back[n];
      ConcatPagesAppend(front, back[..n]);
    }
  }

  /** Page `i` appears whole, right after the pages before it and right
      before the pages after it: page order, no separator. */
  lemma PageInPlace(pages: seq<Option<string>>, i: nat)
    requires i < |pages|
    ensures ConcatPages(pages) == ConcatPages(pages[..i]) + PageText(pages[i]) + ConcatPages(pages[i + 1..])
  {
    var before, after := pages[..i + 1], pages[i + 1..];
    assert pages == before + after;
    ConcatPagesAppend(before, after);
    assert before[..i] == pages[..i];
    assert ConcatPages(before) == ConcatPages(pages[..i]) + PageText(pages[i]);
  }

  /** A page without text contributes the empty string: dropping it does
      not change the result. */
  lemma TextlessPageContributesNothing(pages: seq<Option<string>>, i: nat)
    requires i < |pages| && pages[i].None?
    ensures ConcatPages(pages) == ConcatPages(pages[..i] + pages[i + 1..])
  {
    PageInPlace(pages, i);
    ConcatPagesAppend(pages[..i], pages[i + 1..]);
  }

  /** Extraction of a PDF fails exactly when the file cannot be opened or
      some page raises; it is then `None`, never a partial text. */
  lemma PdfFailsWhole(doc: Document<Option<string>>)
    ensures PdfText(doc).None? <==> doc.Unopenable? || exists i :: 0 <= i < |doc.items| && doc.items[i].Raised?
  {
  }

  /** On success the text is as long as the page texts together, and a
      document with no pages, or with no page that has text, gives the
      empty string rather than `None`. */
  lemma {:induction false} PdfSuccess(doc: Document<Option<string>>)
    requires doc.Opened? && AllDone(doc.items)
    ensures PdfText(doc).Some?
    ensures |PdfText(doc).value| == TextLength(Values(doc.items))
    ensures (forall i :: 0 <= i < |doc.items| ==> doc.items[i].value.None?) ==> PdfText(doc) == Some("")
  {
    var pages := Values(doc.items);
    ConcatPagesLength(pages);
    if forall i :: 0 <= i < |doc.items| ==> doc.items[i].value.None? {
      NoTextNoLength(pages);
    }
  }

  lemma {:induction false} NoTextNoLength(pages: seq<Option<string>>)
    requires forall i :: 0 <= i < |pages| ==> pages[i].None?
    ensures TextLength(pages) == 0
  {
    if pages != [] {
      NoTextNoLength(pages[1..]);
    }
  }

  // ---------------------------------------------------------------------
  // DOCX

  /** Each paragraph's text followed by one newline, in document order. */
  function ParagraphsText(paragraphs: seq<string>): string {
    if paragraphs == [] then ""
    else ParagraphsText(paragraphs[..|paragraphs| - 1]) + paragraphs[|paragraphs| - 1] + "\n"
  }

  /** Total length of the paragraphs' texts. */
  function TotalLength(paragraphs: seq<string>): nat {
    if paragraphs == [] then 0 else |paragraphs[0]| + TotalLength(paragraphs[1..])
  }

  /** The value `read_docx_file` computes for a document. */
  function DocxText(doc: Document<string>): Option<string> {
    if doc.Opened? && AllDone(doc.items) then Some(ParagraphsText(Values(doc.items))) else None
  }

  /** `read_docx_file`: walks the paragraphs, appending each text and a
      newline; an exception at any point discards what was gathered. */
  method ReadDocxFile(doc: Document<string>) returns (r: Option<string>)
    ensures r == DocxText(doc)
  {
    var text := "";
    if doc.Unopenable? {
      return None;
    }
    var paragraphs := doc.items;
    for i := 0 to |paragraphs|
      invariant AllDone(paragraphs[..i])
      invariant text == ParagraphsText(Values(paragraphs[..i]))
    {
      match paragraphs[i]
      case Raised =>
        return None;
      case Done(para) =>
        ValuesPrefix(paragraphs, i);
        assert Values(paragraphs[..i + 1])[..i] == Values(paragraphs[..i]);
        text := text + para + "\n";
    }
    assert paragraphs[..|paragraphs|] == paragraphs;
    return Some(text);
  }

  /** Each paragraph adds its text and exactly one newline; the result
      ends in a newline unless there are no paragraphs, in which case it
      is empty. */
  lemma {:induction false} ParagraphsTextShape(paragraphs: seq<string>)
    ensures |ParagraphsText(paragraphs)| == TotalLength(paragraphs) + |paragraphs|
    ensures paragraphs == [] <==> ParagraphsText(paragraphs) == ""
    ensures paragraphs != [] ==> ParagraphsText(paragraphs)[|ParagraphsText(paragraphs)| - 1] == '\n'
  {
    if paragraphs != [] {
      var n := |paragraphs| - 1;
      ParagraphsTextShape(paragraphs[..n]);
      TotalLengthSnoc(paragraphs[..n], paragraphs[n]);
      assert paragraphs[..n] + [paragraphs[n]] == paragraphs;
    }
  }

  lemma {:induction false} TotalLengthSnoc(paragraphs: seq<string>, p: string)
    ensures TotalLength(paragraphs + [p]) == TotalLength(paragraphs) + |p|
  {
    if paragraphs != [] {
      assert (paragraphs + [p])[1..] == paragraphs[1..] + [p];
      TotalLengthSnoc(paragraphs[1..], p);
    }
  }

  /** Read from the front: the first paragraph, its newline, then the rest. */
  lemma {:induction false} ParagraphsTextCons(p: string, rest: seq<string>)
    ensures ParagraphsText([p] + rest) == p + "\n" + ParagraphsText(rest)
    decreases |rest|
  {
    if rest != [] {
      var n := |rest| - 1;
      assert ([p] + rest)[..|rest|] == [p] + rest[..n];
      ParagraphsTextCons(p, rest[..n]);
    }
  }

  /** Position of the first newline of `s`, or `|s|` when there is none. */
  function NewlineIndex(s: string): (k: nat)
    ensures k <= |s|
    ensures forall j :: 0 <= j < k ==> s[j] != '\n'
    ensures k < |s| ==> s[k] == '\n'
  {
    if s == "" || s[0] == '\n' then 0 else 1 + NewlineIndex(s[1..])
  }

  /** Cuts a text into the lines that newlines end; a last line with no
      newline after it is kept as it is. */
  function SplitParagraphs(s: string): seq<string>
    decreases |s|
  {
    if s == "" then []
    else
      var k := NewlineIndex(s);
      if k == |s| then [s] else [s[..k]] + SplitParagraphs(s[k + 1..])
  }

  /** The newline after each paragraph is a true separator: when no
      paragraph holds a newline of its own, cutting the extracted text at
      its newlines gives back the paragraphs. */
  lemma {:induction false} SplitParagraphsText(paragraphs: seq<string>)
    requires forall i :: 0 <= i < |paragraphs| ==> '\n' !in paragraphs[i]
    ensures SplitParagraphs(ParagraphsText(paragraphs)) == paragraphs
    decreases |paragraphs|
  {
    if paragraphs != [] {
      var p, rest := paragraphs[0], paragraphs[1..];
      assert paragraphs == [p] + rest;
      ParagraphsTextCons(p, rest);
      var s := ParagraphsText(paragraphs);
      assert s == p + "\n" + ParagraphsText(rest);
      assert s[|p|] == '\n';
      assert forall j :: 0 <= j < |p| ==> s[j] == p[j];
      var k := NewlineIndex(s);
      assert k == |p|;
      assert s[..k] == p;
      assert s[k + 1..] == ParagraphsText(rest);
      SplitParagraphsText(rest);
    }
  }

  /** Extraction of a DOCX fails exactly when the file cannot be opened or
      some paragraph raises; it is then `None`, never a partial text. */
  lemma DocxFailsWhole(doc: Document<string>)
    ensures DocxText(doc).None? <==> doc.Unopenable? || exists i :: 0 <= i < |doc.items| && doc.items[i].Raised?
  {
  }
}
