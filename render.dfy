/** The built-in default template, as the structure of the page it produces:
    the chapter's title as a heading, then each paragraph in order, then one
    link per option in order, labelled with the option's text and pointing at
    "/" followed by the option's target chapter. HTML markup, escaping and
    styling are not modelled; a page is a sequence of abstract elements. */
module Render {
  import opened Model

  datatype Element =
    | Heading(text: string)
    | Paragraph(text: string)
    | Link(href: string, text: string)
    | Text(text: string)   // literal output of a template other than the default

  type Page = seq<Element>

  /** The `range .Paragraphs` block: one paragraph element per paragraph, in order. */
  function ParagraphElements(ps: seq<string>): (r: Page)
    ensures |r| == |ps|
    ensures forall i :: 0 <= i < |ps| ==> r[i] == Paragraph(ps[i])
  {
    if ps == [] then [] else [Paragraph(ps[0])] + ParagraphElements(ps[1..])
  }

  /** The href the default template writes for an option. */
  function LinkTarget(o: Option): (href: string)
    ensures |href| == |o.chapter| + 1 && href[0] == '/' && href[1..] == o.chapter
  {
    "/" + o.chapter
  }

  /** The `range .Options` block: one link per option, in order. */
  function LinkElements(os: seq<Option>): (r: Page)
    ensures |r| == |os|
    ensures forall i :: 0 <= i < |os| ==> r[i] == Link(LinkTarget(os[i]), os[i].text)
  {
    if os == [] then [] else [Link(LinkTarget(os[0]), os[0].text)] + LinkElements(os[1..])
  }

  /** The page the default template renders for chapter `c`. */
  function DefaultPage(c: Chapter): (p: Page)
    ensures |p| == 1 + |c.paragraphs| + |c.options|
    ensures p[0] == Heading(c.title)
    ensures forall i :: 0 <= i < |c.paragraphs| ==> p[1 + i] == Paragraph(c.paragraphs[i])
    ensures forall j :: 0 <= j < |c.options| ==>
              p[1 + |c.paragraphs| + j] == Link(LinkTarget(c.options[j]), c.options[j].text)
  {
    [Heading(c.title)] + ParagraphElements(c.paragraphs) + LinkElements(c.options)
  }

  // Reading a default page back: the inverse of DefaultPage.

  datatype Reading<T> = Unreadable | Read(value: T)

  /** Splits off the longest run of paragraph elements at the front of `p`. */
  function ReadParagraphs(p: Page): (r: (seq<string>, Page))
    ensures |r.1| <= |p|
  {
    if p != [] && p[0].Paragraph? then
      var (ps, rest) := ReadParagraphs(p[1..]);
      ([p[0].text] + ps, rest)
    else
      ([], p)
  }

  /** Reads a page made only of links whose targets start with "/". */
  function ReadLinks(p: Page): Reading<seq<Option>> {
    if p == [] then Read([])
    else if p[0].Link? && p[0].href != [] && p[0].href[0] == '/' then
      match ReadLinks(p[1..])
      case Unreadable => Unreadable
      case Read(os) => Read([Option(p[0].text, p[0].href[1..])] + os)
    else Unreadable
  }

  /** Recovers the chapter a page shows, when it has the default page's shape. */
  function ReadPage(p: Page): Reading<Chapter> {
    if p == [] || !p[0].Heading? then Unreadable
    else
      var (ps, rest) := ReadParagraphs(p[1..]);
      match ReadLinks(rest)
      case Unreadable => Unreadable
      case Read(os) => Read(Chapter(p[0].text, ps, os))
  }

  lemma {:induction false} ReadParagraphsOfElements(ps: seq<string>, rest: Page)
    requires rest == [] || !rest[0].Paragraph?
    ensures ReadParagraphs(ParagraphElements(ps) + rest) == (ps, rest)
  {
    if ps == [] {
      assert ParagraphElements(ps) + rest == rest;
    } else {
      assert (ParagraphElements(ps) + rest)[1..] == ParagraphElements(ps[1..]) + rest;
      ReadParagraphsOfElements(ps[1..], rest);
      assert [ps[0]] + ps[1..] == ps;
    }
  }

  lemma {:induction false} ReadLinksOfElements(os: seq<Option>)
    ensures ReadLinks(LinkElements(os)) == Read(os)
  {
    if os != [] {
      assert LinkElements(os)[1..] == LinkElements(os[1..]);
      ReadLinksOfElements(os[1..]);
      assert [os[0]] + os[1..] == os;
    }
  }

  /** Round trip: the default page shows the chapter completely, its title,
      every paragraph and every option, in order, so it can be read back. */
  lemma {:induction false} DefaultPageReadsBack(c: Chapter)
    ensures ReadPage(DefaultPage(c)) == Read(c)
  {
    var links := LinkElements(c.options);
    var p := DefaultPage(c);
    assert p[0] == Heading(c.title);
    assert p[1..] == ParagraphElements(c.paragraphs) + links;
    assert links == [] || links[0].Link?;
    ReadParagraphsOfElements(c.paragraphs, links);
    ReadLinksOfElements(c.options);
  }

  lemma {:induction false} ReadParagraphsSplits(p: Page)
    ensures p == ParagraphElements(ReadParagraphs(p).0) + ReadParagraphs(p).1
  {
    if p != [] && p[0].Paragraph? {
      ReadParagraphsSplits(p[1..]);
      var (ps, rest) := ReadParagraphs(p[1..]);
      assert ParagraphElements([p[0].text] + ps) == [Paragraph(p[0].text)] + ParagraphElements(ps);
    }
  }

  lemma {:induction false} ReadLinksExact(p: Page)
    requires ReadLinks(p).Read?
    ensures p == LinkElements(ReadLinks(p).value)
  {
    if p != [] {
      ReadLinksExact(p[1..]);
      var os := ReadLinks(p[1..]).value;
      var o := Option(p[0].text, p[0].href[1..]);
      assert LinkTarget(o) == p[0].href;
      assert LinkElements([o] + os) == [Link(LinkTarget(o), o.text)] + LinkElements(os);
    }
  }

  /** The other direction: a page that reads as a chapter is exactly the
      default page of that chapter, so ReadPage accepts nothing else. */
  lemma {:induction false} ReadPageExact(p: Page)
    requires ReadPage(p).Read?
    ensures DefaultPage(ReadPage(p).value) == p
  {
    ReadParagraphsSplits(p[1..]);
    var (ps, rest) := ReadParagraphs(p[1..]);
    ReadLinksExact(rest);
  }
}
