/**
 * One fetched page (`Website` in main.py): the title with its fallback, the
 * visible body text, the outbound-link filter and the text block the page
 * contributes to the brochure content.
 *
 * The HTTP request and the HTML parser are outside the model; a `Document`
 * is what the parser hands back for one response.
 */
module Website {
  import opened Wrappers
  import opened Strings

  /** The parser's view of one page.
      `titleTag`: `None` when the page has no `<title>`; `Some(t)` otherwise,
      where `t` is the tag's `.string`: `None` when the tag has no children or
      more than one child (with exactly one child tag, the parser descends into it).
      `bodyText`: `None` when there is no `<body>`; otherwise the visible text
      of the body with script/style/img/input removed.
      `hrefs`: the `href` attribute of every `<a>` in document order, `None`
      where the anchor has none. */
  datatype Document = Document(
    titleTag: Option<Option<string>>,
    bodyText: Option<string>,
    hrefs: seq<Option<string>>)

  /** A constructed `Website`: `title` is a Python string or `None`. */
  datatype Page = Page(url: string, title: Option<string>, text: string, links: seq<string>)

  const NoTitle := "No title found"

  /** The title a page gets: its `<title>` tag's string, or the sentinel when
      the page has no `<title>` at all. */
  function TitleOf(titleTag: Option<Option<string>>): (t: Option<string>)
    ensures titleTag.None? ==> t == Some(NoTitle)
    ensures titleTag.Some? ==> t == titleTag.value
  {
    if titleTag.Some? then titleTag.value else Some(NoTitle)
  }

  /** An `href` survives the filter: present, non-empty, and contains "http". */
  function KeepLink(href: Option<string>): (keep: bool)
    ensures keep <==> href.Some? && |href.value| > 0 && exists i :: OccursAt(href.value, "http", i)
  {
    href.Some? && |href.value| > 0 && Contains(href.value, "http")
  }

  /** The outbound links of a page, in document order. */
  function ExtractLinks(hrefs: seq<Option<string>>): (links: seq<string>)
    ensures |links| <= |hrefs|
    ensures forall k :: 0 <= k < |links| ==> |links[k]| > 0 && Contains(links[k], "http")
  {
    if |hrefs| == 0 then []
    else (if KeepLink(hrefs[0]) then [hrefs[0].value] else []) + ExtractLinks(hrefs[1..])
  }

  /** `xs` can be obtained from the present entries of `hs` by deleting some of them. */
  ghost predicate SubsequenceOf(xs: seq<string>, hs: seq<Option<string>>)
    decreases |hs|
  {
    |xs| == 0
    || (|hs| > 0
        && ((hs[0] == Some(xs[0]) && SubsequenceOf(xs[1..], hs[1..]))
            || SubsequenceOf(xs, hs[1..])))
  }

  /** The filter preserves order: its output is a subsequence of the input's hrefs. */
  lemma {:induction false} ExtractLinksOrdered(hrefs: seq<Option<string>>)
    ensures SubsequenceOf(ExtractLinks(hrefs), hrefs)
  {
    if |hrefs| > 0 {
      var rest := ExtractLinks(hrefs[1..]);
      var r := ExtractLinks(hrefs);
      ExtractLinksOrdered(hrefs[1..]);
      if KeepLink(hrefs[0]) {
        assert r == [hrefs[0].value] + rest;
        assert r[1..] == rest;
      } else {
        assert r == rest;
        if |r| > 0 {
          assert SubsequenceOf(r, hrefs[1..]);
        }
      }
    }
  }

  /** How often `s` occurs in the filter's output, split into the first anchor and the rest. */
  lemma LinkCountOfFirst(hrefs: seq<Option<string>>, s: string)
    requires |hrefs| > 0
    ensures multiset(ExtractLinks(hrefs))[s]
            == (if KeepLink(hrefs[0]) && hrefs[0] == Some(s) then 1 else 0)
               + multiset(ExtractLinks(hrefs[1..]))[s]
  {
    var rest := ExtractLinks(hrefs[1..]);
    if KeepLink(hrefs[0]) {
      assert ExtractLinks(hrefs) == [hrefs[0].value] + rest;
      assert multiset(ExtractLinks(hrefs)) == multiset{hrefs[0].value} + multiset(rest);
    } else {
      assert ExtractLinks(hrefs) == rest;
    }
  }

  /** How often `h` occurs among the hrefs, split into the first anchor and the rest. */
  lemma HrefCountOfFirst(hrefs: seq<Option<string>>, h: Option<string>)
    requires |hrefs| > 0
    ensures multiset(hrefs)[h] == (if hrefs[0] == h then 1 else 0) + multiset(hrefs[1..])[h]
  {
    assert hrefs == [hrefs[0]] + hrefs[1..];
    assert multiset(hrefs) == multiset{hrefs[0]} + multiset(hrefs[1..]);
  }

  /** The filter is complete: every string occurs in the output exactly as often
      as it occurs among the input's hrefs if it is acceptable, and not at all
      otherwise. */
  lemma {:induction false} ExtractLinksCounts(hrefs: seq<Option<string>>)
    ensures forall s :: multiset(ExtractLinks(hrefs))[s]
                        == if KeepLink(Some(s)) then multiset(hrefs)[Some(s)] else 0
  {
    if |hrefs| > 0 {
      ExtractLinksCounts(hrefs[1..]);
      forall s ensures multiset(ExtractLinks(hrefs))[s]
                      == if KeepLink(Some(s)) then multiset(hrefs)[Some(s)] else 0
      {
        LinkCountOfFirst(hrefs, s);
        HrefCountOfFirst(hrefs, Some(s));
      }
    }
  }

  /** A string is among the extracted links exactly when some anchor carries it
      as its href and it passes the filter. */
  lemma LinkKeptIff(hrefs: seq<Option<string>>, s: string)
    ensures s in ExtractLinks(hrefs) <==> Some(s) in hrefs && |s| > 0 && Contains(s, "http")
  {
    ExtractLinksCounts(hrefs);
    assert s in ExtractLinks(hrefs) <==> multiset(ExtractLinks(hrefs))[s] > 0;
    assert Some(s) in hrefs <==> multiset(hrefs)[Some(s)] > 0;
  }

  /** Filtering a document in two parts gives the two parts' links in order. */
  lemma {:induction false} ExtractLinksAppend(a: seq<Option<string>>, b: seq<Option<string>>)
    ensures ExtractLinks(a + b) == ExtractLinks(a) + ExtractLinks(b)
  {
    if |a| > 0 {
      assert (a + b)[1..] == a[1..] + b;
      ExtractLinksAppend(a[1..], b);
    } else {
      assert a + b == b;
    }
  }

  /** Any href with "http" somewhere in it is kept, e.g. "https://x.com". */
  lemma KeepsHttpHref(before: string, after: string)
    ensures ExtractLinks([Some(before + "http" + after)]) == [before + "http" + after]
  {
    ContainsInfix(before, "http", after);
  }

  /** Every href without "http" in it is dropped, and so are missing and empty hrefs. */
  lemma DropsHrefWithoutHttp(href: string)
    requires !Contains(href, "http")
    ensures ExtractLinks([Some(href)]) == []
    ensures ExtractLinks([None]) == [] && ExtractLinks([Some("")]) == []
  {
  }

  /** A relative link is dropped even though it has an 'h' in it. */
  lemma DropsRelativePath()
    ensures ExtractLinks([Some("/relative/path")]) == []
  {
    NotContainsWithoutFirstPair("/relative/path", "http");
  }

  /** Mail links are dropped. */
  lemma DropsMailto()
    ensures ExtractLinks([Some("mailto:a@b.com")]) == []
  {
    NotContainsWithoutFirstPair("mailto:a@b.com", "http");
  }

  /** A mail link is dropped also when the address holds an 'h'. */
  lemma DropsMailtoWithH()
    ensures ExtractLinks([Some("mailto:hello@acme.com")]) == []
  {
    NotContainsWithoutFirstPair("mailto:hello@acme.com", "http");
  }

  /** Script links are dropped. */
  lemma DropsJavascript()
    ensures ExtractLinks([Some("javascript:void(0)")]) == []
  {
    NotContainsWithoutFirstPair("javascript:void(0)", "http");
  }

  /** Build the `Website` for `url` from its parsed document. A page without a
      `<body>` has empty text. */
  function Parse(url: string, doc: Document): (p: Page)
    ensures p.url == url
    ensures p.title == TitleOf(doc.titleTag)
    ensures doc.titleTag.None? ==> p.title == Some(NoTitle)
    ensures p.text == doc.bodyText.GetOr("")
    ensures doc.bodyText.None? ==> p.text == ""
    ensures p.links == ExtractLinks(doc.hrefs)
    ensures forall s :: s in p.links <==> Some(s) in doc.hrefs && KeepLink(Some(s))
  {
    var links := ExtractLinks(doc.hrefs);
    assert forall s :: s in links <==> Some(s) in doc.hrefs && KeepLink(Some(s)) by {
      forall s ensures s in links <==> Some(s) in doc.hrefs && KeepLink(Some(s)) {
        LinkKeptIff(doc.hrefs, s);
      }
    }
    Page(url, TitleOf(doc.titleTag), doc.bodyText.GetOr(""), links)
  }

  /** How an f-string shows a value that is a string or `None`. */
  function Show(v: Option<string>): (shown: string)
    ensures v.Some? ==> shown == v.value
    ensures v.None? ==> shown == "None"
  {
    v.GetOr("None")
  }

  const TitleLabel := "Webpage Title:\n"
  const ContentsLabel := "\nWebpage Contents:\n"
  const BlockEnd := "\n\n"

  /** The labelled block for a page with the given title and text: it decodes
      back into that title and text. */
  function Block(title: string, text: string): (b: string)
    ensures SplitBlock(b, |title|) == Some((title, text))
  {
    var b := TitleLabel + title + ContentsLabel + text + BlockEnd;
    var textStart := |TitleLabel| + |title| + |ContentsLabel|;
    assert b[..|TitleLabel|] == TitleLabel;
    assert b[|TitleLabel|..|TitleLabel| + |title|] == title;
    assert b[|TitleLabel| + |title|..textStart] == ContentsLabel;
    assert b[textStart..|b| - |BlockEnd|] == text;
    assert b[|b| - |BlockEnd|..] == BlockEnd;
    b
  }

  /** The text a page contributes to the brochure content (`get_contents`): a
      block that decodes to the page's shown title and its text, and that holds
      the text verbatim. */
  function Contents(p: Page): (block: string)
    ensures SplitBlock(block, |Show(p.title)|) == Some((Show(p.title), p.text))
    ensures Contains(block, p.text)
  {
    BlockShowsTitleAndText(Show(p.title), p.text);
    Block(Show(p.title), p.text)
  }

  /** Read a block back into its title and text, given the title's length (the
      title itself may contain the contents label, so the length is needed). */
  function SplitBlock(block: string, titleLength: nat): Option<(string, string)> {
    var textStart := |TitleLabel| + titleLength + |ContentsLabel|;
    if textStart + |BlockEnd| <= |block|
       && block[..|TitleLabel|] == TitleLabel
       && block[|TitleLabel| + titleLength..textStart] == ContentsLabel
       && block[|block| - |BlockEnd|..] == BlockEnd
    then Some((block[|TitleLabel|..|TitleLabel| + titleLength], block[textStart..|block| - |BlockEnd|]))
    else None
  }

  /** Whatever decodes as a block is exactly the block of what it decodes to. */
  lemma BlockOfSplitBlock(block: string, titleLength: nat)
    requires SplitBlock(block, titleLength).Some?
    ensures var (title, text) := SplitBlock(block, titleLength).value;
            |title| == titleLength && block == Block(title, text)
  {
    var (title, text) := SplitBlock(block, titleLength).value;
    var textStart := |TitleLabel| + titleLength + |ContentsLabel|;
    assert block == block[..|TitleLabel|] + block[|TitleLabel|..|TitleLabel| + titleLength]
                    + block[|TitleLabel| + titleLength..textStart]
                    + block[textStart..|block| - |BlockEnd|] + block[|block| - |BlockEnd|..];
  }

  /** The page block shows the `<title>` string, or the sentinel when the page has
      no `<title>`, and holds the visible body text verbatim. */
  lemma ContentsOfParsedPage(url: string, doc: Document)
    ensures doc.titleTag.None? ==> SplitBlock(Contents(Parse(url, doc)), |NoTitle|) == Some((NoTitle, doc.bodyText.GetOr("")))
    ensures doc.titleTag.Some? && doc.titleTag.value.Some?
            ==> var t := doc.titleTag.value.value;
                SplitBlock(Contents(Parse(url, doc)), |t|) == Some((t, doc.bodyText.GetOr("")))
    ensures Contains(Contents(Parse(url, doc)), doc.bodyText.GetOr(""))
  {
  }

  /** Both the title and the text appear verbatim in a block. */
  lemma BlockShowsTitleAndText(title: string, text: string)
    ensures Contains(Block(title, text), title)
    ensures Contains(Block(title, text), text)
  {
    var b := TitleLabel + title + ContentsLabel + text + BlockEnd;
    assert Block(title, text) == b;
    ContainsInfix(TitleLabel, title, ContentsLabel + text + BlockEnd);
    assert b == TitleLabel + title + (ContentsLabel + text + BlockEnd);
    ContainsInfix(TitleLabel + title + ContentsLabel, text, BlockEnd);
  }
}
