/**
 * The brochure pipeline (`BrochureGenerator` and the parts of `LLMClient` that
 * are not a chat call): fetch the root page, let the classifier pick links,
 * fold the pages it picked into one content string, skipping every entry that
 * raises, and cut that string to the prompt budget.
 *
 * The network and the language model are parameters: `fetch` answers `None`
 * where fetching or parsing a URL raises, and `classify` gives the classifier's
 * reply for the root page.
 */
module Brochure {
  import opened Wrappers
  import opened Strings
  import opened Website

  /** One item of the classifier's "links" list. `url` and `kind` are `None` when
      the item is not a JSON object or has no "url" / "type" key; otherwise they
      hold the value as the program uses it (`str()` of a non-string value). */
  datatype Entry = Entry(url: Option<string>, kind: Option<string>)

  /** The value under the "links" key of a JSON object reply. `Items` covers every
      iterable value (a list, but also a string or an object, whose items are then
      malformed entries); `NotIterable` is a number, a boolean or null. */
  datatype LinksField = Absent | Items(entries: seq<Entry>) | NotIterable

  /** A parsed classifier reply: a JSON object, or any other JSON value. */
  datatype Selection = Object(links: LinksField) | NotObject

  /** What the chat backend gives back: the call raised, or it answered with text
      that did (`Some`) or did not (`None`) parse as JSON. */
  datatype Reply = ChatFailed | Replied(parsed: Option<Selection>)

  datatype Backend = OpenAI | Ollama

  /** Why a run stops without content for the synthesizer. */
  datatype Failure = RootFetchFailed | ClassifyFailed | SelectionNotObject | LinksNotIterable

  type Fetcher = string -> Option<Document>
  type Classifier = Page -> Reply

  /** The program runs with the OpenAI backend. */
  const ConfiguredBackend := OpenAI

  /** Characters of aggregated content handed to the synthesizer. */
  const MaxPromptContent := 5000

  function Min(a: int, b: int): int {
    if a <= b then a else b
  }

  /** The classifier's reply as `get_relevant_links` returns it. A failed chat call
      raises on both backends; text that is not JSON raises on OpenAI and becomes an
      empty selection on Ollama. */
  function Interpret(backend: Backend, reply: Reply): (r: Result<Selection, Failure>)
    ensures r.Failure? <==> reply.ChatFailed? || (reply == Replied(None) && backend == OpenAI)
    ensures r.Failure? ==> r.error == ClassifyFailed
    ensures reply.Replied? && reply.parsed.Some? ==> r == Success(reply.parsed.value)
    ensures backend == Ollama && reply.Replied? && reply.parsed.None? ==> r == Success(Object(Items([])))
  {
    match reply
    case ChatFailed => Failure(ClassifyFailed)
    case Replied(Some(sel)) => Success(sel)
    case Replied(None) =>
      match backend
      case Ollama => Success(Object(Items([])))
      case OpenAI => Failure(ClassifyFailed)
  }

  /** The two backends treat a reply the same way except for text that does not
      parse as JSON, where OpenAI raises and Ollama falls back to an empty selection. */
  lemma BackendsDifferOnlyOnUnparseable(reply: Reply)
    ensures Interpret(OpenAI, reply) != Interpret(Ollama, reply) <==> reply == Replied(None)
  {
    match reply
    case ChatFailed =>
    case Replied(Some(sel)) =>
    case Replied(None) =>
      assert Interpret(OpenAI, reply).Failure?;
  }

  /** `links.get("links", [])` followed by iteration: a missing key is an empty
      list; a reply that is not an object, or a value that cannot be iterated,
      raises outside the per-entry guard. */
  function Entries(sel: Selection): (r: Result<seq<Entry>, Failure>)
    ensures sel == Object(Absent) ==> r == Success([])
    ensures r.Success? <==> sel.Object? && !sel.links.NotIterable?
    ensures sel.Object? && sel.links.Items? ==> r == Success(sel.links.entries)
  {
    match sel
    case NotObject => Failure(SelectionNotObject)
    case Object(Absent) => Success([])
    case Object(Items(es)) => Success(es)
    case Object(NotIterable) => Failure(LinksNotIterable)
  }

  /** An entry contributes a page: it has both keys and its URL fetches. */
  predicate Succeeds(e: Entry, fetch: Fetcher) {
    e.url.Some? && e.kind.Some? && fetch(e.url.value).Some?
  }

  /** The text a successful entry appends: a blank line, the entry's type and a
      colon on their own line, then the fetched page's block. */
  function Section(e: Entry, fetch: Fetcher): (r: string)
    requires Succeeds(e, fetch)
    ensures var heading := "\n\n" + e.kind.value + ":\n";
            |heading| <= |r| && r[..|heading|] == heading
            && r[|heading|..] == Contents(Parse(e.url.value, fetch(e.url.value).value))
  {
    var heading := "\n\n" + e.kind.value + ":\n";
    var block := Contents(Parse(e.url.value, fetch(e.url.value).value));
    assert (heading + block)[|heading|..] == block;
    heading + block
  }

  /** A section holds the entry's type verbatim. */
  lemma SectionShowsKind(e: Entry, fetch: Fetcher)
    requires Succeeds(e, fetch)
    ensures Contains(Section(e, fetch), e.kind.value)
  {
    var block := Contents(Parse(e.url.value, fetch(e.url.value).value));
    assert Section(e, fetch) == "\n\n" + e.kind.value + (":\n" + block);
    ContainsInfix("\n\n", e.kind.value, ":\n" + block);
  }

  /** A section holds the fetched page's text verbatim. */
  lemma SectionShowsText(e: Entry, fetch: Fetcher)
    requires Succeeds(e, fetch)
    ensures Contains(Section(e, fetch), Parse(e.url.value, fetch(e.url.value).value).text)
  {
    var page := Parse(e.url.value, fetch(e.url.value).value);
    var heading := "\n\n" + e.kind.value + ":\n";
    assert Section(e, fetch) == heading + Contents(page);
    ContainsInConcat(heading, Contents(page), page.text);
  }

  /** One iteration of the aggregation loop: append the entry's section, or leave
      the content as it was when anything in the guarded block raises. */
  function Step(content: string, e: Entry, fetch: Fetcher): (r: string)
    ensures |content| <= |r| && r[..|content|] == content
    ensures r == content <==> !Succeeds(e, fetch)
  {
    if Succeeds(e, fetch) then
      assert |Section(e, fetch)| > 0;
      content + Section(e, fetch)
    else content
  }

  /** The aggregation loop: the entries are visited in order, each through `Step`. */
  function Fold(content: string, entries: seq<Entry>, fetch: Fetcher): (r: string)
    ensures |content| <= |r| && r[..|content|] == content
    decreases |entries|
  {
    if |entries| == 0 then content
    else Fold(Step(content, entries[0], fetch), entries[1..], fetch)
  }

  /** The entries that contribute a page, in their original order. */
  function Successful(entries: seq<Entry>, fetch: Fetcher): (s: seq<Entry>)
    ensures |s| <= |entries|
    ensures forall k :: 0 <= k < |s| ==> Succeeds(s[k], fetch)
    ensures forall e :: e in s <==> e in entries && Succeeds(e, fetch)
  {
    if |entries| == 0 then []
    else (if Succeeds(entries[0], fetch) then [entries[0]] else []) + Successful(entries[1..], fetch)
  }

  /** The sections of entries that all contribute, one after another. */
  function Sections(entries: seq<Entry>, fetch: Fetcher): (r: string)
    requires forall k :: 0 <= k < |entries| ==> Succeeds(entries[k], fetch)
    ensures |r| >= 2 * |entries|
  {
    if |entries| == 0 then "" else Section(entries[0], fetch) + Sections(entries[1..], fetch)
  }

  /** Reference for what the loop appends: the sections of the successful entries
      only. It is empty exactly when no entry succeeds. */
  function Enrichment(entries: seq<Entry>, fetch: Fetcher): (r: string)
    ensures r == "" <==> forall k :: 0 <= k < |entries| ==> !Succeeds(entries[k], fetch)
  {
    var s := Successful(entries, fetch);
    assert |s| > 0 ==> s[0] in entries;
    assert |s| == 0 ==> forall k :: 0 <= k < |entries| ==> entries[k] !in s;
    Sections(s, fetch)
  }

  /** What one entry adds: its section when it succeeds, nothing otherwise. */
  function Contribution(e: Entry, fetch: Fetcher): string {
    if Succeeds(e, fetch) then Section(e, fetch) else ""
  }

  /** The enrichment of a selection is the first entry's contribution followed by the rest's. */
  lemma EnrichmentFirst(entries: seq<Entry>, fetch: Fetcher)
    requires |entries| > 0
    ensures Enrichment(entries, fetch) == Contribution(entries[0], fetch) + Enrichment(entries[1..], fetch)
  {
    var e := entries[0];
    var rest := Successful(entries[1..], fetch);
    if Succeeds(e, fetch) {
      assert Successful(entries, fetch) == [e] + rest;
      assert ([e] + rest)[1..] == rest;
    } else {
      assert Successful(entries, fetch) == rest;
    }
  }

  /** The loop appends, after the starting content, exactly the sections of the
      entries that succeed, in order; the others leave no trace. */
  lemma {:induction false} FoldIsContentPlusEnrichment(content: string, entries: seq<Entry>, fetch: Fetcher)
    ensures Fold(content, entries, fetch) == content + Enrichment(entries, fetch)
    decreases |entries|
  {
    if |entries| > 0 {
      var e := entries[0];
      var added := Contribution(e, fetch);
      var later := Enrichment(entries[1..], fetch);
      var next := Step(content, e, fetch);
      assert next == content + added;
      assert Fold(content, entries, fetch) == Fold(next, entries[1..], fetch);
      FoldIsContentPlusEnrichment(next, entries[1..], fetch);
      EnrichmentFirst(entries, fetch);
      ConcatAssoc(content, added, later);
    }
  }

  /** Joining strings is associative. Stated as a lemma over opaque arguments: the
      same equation asserted inline on the fold's terms is costly for the solver. */
  lemma ConcatAssoc(a: string, b: string, c: string)
    ensures (a + b) + c == a + (b + c)
  {
  }

  /** Running the loop over the selection or over its successful entries alone
      gives the same content. */
  lemma FoldSkipsFailures(content: string, entries: seq<Entry>, fetch: Fetcher)
    ensures Fold(content, entries, fetch) == Fold(content, Successful(entries, fetch), fetch)
  {
    FoldIsContentPlusEnrichment(content, entries, fetch);
    FoldIsContentPlusEnrichment(content, Successful(entries, fetch), fetch);
    SuccessfulIdempotent(Successful(entries, fetch), fetch);
  }

  /** Filtering a selection whose entries all succeed keeps all of it. */
  lemma {:induction false} SuccessfulIdempotent(entries: seq<Entry>, fetch: Fetcher)
    requires forall k :: 0 <= k < |entries| ==> Succeeds(entries[k], fetch)
    ensures Successful(entries, fetch) == entries
    decreases |entries|
  {
    if |entries| > 0 {
      SuccessfulIdempotent(entries[1..], fetch);
      assert entries == [entries[0]] + entries[1..];
    }
  }

  /** The loop over a selection split in two is the loop over the second part
      started from the content left by the first. */
  lemma {:induction false} FoldAppend(content: string, a: seq<Entry>, b: seq<Entry>, fetch: Fetcher)
    ensures Fold(content, a + b, fetch) == Fold(Fold(content, a, fetch), b, fetch)
    decreases |a|
  {
    if |a| > 0 {
      assert (a + b)[0] == a[0];
      assert (a + b)[1..] == a[1..] + b;
      FoldAppend(Step(content, a[0], fetch), a[1..], b, fetch);
    } else {
      assert a + b == b;
    }
  }

  /** `content[:5000]`: the first 5000 characters, or all of a shorter content. */
  function PromptContent(content: string): (r: string)
    ensures |r| == Min(|content|, MaxPromptContent)
    ensures r == content[..|r|]
  {
    if |content| <= MaxPromptContent then content else content[..MaxPromptContent]
  }

  /** Cutting twice cuts no further, and the part of the content within the
      budget survives a cut of any longer content it begins. */
  lemma PromptContentPrefix(content: string, more: string)
    ensures PromptContent(PromptContent(content)) == PromptContent(content)
    ensures PromptContent(content + more)[..Min(|content|, MaxPromptContent)] == PromptContent(content)
  {
    var n := Min(|content|, MaxPromptContent);
    assert (content + more)[..n] == content[..n];
  }

  /** Everything before the loop: the root page and the entries to visit. */
  function Plan(backend: Backend, rootUrl: string, fetch: Fetcher, classify: Classifier)
    : (r: Result<(Page, seq<Entry>), Failure>)
    ensures fetch(rootUrl).None? <==> r == Failure(RootFetchFailed)
    ensures fetch(rootUrl).Some? ==>
              var root := Parse(rootUrl, fetch(rootUrl).value);
              var reply := Interpret(backend, classify(root));
              && (reply.Failure? ==> r == Failure(reply.error))
              && (reply.Success? ==> r == match Entries(reply.value)
                                          case Failure(err) => Failure(err)
                                          case Success(entries) => Success((root, entries)))
    ensures r.Success? <==>
              && fetch(rootUrl).Some?
              && Interpret(backend, classify(Parse(rootUrl, fetch(rootUrl).value))).Success?
              && Entries(Interpret(backend, classify(Parse(rootUrl, fetch(rootUrl).value))).value).Success?
    ensures r.Success? ==>
              && r.value.0 == Parse(rootUrl, fetch(rootUrl).value)
              && r.value.1 == Entries(Interpret(backend, classify(r.value.0)).value).value
  {
    match fetch(rootUrl)
    case None => Failure(RootFetchFailed)
    case Some(doc) =>
      var root := Parse(rootUrl, doc);
      match Interpret(backend, classify(root))
      case Failure(err) => Failure(err)
      case Success(sel) =>
        match Entries(sel)
        case Failure(err) => Failure(err)
        case Success(entries) => Success((root, entries))
  }

  /** The content a run hands to the synthesizer, or the failure that ends it. */
  function Generate(backend: Backend, rootUrl: string, fetch: Fetcher, classify: Classifier)
    : (r: Result<string, Failure>)
    ensures r.Success? <==> Plan(backend, rootUrl, fetch, classify).Success?
    ensures fetch(rootUrl).None? ==> r == Failure(RootFetchFailed)
    ensures r.Success? ==>
              var (root, entries) := Plan(backend, rootUrl, fetch, classify).value;
              && r.value == PromptContent(Contents(root) + Enrichment(entries, fetch))
              && |r.value| <= MaxPromptContent
              && r.value[..Min(|Contents(root)|, MaxPromptContent)] == PromptContent(Contents(root))
  {
    match Plan(backend, rootUrl, fetch, classify)
    case Failure(err) => Failure(err)
    case Success((root, entries)) =>
      var content := Fold(Contents(root), entries, fetch);
      FoldIsContentPlusEnrichment(Contents(root), entries, fetch);
      PromptContentPrefix(Contents(root), Enrichment(entries, fetch));
      Success(PromptContent(content))
  }

  /** Secondary pages never decide whether a run succeeds: two runs whose fetches
      agree on the root URL both succeed or both fail. */
  lemma SecondaryFetchesNeverAbort(backend: Backend, rootUrl: string, fetch1: Fetcher, fetch2: Fetcher,
                                   classify: Classifier)
    requires fetch1(rootUrl) == fetch2(rootUrl)
    ensures Generate(backend, rootUrl, fetch1, classify).Success?
            == Generate(backend, rootUrl, fetch2, classify).Success?
  {
    assert Plan(backend, rootUrl, fetch1, classify) == Plan(backend, rootUrl, fetch2, classify);
  }

  /** A reply without a "links" key, and on Ollama a reply that is not JSON,
      leave the content at the root page's block. */
  lemma NoEntriesGivesRootOnly(backend: Backend, rootUrl: string, fetch: Fetcher, classify: Classifier)
    requires fetch(rootUrl).Some?
    requires var reply := classify(Parse(rootUrl, fetch(rootUrl).value));
             reply == Replied(Some(Object(Absent))) || (backend == Ollama && reply == Replied(None))
    ensures Generate(backend, rootUrl, fetch, classify)
            == Success(PromptContent(Contents(Parse(rootUrl, fetch(rootUrl).value))))
  {
  }

  /** A small site: the root page "Acme" links to an about page, a login page and
      an e-mail address; only the root and the about page can be fetched. */
  const AcmeRoot := "https://acme.com"
  const AcmeAbout := "https://acme.com/about"
  const AcmeFetch: Fetcher := url =>
    if url == AcmeRoot then
      Some(Document(Some(Some("Acme")), Some("Welcome"),
                    [Some(AcmeAbout), Some("/login"), Some("mailto:x@acme.com")]))
    else if url == AcmeAbout then
      Some(Document(Some(Some("About Acme")), Some("We build widgets"), []))
    else None
  /** The classifier picks the about page only. */
  const AcmeClassify: Classifier := page =>
    Replied(Some(Object(Items([Entry(Some(AcmeAbout), Some("about"))]))))

  /** Before the loop, the Acme run has the root page and the one selected entry. */
  lemma AcmePlan()
    ensures Plan(ConfiguredBackend, AcmeRoot, AcmeFetch, AcmeClassify)
            == Success((Parse(AcmeRoot, AcmeFetch(AcmeRoot).value), [Entry(Some(AcmeAbout), Some("about"))]))
  {
    var doc := AcmeFetch(AcmeRoot).value;
    var root := Parse(AcmeRoot, doc);
    var sel := Object(Items([Entry(Some(AcmeAbout), Some("about"))]));
    assert AcmeClassify(root) == Replied(Some(sel));
    assert Interpret(ConfiguredBackend, AcmeClassify(root)) == Success(sel);
  }

  /** The Acme run appends the about page's section and nothing else. */
  lemma AcmeEnrichment()
    ensures Enrichment([Entry(Some(AcmeAbout), Some("about"))], AcmeFetch)
            == "\n\n" + "about" + ":\n" + Block("About Acme", "We build widgets")
  {
    var entry := Entry(Some(AcmeAbout), Some("about"));
    assert Succeeds(entry, AcmeFetch);
    assert Section(entry, AcmeFetch) == "\n\n" + "about" + ":\n" + Block("About Acme", "We build widgets");
    EnrichmentFirst([entry], AcmeFetch);
  }

  /** The content of the Acme run: the root block, then the about page's section. */
  lemma AcmeContent()
    ensures Generate(ConfiguredBackend, AcmeRoot, AcmeFetch, AcmeClassify)
            == Success(Block("Acme", "Welcome") + ("\n\n" + "about" + ":\n" + Block("About Acme", "We build widgets")))
  {
    var root := Parse(AcmeRoot, AcmeFetch(AcmeRoot).value);
    AcmePlan();
    AcmeEnrichment();
    var section := "\n\n" + "about" + ":\n" + Block("About Acme", "We build widgets");
    assert Contents(root) == Block("Acme", "Welcome");
    assert |Block("Acme", "Welcome") + section| <= MaxPromptContent;
  }

  /** Content made of a root block and one section shows the root title and the
      section's text. */
  lemma RootAndSectionShown(rootTitle: string, rootText: string, kind: string, title: string, text: string)
    ensures var content := Block(rootTitle, rootText) + ("\n\n" + kind + ":\n" + Block(title, text));
            Contains(content, rootTitle) && Contains(content, text)
  {
    var heading := "\n\n" + kind + ":\n";
    BlockShowsTitleAndText(rootTitle, rootText);
    ContainsInConcat(Block(rootTitle, rootText), heading + Block(title, text), rootTitle);
    BlockShowsTitleAndText(title, text);
    ContainsInConcat(heading, Block(title, text), text);
    ContainsInConcat(Block(rootTitle, rootText), heading + Block(title, text), text);
  }

  /** The synthesizer receives content that holds the root page's title and the
      about page's text. */
  lemma AcmeScenario()
    ensures var r := Generate(ConfiguredBackend, AcmeRoot, AcmeFetch, AcmeClassify);
            && r.Success?
            && Contains(r.value, "Acme")
            && Contains(r.value, "We build widgets")
  {
    AcmeContent();
    RootAndSectionShown("Acme", "Welcome", "about", "About Acme", "We build widgets");
  }
}
