# AI-powered brochure builder: the content pipeline in Dafny

The brochure builder fetches a company's website, keeps the page's outbound
links, asks a language model which of them matter for a brochure (about,
careers, products, contact), fetches those pages too, and hands the collected
text to the language model to write a Markdown brochure. Around the network,
the HTML parser, the two chat backends and the Streamlit front end sits a
small deterministic pipeline, and that is what this project models:

- `Website` (`website.dfy`): a fetched page. It covers the title with its
  "No title found" fallback, the empty text of a page without `<body>`, the
  link filter (present, non-empty, contains `"http"`, in document order) and
  the labelled block `get_contents` produces.
- `Brochure` (`brochure.dfy`): how a classifier reply is read on each backend
  (OpenAI raises on non-JSON text, Ollama falls back to `{"links": []}`) and
  `links.get("links", [])`. It also covers the best-effort aggregation loop,
  where an entry that lacks `url`/`type` or whose fetch raises is skipped, and
  the `content[:5000]` cut applied before synthesis. `Generate` returns the
  content handed to the synthesizer, or the failure that ends the run.
- `ApiKey` (`apikey.dfy`): the start-up check that the OpenAI key is present
  and starts with `sk-`.
- `Strings` (`strings.dfy`): `str.startswith` and the substring test `in`,
  each tied to a slice-based characterisation. `Wrappers` (`wrappers.dfy`)
  holds `Option` and `Result`.

The network and the model are parameters. `fetch: string -> Option<Document>`
stands for `requests.get` followed by BeautifulSoup. `None` means the call
raised. A `Document` is what the parser reports: the `<title>` tag and its
`.string`, the visible body text, and the `href` of every anchor.
`classify: Page -> Reply` stands for the chat call plus `json.loads`. Strings
are sequences of Unicode scalar values, so `content[:5000]` counts code
points as Python does.

Behaviour kept from the code that a reader might not expect:
- A `<title>` tag whose `.string` is `None` gives the title `None`. BeautifulSoup
  gives `None` when the tag has no children or more than one child; with
  exactly one child tag it descends into that child. The f-string shows it as the text
  `"None"` (`Show`). Only a page with no `<title>` at all gets the sentinel.
- `links.get("links", [])` runs outside the per-entry `try`. A reply that is
  JSON but not an object (`SelectionNotObject`) ends the run. So does a
  "links" value that cannot be iterated (`LinksNotIterable`).
- A "type" value that is not a string still labels its section through
  `str()`. An entry is skipped only when a key is missing, when the item is
  not an object, or when the fetch raises.

## Model

| member | source | states |
|---|---|---|
| `Strings.StartsWith` | main.py:13 | `startswith` holds exactly when the prefix fits in the string and equals its leading slice |
| `Strings.OccursFirstOrLater` | main.py:43 | an occurrence of `sub` in `s` is either at index 0 or an occurrence in the rest of `s` |
| `Strings.Contains` | main.py:43 | the substring test `sub in s` holds exactly when `sub` occurs at some index of `s` |
| `Strings.NotContainsWithoutFirstPair` | main.py:43 | a string in which the first two characters of `sub` never stand side by side does not contain `sub` |
| `Strings.ContainsInConcat` | main.py:136 | appending text on either side of a string never hides a substring it contains |
| `ApiKey.Accepted` | main.py:13 | the key passes exactly when it is present, at least three characters long, and begins with "sk-" |
| `ApiKey.AcceptedIffPrefixed` | main.py:13 | a key is accepted if and only if it is "sk-" followed by some string |
| `ApiKey.AcceptedExamples` | main.py:13 | "sk-…" is accepted; a missing key, "", "sk" and "pk-…" are refused |
| `Website.TitleOf` | main.py:30 | no `<title>` gives "No title found"; otherwise the title is the tag's `.string`, which may be `None` |
| `Website.KeepLink` | main.py:43 | an href passes the filter exactly when it is present, non-empty and "http" occurs at some index of it |
| `Website.ExtractLinks` | main.py:41-43 | every returned link is non-empty and contains "http", and there are no more links than anchors |
| `Website.ExtractLinksOrdered` | main.py:42-43 | the filter's output is a subsequence of the anchors' hrefs, so document order is kept |
| `Website.ExtractLinksCounts` | main.py:42-43 | each string occurs in the output as often as among the hrefs when it passes the filter, and otherwise not at all |
| `Website.LinkKeptIff` | main.py:42-43 | a string is among the links if and only if some anchor's href is that string and it is non-empty and contains "http" |
| `Website.ExtractLinksAppend` | main.py:42-43 | filtering two runs of anchors gives the first run's links followed by the second run's |
| `Website.KeepsHttpHref` | main.py:43 | an href with "http" anywhere in it, such as "https://x.com", is kept |
| `Website.DropsHrefWithoutHttp` | main.py:43 | every href without "http" in it is dropped, and so are missing and empty hrefs |
| `Website.DropsRelativePath` | main.py:43 | "/relative/path" is dropped, although it contains an 'h' |
| `Website.DropsMailto` | main.py:43 | "mailto:a@b.com" is dropped |
| `Website.DropsMailtoWithH` | main.py:43 | "mailto:hello@acme.com" is dropped, although its address contains an 'h' |
| `Website.DropsJavascript` | main.py:43 | "javascript:void(0)" is dropped |
| `Website.Parse` | main.py:26-43 | a page keeps its URL. Its title is the `<title>` string, or the sentinel without a `<title>`. Its text is the body text, or empty without a `<body>`. Its links are the filter's output over the hrefs, so order and repeats carry over |
| `Website.Show` | main.py:46 | the f-string shows a string as itself and `None` as "None" |
| `Website.Block` | main.py:46 | a page block decodes back to the title and text it was built from |
| `Website.Contents` | main.py:46 | `get_contents` gives a block that decodes to the page's shown title and its text, and that holds the text verbatim |
| `Website.BlockOfSplitBlock` | main.py:46 | any string that decodes as a block is exactly the block of its decoded title and text |
| `Website.ContentsOfParsedPage` | main.py:30-46 | a page's block shows the `<title>` string, or "No title found" without a `<title>`, and holds the body text verbatim |
| `Website.BlockShowsTitleAndText` | main.py:46 | the title and the text both occur verbatim in a page block |
| `Brochure.Interpret` | main.py:68-89 | a failed chat call raises on both backends; non-JSON text raises on OpenAI and becomes `{"links": []}` on Ollama; parsed JSON is passed through |
| `Brochure.BackendsDifferOnlyOnUnparseable` | main.py:76-89 | the two backends give different outcomes for a reply if and only if its text is not JSON |
| `Brochure.Entries` | main.py:133 | a missing "links" key means no entries; iterating succeeds exactly for an object whose "links" value is iterable |
| `Brochure.Succeeds` | main.py:134-136 | an entry contributes exactly when it has a "url" and a "type" and its URL fetches |
| `Brochure.Section` | main.py:136 | the appended text is the heading "\n\n" + type + ":\n" followed by exactly the fetched page's block |
| `Brochure.SectionShowsKind` | main.py:136 | a section holds the entry's type verbatim |
| `Brochure.SectionShowsText` | main.py:136 | a section holds the fetched page's text verbatim |
| `Brochure.Step` | main.py:134-138 | one iteration only ever appends to the content, and it leaves the content unchanged exactly when the entry lacks a key or its fetch fails |
| `Brochure.Fold` | main.py:131-138 | the loop's result always begins with the content it started from, so the root block comes first |
| `Brochure.Successful` | main.py:133-138 | the contributing entries are exactly the input entries that have both keys and fetch |
| `Brochure.Enrichment` | main.py:133-138 | the reference for what the loop appends: the sections of the successful entries only, empty exactly when no entry succeeds |
| `Brochure.FoldIsContentPlusEnrichment` | main.py:131-138 | the loop's result is the starting content followed by the sections of the successful entries, in selection order |
| `Brochure.FoldSkipsFailures` | main.py:133-138 | running the loop over all entries equals running it over the successful entries only |
| `Brochure.FoldAppend` | main.py:133-136 | entries are processed in order: the loop over `a + b` is the loop over `b` started from the result for `a` |
| `Brochure.PromptContent` | main.py:99 | the synthesis content is the prefix of the content of length `min(|content|, 5000)` |
| `Brochure.PromptContentPrefix` | main.py:99 | cutting twice changes nothing, and the part of a content within the budget survives the cut of any longer content it begins |
| `Brochure.Plan` | main.py:126-133 | the run fails at the root fetch exactly when that fetch raises. After that, a classifier failure, a reply that is not an object and a "links" value that cannot be iterated each end the run with that error. Otherwise the result is the parsed root page and the reply's "links" entries |
| `Brochure.Generate` | main.py:129-140 | the run succeeds exactly when the root fetch, classification and the "links" lookup succeed. The content is the cut of the root block followed by the successful sections. It holds at most 5000 characters and begins with the root block (cut to 5000) |
| `Brochure.SecondaryFetchesNeverAbort` | main.py:133-138 | two runs whose fetches agree on the root URL either both succeed or both fail, whatever the fetch answers for the other URLs |
| `Brochure.NoEntriesGivesRootOnly` | main.py:86-89 | with a reply that has no "links" key, or with non-JSON text on Ollama, the content is just the root block |
| `Brochure.AcmeScenario` | main.py:129-140 | the root page "Acme" plus a selected about page with text "We build widgets" yields content that holds both strings |
| `Brochure.AcmeEnrichment` | main.py:133-138 | in that scenario the loop appends the about page's section and nothing else |
| `Brochure.AcmeContent` | main.py:129-140 | in that scenario the content is the root block followed by the "about" section |
| `Brochure.RootAndSectionShown` | main.py:131-136 | a root block plus one section shows the root title and the section's text |

## Left out

- HTTP fetching (`requests.get`, main.py:28): network I/O. It is the `fetch` parameter, and `None` stands for any exception. Response status codes are not looked at by the code either.
- HTML parsing and visible-text extraction (BeautifulSoup `find_all`, `decompose`, `get_text`, main.py:29, 34-39, 42): library behaviour. The model takes the title tag, the body text and the hrefs as a `Document`. Only the "no `<body>` gives empty text" branch (main.py:35-39) is modelled.
- The OpenAI and Ollama chat calls and the prompt wording (main.py:53-66, 69-75, 78-85, 92-98, 100-119): foreign services with non-deterministic output. The classifier is the `classify` parameter. `Generate` stops at the content given to the synthesizer, so the brochure text and its `.strip()` are not modelled.
- `json.loads` (main.py:76, 87): a library parser. Its result is `Replied(Some(selection))`, and a parse error is `Replied(None)`.
- The Streamlit UI, `load_dotenv`/`os.getenv` and `st.error`/`st.stop` (main.py:11-15, 142-171): I/O and UI. The key check is modelled as the predicate `ApiKey.Accepted` on an optional key.
- The `USE_OPENAI` toggle and model names (main.py:17-19): static configuration. The backend is a parameter, and `ConfiguredBackend` records the shipped choice.
- The fetch is a function: it always answers, and it gives the same answer every time for the same URL. `requests.get` is called without a timeout (main.py:28), so a hung fetch stalls the whole run; that is not modelled.
- Repeated URLs: a URL selected twice is fetched twice (main.py:135), and the two fetches could answer differently. The model gives both entries the same answer.
- SecondaryFetchesNeverAbort: "never abort" holds only under the two fetch assumptions above. A secondary fetch that hangs stops the run in the program.
- Python `str` values containing lone surrogates cannot be represented as Dafny strings. No part of the pipeline depends on them.
