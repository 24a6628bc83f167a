# Charserver request handler, in Dafny

This project models the HTTP handler of the character-finder web service
(`concurrency/http_charserver.py`). The service answers `GET /?query=...`
with one HTML page. The page has:

- a search box pre-filled with the query;
- a fixed row of example links, sorted case-insensitively;
- a status message;
- a `pre` block with the description lines the index yields for the query,
  joined by newlines.

The handler does two things, and the model keeps them apart:

- **Dispatch** (`Charserver.Dispatch`). An empty query gets the prompt
  "Type words describing characters." and no lines. Any other query gets the
  description lines of the character-name index, joined by newlines, and the
  index's status message for that many lines.
- **Rendering** (`Charserver.Render`, `Charserver.Links`). The example words
  are sorted by their upper-cased form. Each is formatted into a link with the
  word in three places, and the links are joined by `", "`. The page template
  is then filled with the query, links, message and result, verbatim.

`Charserver.Handle` composes the two.

The character-name index (`UnicodeNameIndex`) is not part of this model. Its
two operations are parameters of `Dispatch` and `Handle`:

- `find`: the description lines for a query, already drained into a sequence;
- `status`: the message for a query and a count.

Supporting modules:

- `Text`: Python's `str.join`, `str.split(c)`, `str.split()`, ASCII
  `str.upper` and string `<`.
- `Sorting`: `sorted(..., key=str.upper)`. It is an insertion sort, proved
  ascending, a permutation and stable, and proved the only result with those
  three properties (so it agrees with Python's timsort).
- `Formatting`: `str.format` on a template already cut into literal text and
  named fields.
- `ExampleOrder`: the concrete order of the fifteen example links.
- `Wrappers`: an `Option` type.

## Model

| member | source | states |
|---|---|---|
| Charserver.Handle | concurrency/http_charserver.py:42-58 | `handle(request)`: dispatch the query, then render the page. Its contract is given by `HandleSpec`, `HandleLinks` and `HandleMissingQuery`. |
| Charserver.Render | concurrency/http_charserver.py:56-57 | `PAGE_TPL.format(...)`. Its contract is given by `RenderDefined`, `RenderLayout`, `UnrenderRender`, `RenderUnrender` and `QueryInSearchBox`. |
| Charserver.Links | concurrency/http_charserver.py:54-55 | The example links joined by `", "`. Its contract is given by `LinksOrder`, `LinksInOrder`, `ExampleWordsLinkedOnce` and `HandleLinks`. |
| Charserver.LinkFor | concurrency/http_charserver.py:36 | `LINK_TPL.format(word)`. Its contract is given by `LinkDefined` and `LinkShape`. |
| Charserver.PageTemplateFlat | concurrency/http_charserver.py:8-30 | The page template is the nine pieces of `PAGE_TPL` in order: five literal texts around the fields `query`, `links`, `message` and `result`. |
| Charserver.LinkTemplateFlat | concurrency/http_charserver.py:36 | The link template is the seven pieces of `LINK_TPL` in order, with the field `0` in three places. |
| Charserver.SortedExampleWords | concurrency/http_charserver.py:55 | `sorted(EXAMPLE_WORDS, key=str.upper)`. Its contract is given by `LinksOrder`, `ExampleWordsSorted` and `ExampleWordsLinkedOnce`. |
| Sorting.Sort | concurrency/http_charserver.py:55 | `sorted(words, key=str.upper)`. Its contract is given by `SortSorted`, `SortPermutes`, `SortStable` and `SortIsUnique`. |
| Formatting.Format | concurrency/http_charserver.py:56-57 | `str.format` on a cut template. Its contract is given by `FormatDefined`, `FormatAppend` and `FormatAgrees`. |
| Text.Join | concurrency/http_charserver.py:47 | `sep.join(parts)`, used for the result block (:47) and the links (:54). Its contract is given by `SplitJoin`, `JoinSplit` and `WordsJoin`. |
| Text.Words | concurrency/http_charserver.py:34-35 | `s.split()`. Every piece is a non-empty run without white space. `WordsJoin` proves it undoes a join with single spaces. |
| Text.Upper | concurrency/http_charserver.py:55 | `str.upper` on ASCII, the sort key. It keeps the length, and `UpperAt` proves it works character by character. |
| Text.Less | concurrency/http_charserver.py:55 | String `<`, the order `sorted` compares keys with. Its contract is given by `LessIrreflexive`, `LessTransitive`, `LessTotal` and `LessAsymmetric`. |
| Charserver.Dispatch | concurrency/http_charserver.py:45-52 | An empty query gives no lines and the prompt message. A non-empty query gives exactly `find(query)` and `status(query, n)`, where n is the number of lines drained. In both cases the result block is the lines joined by newlines. |
| Charserver.DispatchResultLines | concurrency/http_charserver.py:46-47 | For a non-empty query whose lines contain no newline, splitting the result block at newlines gives back exactly the index's lines, in order: nothing is reordered or filtered. |
| Charserver.DispatchNoMatches | concurrency/http_charserver.py:46-48 | When the index finds nothing, the result block is empty and `status` is asked about zero matches. |
| Charserver.DispatchEmptyIgnoresIndex | concurrency/http_charserver.py:49-52 | With an empty query the outcome is the same for any two indexes, and it is (no lines, empty result, prompt). |
| Charserver.LinkShape | concurrency/http_charserver.py:36 | A link is `<a href="/?query=W" title="find &quot;W&quot;">W</a>`, with the word W verbatim in all three places. |
| Charserver.LinkDefined | concurrency/http_charserver.py:36 | Formatting the link template with the single positional value never fails, and yields that text. |
| Charserver.LinkList | concurrency/http_charserver.py:54-55 | One link per word, same length, the i-th link for the i-th word. |
| Charserver.LinksOrder | concurrency/http_charserver.py:54-55 | The linked words are the example words sorted ascending by upper-cased key and stable. They are a permutation of the example words (same multiset), with one link per word. |
| Charserver.ExampleWordsSplit | concurrency/http_charserver.py:34-35 | The example words, joined by single spaces and split at white space, give back the same fifteen words. |
| Charserver.RenderDefined | concurrency/http_charserver.py:56-57 | Formatting the page template with the four values never fails, and yields the literal text with the values in place. |
| Charserver.RenderLayout | concurrency/http_charserver.py:56-57 | The page is the template's text with query, links, message and result substituted verbatim, in that order, without escaping. |
| Charserver.PageTemplateFields | concurrency/http_charserver.py:8-30 | The page template's fields are exactly `query`, `links`, `message`, `result`, each once, in that order. |
| Charserver.UnrenderRender | concurrency/http_charserver.py:56-57 | Each of the four values can be read back unchanged from the rendered page, given their lengths. So rendering is injective for given lengths. |
| Charserver.RenderUnrender | concurrency/http_charserver.py:56-57 | Whatever `Unrender` reads off a page renders back to exactly that page, with the same lengths. Together with `UnrenderRender`, the two are inverse on rendered pages. |
| Charserver.QueryInSearchBox | concurrency/http_charserver.py:18 | The raw query stands verbatim between `value="` and `">` of the search box, markup characters included. |
| Charserver.QueryParam | concurrency/http_charserver.py:43 | The `query` parameter's value when present, the empty string when absent. |
| Charserver.HandleSpec | concurrency/http_charserver.py:42-58 | The response has content type `text/html; charset=UTF-8`. Its text is the page rendered from the raw query, the fixed links, the message and the result block, and it reads back as the raw query, the fixed links, the message (the prompt when the query is missing or empty, otherwise the index status for the number of lines) and the lines joined by newlines. |
| Charserver.HandleLinks | concurrency/http_charserver.py:54-58 | Every page carries the same links right after the search box, whatever the query and whatever the index answers. |
| Charserver.HandleMissingQuery | concurrency/http_charserver.py:43-52 | A request without `query` gets the same response as one with an empty query, for any index: the prompt page with no results. |
| ExampleOrder.ExampleWordsSorted | concurrency/http_charserver.py:54-55 | The example words sort into black, Braille, cat, chess, circled, digit, dot, Ethiopic, face, hexagram, Malayalam, mark, operator, Roman, symbol. |
| ExampleOrder.LinksInOrder | concurrency/http_charserver.py:54-55 | The link string is the links of the words in that order, joined by `", "`. |
| ExampleOrder.ExampleWordsLinkedOnce | concurrency/http_charserver.py:34-35 | Every example word occurs exactly once among the sorted words, so it is linked exactly once. |
| Sorting.SortSorted | concurrency/http_charserver.py:55 | `sorted(..., key=str.upper)` is ascending: no later word has a smaller upper-cased key than an earlier one. |
| Sorting.SortPermutes | concurrency/http_charserver.py:55 | The sort keeps every word as often as it occurs and adds nothing (same multiset, same length). |
| Sorting.SortStable | concurrency/http_charserver.py:55 | Words with equal upper-cased keys keep their original relative order. |
| Sorting.SortIsUnique | concurrency/http_charserver.py:55 | Any ascending, stable rearrangement of the input equals the model's sort, so it agrees with Python's `sorted`. |
| Sorting.InsertPermutes | concurrency/http_charserver.py:55 | One insertion step adds exactly the inserted word. |
| Sorting.InsertSorted | concurrency/http_charserver.py:55 | One insertion step keeps an ascending list ascending. |
| Text.SplitJoin | concurrency/http_charserver.py:47 | Joining one or more parts that contain no separator, then splitting at the separator, gives the parts back. Zero parts join to the empty string, which splits to one empty part, as in Python. |
| Text.JoinSplit | concurrency/http_charserver.py:47 | Splitting then joining with the same character gives the original text back. A general fact about `Join` and `Split` that no other proof relies on. |
| Text.WordsJoin | concurrency/http_charserver.py:34-35 | `' '.join(ws).split() == ws` for non-empty words without white space. An empty word would vanish in the split, as in Python. |
| Text.LessTotal | concurrency/http_charserver.py:55 | String `<` is total on distinct strings. This is what makes the key order a total order. |
| Text.LessTransitive | concurrency/http_charserver.py:55 | String `<` is transitive. |
| Formatting.FormatDefined | concurrency/http_charserver.py:56-57 | `str.format` succeeds exactly when every field of the template has a value. |
| Formatting.FormatAppend | concurrency/http_charserver.py:56-57 | Formatting two template parts and concatenating equals formatting their concatenation: fields are filled in place. A general fact about `Format` that no other proof relies on. |
| Formatting.FormatAgrees | concurrency/http_charserver.py:56-57 | Values of names the template does not use do not affect the result. A general fact about `Format` that no other proof relies on. |

## Left out

- Serving: aiohttp routing, the asyncio event loop, `init` and `main`, and the `Query:` log line printed to standard output are I/O and are not modelled.
- The character-name index: the construction of the global `index` and the bodies of `find_descriptions` and `status` are not part of this model. They are the parameters `find` and `status`. The lazy generator is modelled as the sequence `list(...)` drains it into. Exceptions the index might raise are not modelled.
- Query string: `request.GET` is a map from names to decoded values. aiohttp's percent-decoding is left out, and so is the choice among repeated `query` parameters.
- Charserver.Handle: the response is its content type and text only. Status code, headers and the encoding of the text to UTF-8 bytes are aiohttp's concern and are left out.
- Text.Upper: only ASCII letters are upper-cased. Python's full Unicode `str.upper` (for example `ß` becoming `SS`) is not modelled. It makes no difference to the example words, which are ASCII.
- Charserver.ExampleWords: the source builds this list by splitting a string literal at white space. The model writes the list out. `ExampleWordsSplit` proves that splitting the words joined by spaces gives the same list. That the literal's text is exactly that join is read off the source, not proved.
- Formatting.Format: the page and link templates are given already cut into literal text and fields. Parsing the braces (`{{` escapes, conversions, format specs) is not modelled, since neither template uses them. The positional `{0}` of the link template is the field named `0`.
- Charserver.DispatchResultLines: the result-block round trip is stated for at least one line, none containing a newline. An index line with a newline in it would read back as two lines. An empty result splits to one empty piece, which `DispatchNoMatches` covers.
- HTML escaping: the source escapes nothing, so the model escapes nothing. `QueryInSearchBox` and `RenderLayout` state that the query and the index's text reach the page verbatim.
