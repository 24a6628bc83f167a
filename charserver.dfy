/**
 * The request handler of the character-finder web service
 * (`concurrency/http_charserver.py`): it reads the `query` parameter, asks
 * the character-name index for matching description lines and a status
 * message, and renders one HTML page with a search box, a fixed row of
 * example links, the message and the lines.
 *
 * The index (`UnicodeNameIndex`) is not part of this model. It is passed in
 * as two functions: `find`, the description lines for a query, already
 * drained into a sequence; and `status`, the message for a query and a
 * number of matches.
 */
module Charserver {
  import opened Wrappers
  import opened Text
  import opened Sorting
  import opened Formatting

  // ---------------------------------------------------------------------
  // Constants

  /** `CONTENT_TYPE`, sent with every page. */
  const ContentType: string := "text/html; charset=UTF-8"

  /** The message shown when there is nothing to search for. */
  const Prompt: string := "Type words describing characters."

  /** `EXAMPLE_WORDS`: the words of the example literal, in source order. */
  const ExampleWords: seq<string> := [
    "chess", "cat", "circled", "Malayalam", "digit", "Roman", "face", "Ethiopic",
    "black", "mark", "symbol", "dot", "operator", "Braille", "hexagram"]

  /** The literal text of `PAGE_TPL`, cut at its four replacement fields. */
  const PageHead: string := PageHeadOpen + ValueOpen
  const PageHeadOpen: string :=
    "\n"
    + "<!DOCTYPE html>\n"
    + "<html lang=\"en\">\n"
    + "  <head>\n"
    + "    <meta charset=\"utf-8\">\n"
    + "    <title>Charserver</title>\n"
    + "  </head>\n"
    + "  <body>\n"
    + "    <p>\n"
    + "        <form action=\"/\">\n"
    + "          <input type=\"search\" name=\"query\" "
  /** The search box's value attribute, around the query. */
  const ValueOpen: string := "value=\""
  const ValueClose: string := "\">"
  const PageSearch: string := ValueClose + PageButton
  const PageButton: string :=
    "\n"
    + "          <input type=\"submit\" value=\"find\">\n"
    + "        Examples: "
  const PageMessage: string :=
    "\n"
    + "        </form>\n"
    + "    </p>\n"
    + "    <p>"
  const PageResult: string :=
    "</p>\n"
    + "    <hr>\n"
    + "  <pre>\n"
  const PageTail: string :=
    "\n"
    + "  </pre>\n"
    + "  </body>\n"
    + "</html>\n"

  /** `PAGE_TPL`: `{query}` in the search box, `{links}` after "Examples:",
      `{message}` in a paragraph and `{result}` in the `pre` block.
      The two templates are written as right-nested `[p] + (...)` chains
      only so that proofs can take them apart one piece at a time within
      the solver's budget; `PageTemplateFlat` and `LinkTemplateFlat` give
      them as plain lists. */
  const PageTemplate: Template :=
    [Literal(PageHead)] + ([Field("query")] + ([Literal(PageSearch)] + ([Field("links")]
    + ([Literal(PageMessage)] + ([Field("message")] + ([Literal(PageResult)]
    + ([Field("result")] + [Literal(PageTail)])))))))

  /** `LINK_TPL`: the positional field `{0}` three times, as the query in
      the link target, inside the quoted title and as the label. */
  const LinkTemplate: Template :=
    [Literal("<a href=\"/?query=")] + ([Field("0")] + ([Literal("\" title=\"find &quot;")]
    + ([Field("0")] + ([Literal("&quot;\">")] + ([Field("0")] + [Literal("</a>")])))))

  /** The page template as a plain list of its nine pieces. */
  lemma PageTemplateFlat()
    ensures PageTemplate == [Literal(PageHead), Field("query"), Literal(PageSearch),
      Field("links"), Literal(PageMessage), Field("message"), Literal(PageResult),
      Field("result"), Literal(PageTail)]
  {
  }

  /** The link template as a plain list of its seven pieces. */
  lemma LinkTemplateFlat()
    ensures LinkTemplate == [Literal("<a href=\"/?query="), Field("0"),
      Literal("\" title=\"find &quot;"), Field("0"), Literal("&quot;\">"), Field("0"),
      Literal("</a>")]
  {
  }

  // ---------------------------------------------------------------------
  // Query dispatch

  /** What the handler has before rendering: the drained lines, the result
      block and the message. */
  datatype Outcome = Outcome(lines: seq<string>, result: string, message: string)

  /** The `if query: ... else: ...` of `handle`: an empty query gets the
      prompt without consulting the index; any other query gets the index's
      lines, joined by newlines, and its status for that many lines. */
  function Dispatch(find: string -> seq<string>, status: (string, nat) -> string,
                    query: string): (o: Outcome)
    ensures query == "" ==> o.lines == [] && o.message == Prompt
    ensures query != "" ==> o.lines == find(query) && o.message == status(query, |o.lines|)
    ensures o.result == Join(o.lines, "\n")
  {
    if query != "" then
      var lines := find(query);
      Outcome(lines, Join(lines, "\n"), status(query, |lines|))
    else
      Outcome([], "", Prompt)
  }

  /** The result block holds exactly the index's lines, in the order it gave
      them: splitting it at newlines gives them back. */
  lemma DispatchResultLines(find: string -> seq<string>, status: (string, nat) -> string,
                            query: string)
    requires query != "" && |find(query)| > 0
    requires forall i :: 0 <= i < |find(query)| ==> '\n' !in find(query)[i]
    ensures Split(Dispatch(find, status, query).result, '\n') == find(query)
  {
    SplitJoin(find(query), '\n');
  }

  /** A query the index finds nothing for gets an empty result block, and
      its status is asked for zero matches. */
  lemma DispatchNoMatches(find: string -> seq<string>, status: (string, nat) -> string,
                          query: string)
    requires query != "" && find(query) == []
    ensures Dispatch(find, status, query) == Outcome([], "", status(query, 0))
  {
  }

  /** With an empty query the outcome is the same whatever the index is:
      neither `find` nor `status` is consulted. */
  lemma DispatchEmptyIgnoresIndex(find1: string -> seq<string>, status1: (string, nat) -> string,
                                  find2: string -> seq<string>, status2: (string, nat) -> string)
    ensures Dispatch(find1, status1, "") == Dispatch(find2, status2, "")
    ensures Dispatch(find1, status1, "") == Outcome([], "", Prompt)
  {
  }

  // ---------------------------------------------------------------------
  // Page rendering

  /** One rendered example link. */
  function LinkFor(word: string): string {
    LinkDefined(word);
    Format(LinkTemplate, map["0" := word]).value
  }

  lemma LinkDefined(word: string)
    ensures Format(LinkTemplate, map["0" := word]) ==
      Some("<a href=\"/?query=" + (word + ("\" title=\"find &quot;" + (word + ("&quot;\">" + (word + "</a>"))))))
  {
    var env := map["0" := word];
    var t6 := [Literal("</a>")];
    var t5 := [Field("0")] + t6;
    var t4 := [Literal("&quot;\">")] + t5;
    var t3 := [Field("0")] + t4;
    var t2 := [Literal("\" title=\"find &quot;")] + t3;
    var t1 := [Field("0")] + t2;
    FormatCons(Literal("</a>"), [], env);
    assert [Literal("</a>")] + [] == t6;
    assert "</a>" + "" == "</a>";
    FormatCons(Field("0"), t6, env);
    FormatCons(Literal("&quot;\">"), t5, env);
    FormatCons(Field("0"), t4, env);
    FormatCons(Literal("\" title=\"find &quot;"), t3, env);
    FormatCons(Field("0"), t2, env);
    FormatCons(Literal("<a href=\"/?query="), t1, env);
  }

  /** A link embeds its word verbatim in all three places. */
  lemma LinkShape(word: string)
    ensures LinkFor(word) ==
      "<a href=\"/?query=" + word + "\" title=\"find &quot;" + word + "&quot;\">" + word + "</a>"
  {
    LinkDefined(word);
  }

  /** The links for `words`, one per word, in order. */
  function LinkList(words: seq<string>): (r: seq<string>)
    ensures |r| == |words|
    ensures forall i :: 0 <= i < |words| ==> r[i] == LinkFor(words[i])
    decreases |words|
  {
    if |words| == 0 then [] else [LinkFor(words[0])] + LinkList(words[1..])
  }

  /** The example words, sorted as the handler shows them. */
  function SortedExampleWords(): seq<string> {
    Sort(ExampleWords)
  }

  /** `', '.join(LINK_TPL.format(word) for word in sorted(EXAMPLE_WORDS,
      key=str.upper))`. It has no parameters: every page carries the same
      links, whatever the query and whatever the index answered. */
  function Links(): string {
    Join(LinkList(SortedExampleWords()), ", ")
  }

  /** The links follow the words sorted by upper-cased key, stably, and each
      example word is linked exactly as often as it occurs in the list. */
  lemma LinksOrder()
    ensures Sorted(SortedExampleWords())
    ensures Stable(SortedExampleWords(), ExampleWords)
    ensures multiset(SortedExampleWords()) == multiset(ExampleWords)
    ensures |LinkList(SortedExampleWords())| == |ExampleWords|
  {
    SortSorted(ExampleWords);
    SortStable(ExampleWords);
    SortPermutes(ExampleWords);
  }

  /** The example words are what splitting them, joined by single spaces,
      at white space gives: each is one word, without spaces. */
  lemma ExampleWordsSplit()
    ensures Words(Join(ExampleWords, " ")) == ExampleWords
  {
    assert forall i :: 0 <= i < |ExampleWords| ==> IsWord(ExampleWords[i]);
    WordsJoin(ExampleWords);
  }

  /** The four values `PAGE_TPL` is formatted with. */
  datatype PageFields = PageFields(query: string, links: string, message: string, result: string)

  function PageEnv(f: PageFields): map<string, string> {
    map["query" := f.query, "links" := f.links, "message" := f.message, "result" := f.result]
  }

  /** `PAGE_TPL.format(query=..., result=..., message=..., links=...)`. */
  function Render(f: PageFields): string {
    RenderDefined(f);
    Format(PageTemplate, PageEnv(f)).value
  }

  lemma RenderDefined(f: PageFields)
    ensures Format(PageTemplate, PageEnv(f)) ==
      Some(PageHead + (f.query + (PageSearch + (f.links + (PageMessage + (f.message
           + (PageResult + (f.result + PageTail))))))))
  {
    var env := PageEnv(f);
    var t8 := [Literal(PageTail)];
    var t7 := [Field("result")] + t8;
    var t6 := [Literal(PageResult)] + t7;
    var t5 := [Field("message")] + t6;
    var t4 := [Literal(PageMessage)] + t5;
    var t3 := [Field("links")] + t4;
    var t2 := [Literal(PageSearch)] + t3;
    var t1 := [Field("query")] + t2;
    FormatCons(Literal(PageTail), [], env);
    assert [Literal(PageTail)] + [] == t8;
    assert PageTail + "" == PageTail;
    FormatCons(Field("result"), t8, env);
    FormatCons(Literal(PageResult), t7, env);
    FormatCons(Field("message"), t6, env);
    FormatCons(Literal(PageMessage), t5, env);
    FormatCons(Field("links"), t4, env);
    FormatCons(Literal(PageSearch), t3, env);
    FormatCons(Field("query"), t2, env);
    FormatCons(Literal(PageHead), t1, env);
  }

  /** The page is the template's literal text with the four values spliced
      in verbatim, in template order: query, links, message, result. */
  lemma RenderLayout(f: PageFields)
    ensures Render(f) ==
      PageHead + f.query + PageSearch + f.links + PageMessage + f.message
      + PageResult + f.result + PageTail
  {
    RenderIsSplice(f);
    SpliceFlat(f, PageHead, PageSearch, PageMessage, PageResult, PageTail);
  }

  /** The page template has exactly the four fields `handle` supplies, each
      once, so formatting it never fails. */
  lemma PageTemplateFields()
    ensures FieldNames(PageTemplate) == ["query", "links", "message", "result"]
  {
    var t8 := [Literal(PageTail)];
    var t7 := [Field("result")] + t8;
    var t6 := [Literal(PageResult)] + t7;
    var t5 := [Field("message")] + t6;
    var t4 := [Literal(PageMessage)] + t5;
    var t3 := [Field("links")] + t4;
    var t2 := [Literal(PageSearch)] + t3;
    var t1 := [Field("query")] + t2;
    FieldNamesCons(Literal(PageTail), []);
    assert [Literal(PageTail)] + [] == t8;
    FieldNamesCons(Field("result"), t8);
    FieldNamesCons(Literal(PageResult), t7);
    FieldNamesCons(Field("message"), t6);
    FieldNamesCons(Literal(PageMessage), t5);
    FieldNamesCons(Field("links"), t4);
    FieldNamesCons(Literal(PageSearch), t3);
    FieldNamesCons(Field("query"), t2);
    FieldNamesCons(Literal(PageHead), t1);
  }

  /** The widths of the four values, which is all that is needed to read
      them back off a page. */
  datatype Widths = Widths(query: nat, links: nat, message: nat, result: nat)

  function WidthsOf(f: PageFields): Widths {
    Widths(|f.query|, |f.links|, |f.message|, |f.result|)
  }

  /** The four values between five literal texts `a` .. `e`, as the page
      template lays them out. */
  function Splice(f: PageFields, a: string, b: string, c: string, d: string, e: string): string {
    a + (f.query + (b + (f.links + (c + (f.message + (d + (f.result + e)))))))
  }

  lemma SpliceFlat(f: PageFields, a: string, b: string, c: string, d: string, e: string)
    ensures Splice(f, a, b, c, d, e) ==
      a + f.query + b + f.links + c + f.message + d + f.result + e
  {
  }

  lemma SplicePrefix(f: PageFields, a: string, b: string, c: string, d: string, e: string)
    ensures a + f.query + b + f.links + c <= Splice(f, a, b, c, d, e)
  {
    var x := a + f.query + b + f.links + c;
    assert Splice(f, a, b, c, d, e) == x + (f.message + (d + (f.result + e)));
  }

  /** What is left of `s` after the literal `p`, if `s` starts with it. */
  function AfterLiteral(p: string, s: string): (r: Option<string>)
    ensures r.Some? <==> p <= s
    ensures r.Some? ==> s == p + r.value
  {
    if p <= s then Some(s[|p|..]) else None
  }

  /** The first `n` characters of `s` and what follows them, if `s` has
      that many. */
  function Take(n: nat, s: string): (r: Option<(string, string)>)
    ensures r.Some? <==> n <= |s|
    ensures r.Some? ==> |r.value.0| == n && s == r.value.0 + r.value.1
  {
    if n <= |s| then Some((s[..n], s[n..])) else None
  }

  /** Read the four values, of widths `w`, back off `page` laid out with the
      literal texts `a` .. `e`. */
  function Unsplice(page: string, w: Widths, a: string, b: string, c: string, d: string, e: string)
    : Option<PageFields>
  {
    var r0 := AfterLiteral(a, page);
    if r0.None? then None else
    var q := Take(w.query, r0.value);
    if q.None? then None else
    var r1 := AfterLiteral(b, q.value.1);
    if r1.None? then None else
    var l := Take(w.links, r1.value);
    if l.None? then None else
    var r2 := AfterLiteral(c, l.value.1);
    if r2.None? then None else
    var m := Take(w.message, r2.value);
    if m.None? then None else
    var r3 := AfterLiteral(d, m.value.1);
    if r3.None? then None else
    var r := Take(w.result, r3.value);
    if r.None? || r.value.1 != e then None
    else Some(PageFields(q.value.0, l.value.0, m.value.0, r.value.0))
  }

  lemma AfterLiteralOf(p: string, s: string)
    ensures AfterLiteral(p, p + s) == Some(s)
  {
    assert (p + s)[|p|..] == s;
  }

  lemma TakeOf(x: string, s: string)
    ensures Take(|x|, x + s) == Some((x, s))
  {
    assert (x + s)[..|x|] == x;
    assert (x + s)[|x|..] == s;
  }

  lemma UnspliceSplice(f: PageFields, a: string, b: string, c: string, d: string, e: string)
    ensures Unsplice(Splice(f, a, b, c, d, e), WidthsOf(f), a, b, c, d, e) == Some(f)
  {
    var s3 := f.result + e;
    var s2 := f.message + (d + s3);
    var s1 := f.links + (c + s2);
    var s0 := f.query + (b + s1);
    AfterLiteralOf(a, s0);
    TakeOf(f.query, b + s1);
    AfterLiteralOf(b, s1);
    TakeOf(f.links, c + s2);
    AfterLiteralOf(c, s2);
    TakeOf(f.message, d + s3);
    AfterLiteralOf(d, s3);
    TakeOf(f.result, e);
  }

  lemma SpliceUnsplice(page: string, w: Widths, f: PageFields, a: string, b: string, c: string,
                       d: string, e: string)
    requires Unsplice(page, w, a, b, c, d, e) == Some(f)
    ensures Splice(f, a, b, c, d, e) == page
    ensures WidthsOf(f) == w
  {
  }

  /** Read the four values back off a page, given their widths: the
      inverse of `Render`. */
  function Unrender(page: string, w: Widths): Option<PageFields> {
    Unsplice(page, w, PageHead, PageSearch, PageMessage, PageResult, PageTail)
  }

  lemma RenderIsSplice(f: PageFields)
    ensures Render(f) == Splice(f, PageHead, PageSearch, PageMessage, PageResult, PageTail)
  {
    RenderDefined(f);
  }

  /** Every value can be read back unchanged from the page: nothing is
      escaped, trimmed or reordered. */
  lemma UnrenderRender(f: PageFields)
    ensures Unrender(Render(f), WidthsOf(f)) == Some(f)
  {
    RenderIsSplice(f);
    UnspliceSplice(f, PageHead, PageSearch, PageMessage, PageResult, PageTail);
  }

  /** Conversely, whatever `Unrender` reads off a page renders back to that
      very page, so the two are inverse on rendered pages. */
  lemma RenderUnrender(page: string, w: Widths, f: PageFields)
    requires Unrender(page, w) == Some(f)
    ensures Render(f) == page
    ensures WidthsOf(f) == w
  {
    RenderIsSplice(f);
    SpliceUnsplice(page, w, f, PageHead, PageSearch, PageMessage, PageResult, PageTail);
  }

  /** The raw query stands verbatim inside the search box's `value="..."`,
      markup characters included. */
  lemma QueryInSearchBox(f: PageFields)
    ensures PageHeadOpen + ValueOpen + f.query + ValueClose <= Render(f)
  {
    RenderIsSplice(f);
    SpliceQuery(f, PageHeadOpen, ValueOpen, ValueClose, PageButton, PageMessage, PageResult, PageTail);
  }

  lemma SpliceQuery(f: PageFields, a: string, open: string, close: string, b: string,
                    c: string, d: string, e: string)
    ensures a + open + f.query + close <= Splice(f, a + open, close + b, c, d, e)
  {
    var x := a + open + f.query + close;
    assert Splice(f, a + open, close + b, c, d, e)
        == x + (b + (f.links + (c + (f.message + (d + (f.result + e))))));
  }

  // ---------------------------------------------------------------------
  // The handler

  /** What `handle` returns: a `web.Response` with a content type and text. */
  datatype Response = Response(contentType: string, text: string)

  /** `request.GET.get('query', '')`. */
  function QueryParam(params: map<string, string>): (q: string)
    ensures "query" in params ==> q == params["query"]
    ensures "query" !in params ==> q == ""
  {
    (if "query" in params then Some(params["query"]) else None).GetOr("")
  }

  /** `handle(request)`: dispatch the query, render the page. */
  function Handle(params: map<string, string>, find: string -> seq<string>,
                  status: (string, nat) -> string): Response
  {
    var query := QueryParam(params);
    var o := Dispatch(find, status, query);
    Response(ContentType, Render(PageFields(query, Links(), o.message, o.result)))
  }

  /** The whole contract of `handle`: the page reads back as the raw query,
      the fixed links, the index's status for the number of lines it gave
      (or the prompt, for an empty or missing query) and those lines joined
      by newlines; the content type never changes. */
  lemma HandleSpec(params: map<string, string>, find: string -> seq<string>,
                   status: (string, nat) -> string)
    ensures var r := Handle(params, find, status);
      var q := QueryParam(params);
      var lines := if q == "" then [] else find(q);
      var message := if q == "" then Prompt else status(q, |lines|);
      var f := PageFields(q, Links(), message, Join(lines, "\n"));
      && r.contentType == ContentType
      && r.text == Render(f)
      && Unrender(r.text, WidthsOf(f)) == Some(f)
  {
    var q := QueryParam(params);
    var o := Dispatch(find, status, q);
    UnrenderRender(PageFields(q, Links(), o.message, o.result));
  }

  /** Every page carries the same links, right after the search box,
      whatever the query and whatever the index answers. */
  lemma HandleLinks(params: map<string, string>, find: string -> seq<string>,
                    status: (string, nat) -> string)
    ensures PageHead + QueryParam(params) + PageSearch + Links() + PageMessage
            <= Handle(params, find, status).text
  {
    var q := QueryParam(params);
    var o := Dispatch(find, status, q);
    var f := PageFields(q, Links(), o.message, o.result);
    RenderIsSplice(f);
    SplicePrefix(f, PageHead, PageSearch, PageMessage, PageResult, PageTail);
  }

  /** A request without a `query` parameter is answered exactly like one
      with an empty query, and the index plays no part in the answer. */
  lemma HandleMissingQuery(params: map<string, string>,
                           find1: string -> seq<string>, status1: (string, nat) -> string,
                           find2: string -> seq<string>, status2: (string, nat) -> string)
    requires "query" !in params
    ensures Handle(params, find1, status1) == Handle(map["query" := ""], find2, status2)
    ensures Handle(params, find1, status1).text == Render(PageFields("", Links(), Prompt, ""))
  {
  }
}
