/** The context line shown with an image: a bounded description, then whole context URLs. */
module Snippet {
  import opened Options
  import opened SearchTypes

  const MAX_DESCRIPTION := 320
  const MAX_CONTEXT := 600
  const SEPARATOR := " | "
  const ELLIPSIS := "\U{2026}"

  /** Cuts to a number of characters, the last one an ellipsis when something was lost. */
  function Bounded(value: string, limit: int): (r: string)
    requires limit >= 1
    ensures |r| <= limit
    ensures |value| <= limit ==> r == value
    ensures |value| > limit ==> |r| == limit && r[..limit - 1] == value[..limit - 1] && r[limit - 1] == '\U{2026}'
  {
    if |value| <= limit then value
    else if limit == 1 then ELLIPSIS
    else value[..limit - 1] + ELLIPSIS
  }

  function BoundedContext(contexts: seq<string>): string {
    var context := Join(contexts, SEPARATOR);
    if |context| <= MAX_CONTEXT then context
    else if |contexts| == 2 && |contexts[0]| <= MAX_CONTEXT then contexts[0]
    else ""
  }

  function PageLine(page: string): string { "Source page: " + page }

  function PreviewLine(preview: string): string { "Indexed preview: " + preview }

  function Contexts(page: Option<string>, preview: Option<string>): (cs: seq<string>)
    ensures |cs| <= 2 && forall i :: 0 <= i < |cs| ==> |cs[i]| > 0
  {
    (if page.Some? then [PageLine(page.value)] else []) +
    (if preview.Some? then [PreviewLine(preview.value)] else [])
  }

  function Fallback(source: string, engine: string): string {
    "Source: " + source + " | Engine: " + engine
  }

  /** `content` comes with its white space squeezed; `page` is the page URL if it is HTTP,
      `preview` the canonical thumbnail URL if it is valid and not the selected image. */
  function ImageSnippet(content: string, page: Option<string>, preview: Option<string>,
                        source: string, engine: string): string
  {
    var description := Bounded(content, MAX_DESCRIPTION);
    var context := BoundedContext(Contexts(page, preview));
    if context != "" && description == "" then context
    else if context != "" && MAX_CONTEXT - |context| - |SEPARATOR| > 0 then
      Bounded(description, MAX_CONTEXT - |context| - |SEPARATOR|) + SEPARATOR + context
    else if description != "" then description
    else Fallback(source, engine)
  }

  /** Context URLs are kept whole or dropped whole, and everything is dropped exactly when
      there is no context or the first one alone is too long. */
  lemma ContextWholeOrNothing(contexts: seq<string>)
    requires |contexts| <= 2 && forall i :: 0 <= i < |contexts| ==> |contexts[i]| > 0
    ensures var c := BoundedContext(contexts);
            && |c| <= MAX_CONTEXT
            && (c == "" || c == Join(contexts, SEPARATOR) || (|contexts| == 2 && c == contexts[0]))
            && (c == "" <==> contexts == [] || |contexts[0]| > MAX_CONTEXT)
  {
    if |contexts| == 1 {
      assert Join(contexts, SEPARATOR) == contexts[0];
    } else if |contexts| == 2 {
      assert contexts[..1] == [contexts[0]];
      assert Join(contexts, SEPARATOR) == contexts[0] + SEPARATOR + contexts[1];
    }
  }

  // ---- which URLs are shown, told from lengths alone -------------------------------------

  /** The description cut to what a tail leaves room for, then the tail. */
  function WithTail(content: string, tail: string): (r: string)
    requires content != "" && |tail| < MAX_CONTEXT - |SEPARATOR|
    ensures |tail| + |SEPARATOR| < |r| <= MAX_CONTEXT && |r| <= |tail| + |SEPARATOR| + MAX_DESCRIPTION
    ensures r[|r| - |tail|..] == tail
    ensures r != Bounded(content, MAX_DESCRIPTION)
  {
    var room := MAX_CONTEXT - |tail| - |SEPARATOR|;
    Bounded(Bounded(content, MAX_DESCRIPTION), room) + SEPARATOR + tail
  }

  lemma TwoContexts(page: string, preview: string)
    ensures var p, q := PageLine(page), PreviewLine(preview);
            BoundedContext(Contexts(Some(page), Some(preview)))
              == if |p| + |SEPARATOR| + |q| <= MAX_CONTEXT then p + SEPARATOR + q
                 else if |p| <= MAX_CONTEXT then p else ""
  {
    var p, q := PageLine(page), PreviewLine(preview);
    assert Contexts(Some(page), Some(preview)) == [p, q];
    assert [p, q][..1] == [p];
    assert Join([p, q], SEPARATOR) == p + SEPARATOR + q;
  }

  lemma OneContext(page: Option<string>, preview: Option<string>, line: string)
    requires Contexts(page, preview) == [line]
    ensures BoundedContext(Contexts(page, preview)) == if |line| <= MAX_CONTEXT then line else ""
  {
    assert Join([line], SEPARATOR) == line;
  }

  /** What a snippet is once its context is known. */
  lemma SnippetShape(content: string, page: Option<string>, preview: Option<string>, source: string, engine: string)
    ensures var s := ImageSnippet(content, page, preview, source, engine);
            var c := BoundedContext(Contexts(page, preview));
            if content == "" then s == (if c != "" then c else Fallback(source, engine))
            else if c == "" || |c| >= MAX_CONTEXT - |SEPARATOR| then s == Bounded(content, MAX_DESCRIPTION)
            else s == WithTail(content, c)
  {
  }

  /** With a description, one URL is shown exactly when its line leaves room for the
      separator and a character. Of two, both are shown when they fit together with that
      room; if together they fit only without it, neither is shown, though the page URL
      would be without the preview; if they do not fit at all, the page is shown as if alone. */
  lemma UrlsShownWithDescription(content: string, page: string, preview: string, source: string, engine: string)
    requires content != ""
    ensures var p, q := "Source page: " + page, "Indexed preview: " + preview;
            var both := |p| + 3 + |q|;
            var description := Bounded(content, MAX_DESCRIPTION);
            var alone := ImageSnippet(content, Some(page), None, source, engine);
            var other := ImageSnippet(content, None, Some(preview), source, engine);
            var s := ImageSnippet(content, Some(page), Some(preview), source, engine);
            && (if |p| < 597 then alone == WithTail(content, p) != description else alone == description)
            && (if |q| < 597 then other == WithTail(content, q) != description else other == description)
            && (both < 597 ==> s == WithTail(content, p + " | " + q) != description)
            && (both > 600 ==> s == alone)
            && (alone != description && s == description <==> |p| < 597 && 597 <= both <= 600)
  {
    var p, q := PageLine(page), PreviewLine(preview);
    TwoContexts(page, preview);
    OneContext(Some(page), None, p);
    OneContext(None, Some(preview), q);
    SnippetShape(content, Some(page), None, source, engine);
    SnippetShape(content, None, Some(preview), source, engine);
    SnippetShape(content, Some(page), Some(preview), source, engine);
  }

  /** Without a description there is no band: both lines exactly when they fit, else the page
      line exactly when it fits, else no URL at all. */
  lemma UrlsShownWithoutDescription(page: string, preview: string, source: string, engine: string)
    ensures var p, q := "Source page: " + page, "Indexed preview: " + preview;
            var s := ImageSnippet("", Some(page), Some(preview), source, engine);
            && (s == p + " | " + q <==> |p| + 3 + |q| <= 600)
            && (s == p <==> |p| <= 600 < |p| + 3 + |q|)
            && (s == "Source: " + source + " | Engine: " + engine <==> |p| > 600)
  {
    var p, q := PageLine(page), PreviewLine(preview);
    TwoContexts(page, preview);
    SnippetShape("", Some(page), Some(preview), source, engine);
    assert p[6] == ' ' && (p + SEPARATOR + q)[6] == ' ' && Fallback(source, engine)[6] == ':';
  }

  /** The 600-character bound holds exactly when there is a description, a first context line
      that fits, or a short fallback. */
  lemma SnippetBoundIff(content: string, page: Option<string>, preview: Option<string>, source: string, engine: string)
    ensures |ImageSnippet(content, page, preview, source, engine)| <= MAX_CONTEXT <==>
              || content != ""
              || (Contexts(page, preview) != [] && |Contexts(page, preview)[0]| <= MAX_CONTEXT)
              || |Fallback(source, engine)| <= MAX_CONTEXT
  {
    ContextWholeOrNothing(Contexts(page, preview));
  }
}
