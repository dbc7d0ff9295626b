/** The collaborators the scripts call but do not define: the language model, the retrieval
    chain and the PDF reader. Each is reduced to the value it hands back. */
module External {

  datatype Option<T> = None | Some(value: T)

  /** What a call into the model or a chain yields: its reply text, or the message of the
      exception it raised. */
  datatype Reply = Answer(text: string) | Raised(error: string)

  /** An uploaded PDF: its file name and, per page, the text `extract_text()` returns
      ("" for a page without text). */
  datatype Pdf = Pdf(name: string, pages: seq<string>)

  /** `"".join(parts)`. */
  function Concat(parts: seq<string>): string
  {
    if parts == [] then "" else Concat(parts[..|parts| - 1]) + parts[|parts| - 1]
  }

  /** Pages whose text is truthy, that is non-empty, in page order. */
  function NonEmptyPages(pages: seq<string>): (r: seq<string>)
    ensures forall i :: 0 <= i < |r| ==> r[i] != ""
  {
    if pages == [] then []
    else if pages[|pages| - 1] == "" then NonEmptyPages(pages[..|pages| - 1])
    else NonEmptyPages(pages[..|pages| - 1]) + [pages[|pages| - 1]]
  }

  /** The text of one PDF: the non-empty page texts joined in page order. */
  function PageText(pages: seq<string>): string
  {
    Concat(NonEmptyPages(pages))
  }

  /** The file names of the uploads, in upload order. */
  function Names(pdfs: seq<Pdf>): (r: seq<string>)
    ensures |r| == |pdfs|
    ensures forall i :: 0 <= i < |pdfs| ==> r[i] == pdfs[i].name
  {
    seq(|pdfs|, i requires 0 <= i < |pdfs| => pdfs[i].name)
  }

  /** Joining distributes over appending lists. */
  lemma {:induction false} ConcatAppend(a: seq<string>, b: seq<string>)
    ensures Concat(a + b) == Concat(a) + Concat(b)
    decreases |b|
  {
    if b == [] {
      assert a + b == a;
    } else {
      var b' := b[..|b| - 1];
      assert (a + b)[..|a + b| - 1] == a + b';
      ConcatAppend(a, b');
    }
  }

  /** Skipping the empty pages loses no text: the joined text is that of every page in order. */
  lemma {:induction false} SkippingEmptyPagesKeepsText(pages: seq<string>)
    ensures PageText(pages) == Concat(pages)
  {
    if pages != [] {
      var init, last := pages[..|pages| - 1], pages[|pages| - 1];
      SkippingEmptyPagesKeepsText(init);
      if last != "" {
        ConcatAppend(NonEmptyPages(init), [last]);
        assert Concat([last]) == Concat([]) + last;
      }
    }
  }

  /** One more page adds its text at the end (nothing, when the page is empty). */
  lemma PageTextSnoc(pages: seq<string>, page: string)
    ensures PageText(pages + [page]) == PageText(pages) + page
  {
    var ps := pages + [page];
    assert ps[..|ps| - 1] == pages;
    if page != "" {
      ConcatAppend(NonEmptyPages(pages), [page]);
      assert Concat([page]) == Concat([]) + page;
    }
  }

  /** The hexadecimal digits `uuid4().hex` is made of. */
  predicate IsHexToken(t: string, n: nat) {
    |t| == n && forall i :: 0 <= i < |t| ==> ('0' <= t[i] <= '9' || 'a' <= t[i] <= 'f')
  }
}
