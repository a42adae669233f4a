/**
 * `extract_text_from_pdf`: the page texts of the document concatenated in
 * page order. Opening the document and reading each page's text are done by
 * a foreign library, so the page texts are the input.
 */
module TextExtractor {

  /** The page texts joined in order. */
  function Concat(pages: seq<string>): (r: string)
    ensures pages != [] ==> pages[0] <= r
  {
    if pages == [] then "" else Concat(pages[..|pages| - 1]) + pages[|pages| - 1]
  }

  /** The total number of characters on the pages. */
  function TotalLength(pages: seq<string>): nat
  {
    if pages == [] then 0 else TotalLength(pages[..|pages| - 1]) + |pages[|pages| - 1]|
  }

  /** Nothing is dropped or added: the text is exactly as long as the pages together. */
  lemma {:induction false} ConcatLength(pages: seq<string>)
    ensures |Concat(pages)| == TotalLength(pages)
  {
    if pages != [] {
      ConcatLength(pages[..|pages| - 1]);
    }
  }

  /**
   * The text of the first pages is a prefix of the text of the whole
   * document, so adding pages never shortens it.
   */
  lemma {:induction false} ConcatPrefix(pages: seq<string>, n: nat)
    requires n <= |pages|
    ensures Concat(pages[..n]) <= Concat(pages)
    ensures |Concat(pages[..n])| <= |Concat(pages)|
    decreases |pages|
  {
    if n < |pages| {
      var init := pages[..|pages| - 1];
      assert init[..n] == pages[..n];
      ConcatPrefix(init, n);
    } else {
      assert pages[..n] == pages;
    }
  }

  /** The loop of `extract_text_from_pdf`, growing the text with `+=`. */
  method ExtractText(pages: seq<string>) returns (text: string)
    ensures text == Concat(pages)
  {
    text := "";
    var i := 0;
    while i < |pages|
      invariant 0 <= i <= |pages|
      invariant text == Concat(pages[..i])
    {
      assert pages[..i + 1][..i] == pages[..i];
      text := text + pages[i];
      i := i + 1;
    }
    assert pages[..i] == pages;
  }
}
