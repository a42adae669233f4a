/** The relevance test applied to the text inside a table's bounding box. */
module Keywords {
  import opened Strings

  /**
   * `contains_keywords`: some keyword, lower-cased, is a substring of the
   * lower-cased text. Keywords are tried in order, as `any` does.
   */
  function ContainsKeywords(text: string, keywords: seq<string>): (r: bool)
    ensures r <==> exists j | 0 <= j < |keywords| :: IsSubstring(Lower(keywords[j]), Lower(text))
  {
    if keywords == [] then false
    else Contains(Lower(text), Lower(keywords[0])) || ContainsKeywords(text, keywords[1..])
  }

  /** Splitting the keyword list splits the test: a match is a match in either part. */
  lemma {:induction false} ContainsKeywordsAppend(text: string, a: seq<string>, b: seq<string>)
    ensures ContainsKeywords(text, a + b) == (ContainsKeywords(text, a) || ContainsKeywords(text, b))
  {
    if a == [] {
      assert a + b == b;
    } else {
      assert (a + b)[1..] == a[1..] + b;
      ContainsKeywordsAppend(text, a[1..], b);
    }
  }

  /** The test does not depend on the case of the text. */
  lemma ContainsKeywordsIgnoresCase(text: string, keywords: seq<string>)
    ensures ContainsKeywords(Lower(text), keywords) == ContainsKeywords(text, keywords)
  {
    LowerIsLowered(text);
  }
}
