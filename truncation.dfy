/** Prompt truncation before a prompt is sent to the language model (`_truncate_text`). */
module Truncation {
  import opened Wrappers
  import opened Strings

  /** The default character budget of a prompt. */
  const MaxPromptChars: nat := 4000

  /**
   * A text within the budget is kept whole; a longer one is cut to the budget and
   * then back to just after the last `}` of the cut, when the cut holds one.
   */
  function TruncateText(text: string, maxChars: nat): (r: string)
    ensures |text| <= maxChars ==> r == text
    ensures |r| <= maxChars && |r| <= |text| && r == text[..|r|]
    ensures |text| > maxChars && '}' in text[..maxChars] ==>
              |r| > 0 && r[|r| - 1] == '}' && '}' !in text[|r|..maxChars]
    ensures |text| > maxChars && '}' !in text[..maxChars] ==> r == text[..maxChars]
  {
    if |text| <= maxChars then text
    else
      var truncated := text[..maxChars];
      match LastIndexOf(truncated, '}')
      case Some(lastBrace) => truncated[..lastBrace + 1]
      case None => truncated
  }

  /** Truncating an already truncated text changes nothing. */
  lemma TruncateIdempotent(text: string, maxChars: nat)
    ensures TruncateText(TruncateText(text, maxChars), maxChars) == TruncateText(text, maxChars)
  {
  }

  /**
   * The cut is the longest prefix within the budget that ends in `}`: every
   * longer prefix within the budget fails to end in `}`.
   */
  lemma TruncateKeepsLastBrace(text: string, maxChars: nat, n: nat)
    requires |text| > maxChars && |TruncateText(text, maxChars)| < n <= maxChars
    ensures text[n - 1] != '}'
  {
  }

  /**
   * Cutting at the last `}` does not keep the embedded JSON balanced: here the
   * opening `[` of a list of objects survives without its `]`.
   */
  lemma TruncationMayUnbalance()
    ensures TruncateText("[{}]", 3) == "[{}"
  {
  }
}
