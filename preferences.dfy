/**
 * Anti-preference extraction (`analyze_preferences`): the language model's reply
 * is searched for a fenced JSON block, the block is parsed, and any failure
 * yields a fixed fallback record.
 */
module Preferences {
  import opened Wrappers
  import opened Strings
  import opened Truncation

  /**
   * A parsed JSON value as the query builder sees it. An object carries the
   * keys the builder reads, each absent or present; `extraKeys` records
   * whether it has any other key, which matters only for its truthiness.
   * Any other JSON value (list, string, number, ...) is `NonObject`.
   */
  datatype Prefs =
    | Object(
        genres: Option<seq<int>>,
        minYear: Option<string>,
        maxYear: Option<string>,
        voteAverageLte: Option<real>,
        sortPreference: Option<string>,
        keywords: Option<seq<string>>,
        extraKeys: bool)
    | NonObject(truthy: bool)

  /** The empty JSON object `{}`. */
  const EmptyObject: Prefs := Object(None, None, None, None, None, None, false)

  /** Python truthiness: an object is truthy unless it is `{}`. */
  predicate Truthy(p: Prefs)
    ensures p.Object? ==> (Truthy(p) <==> p != EmptyObject)
    ensures p.NonObject? ==> (Truthy(p) <==> p.truthy)
  {
    match p
    case Object(g, lo, hi, v, s, kw, extra) =>
      g.Some? || lo.Some? || hi.Some? || v.Some? || s.Some? || kw.Some? || extra
    case NonObject(t) => t
  }

  /** The record returned whenever the analysis fails. */
  const FallbackPrefs: Prefs := Object(
    Some([35, 27]),
    Some("1900"),
    Some("2024"),
    Some(5.0),
    Some("vote_average.asc"),
    Some(["low budget", "bad acting", "poor special effects"]),
    false)

  const FenceOpen := "```json\n"
  const FenceClose := "\n```"

  /** The body of a fenced block lies at `s[bodyStart..bodyEnd]`. */
  datatype Fence = Fence(bodyStart: nat, bodyEnd: nat)

  /**
   * The match of the pattern "```json\n(.*?)\n```" (with `.` matching newlines):
   * the leftmost opening fence, then the shortest body up to the next closing
   * fence. `None` exactly when no opening fence is followed by a closing one.
   */
  function FindFence(s: string): (m: Option<Fence>)
    ensures m.Some? ==>
      && m.value.bodyStart >= |FenceOpen|
      && OccursAt(s, FenceOpen, m.value.bodyStart - |FenceOpen|)
      && m.value.bodyStart <= m.value.bodyEnd
      && OccursAt(s, FenceClose, m.value.bodyEnd)
    ensures m.Some? ==> forall i :: 0 <= i < m.value.bodyStart - |FenceOpen| ==> !OccursAt(s, FenceOpen, i)
    ensures m.Some? ==> forall j :: m.value.bodyStart <= j < m.value.bodyEnd ==> !OccursAt(s, FenceClose, j)
    ensures m.None? <==>
      forall i, j :: OccursAt(s, FenceOpen, i) && i + |FenceOpen| <= j ==> !OccursAt(s, FenceClose, j)
  {
    match FindFrom(s, FenceOpen, 0)
    case None => None
    case Some(i) =>
      match FindFrom(s, FenceClose, i + |FenceOpen|)
      case None => None
      case Some(j) => Some(Fence(i + |FenceOpen|, j))
  }

  /** `json_match.group(1)`, when there is a match. */
  function FencedBody(s: string): (body: Option<string>)
    ensures body.Some? <==> FindFence(s).Some?
    ensures body.Some? ==>
      var f := FindFence(s).value;
      body.value == s[f.bodyStart..f.bodyEnd] && forall k :: !OccursAt(body.value, FenceClose, k)
  {
    match FindFence(s)
    case None => None
    case Some(f) =>
      var body := s[f.bodyStart..f.bodyEnd];
      assert forall k :: !OccursAt(body, FenceClose, k) by {
        forall k ensures !OccursAt(body, FenceClose, k) {
          if OccursAt(body, FenceClose, k) {
            OccursInSlice(s, FenceClose, f.bodyStart, f.bodyEnd, k);
          }
        }
      }
      Some(body)
  }

  /**
   * `analyze_preferences` with its collaborators as parameters: `complete` is the
   * language-model call (`None` when it raises or returns no content) and is
   * given the truncated prompt; `parseJson` is `json.loads` (`None` when it raises).
   */
  function AnalyzePreferences(
    prompt: string,
    complete: string -> Option<string>,
    parseJson: string -> Option<Prefs>): (r: Prefs)
    ensures var reply := complete(TruncateText(prompt, MaxPromptChars));
      && (reply.None? ==> r == FallbackPrefs)
      && (reply.Some? && FencedBody(reply.value).None? ==> r == FallbackPrefs)
      && (reply.Some? && FencedBody(reply.value).Some? ==>
            r == parseJson(FencedBody(reply.value).value).GetOr(FallbackPrefs))
  {
    match complete(TruncateText(prompt, MaxPromptChars))
    case None => FallbackPrefs
    case Some(content) =>
      match FencedBody(content)
      case None => FallbackPrefs
      case Some(body) =>
        match parseJson(body)
        case None => FallbackPrefs
        case Some(p) => p
  }
}
