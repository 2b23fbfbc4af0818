/**
 * The browser's key-value store as the quiz uses it. Values pass through JSON:
 * a stored value is either the encoding of a value (what `JSON.stringify` wrote,
 * which `JSON.parse` reads back unchanged) or text that `JSON.parse` rejects.
 */
module Storage {

  import opened Common
  import opened Quiz

  datatype Slot<T> = Encoded(value: T) | Unparsable(text: string)

  /** `JSON.parse`: the encoded value, or None where the source catches a parse error. */
  function Parse<T>(slot: Slot<T>): (r: Option<T>)
    ensures r.Some? <==> slot.Encoded?
    ensures slot.Encoded? ==> r == Some(slot.value)
  {
    match slot
    case Encoded(v) => Some(v)
    case Unparsable(_) => None
  }

  /**
   * The stored text is the empty string, which the source's truthiness test
   * treats like a missing key. `JSON.stringify` never writes it.
   */
  predicate IsEmptyText<T>(slot: Slot<T>)
  {
    slot.Unparsable? && slot.text == ""
  }

  /** The per-video question cache: every key the quiz writes here is `questions_<videoId>`. */
  type Cache = map<string, Slot<QuestionSet>>

  const CachePrefix: string := "questions_"

  function CacheKey(videoId: string): string
  {
    CachePrefix + videoId
  }

  /** saveQuestions: overwrite the video's entry with the encoded question set. */
  function SaveQuestions(cache: Cache, videoId: string, qs: QuestionSet): (r: Cache)
    ensures r.Keys == cache.Keys + {CacheKey(videoId)}
    ensures forall k :: k in cache && k != CacheKey(videoId) ==> r[k] == cache[k]
  {
    cache[CacheKey(videoId) := Encoded(qs)]
  }

  /**
   * loadQuestions: the stored set, or None when the key is absent, holds the empty
   * string (falsy) or holds text `JSON.parse` rejects (the error is caught).
   */
  function LoadQuestions(cache: Cache, videoId: string): (r: Option<QuestionSet>)
    ensures r.Some? <==> CacheKey(videoId) in cache && cache[CacheKey(videoId)].Encoded?
    ensures r.Some? ==> cache[CacheKey(videoId)] == Encoded(r.value)
  {
    var key := CacheKey(videoId);
    if key !in cache || IsEmptyText(cache[key]) then None else Parse(cache[key])
  }

  /** Distinct video ids never share a cache key. */
  lemma CacheKeyInjective(a: string, b: string)
    requires CacheKey(a) == CacheKey(b)
    ensures a == b
  {
    assert a == CacheKey(a)[|CachePrefix|..];
    assert b == CacheKey(b)[|CachePrefix|..];
  }

  /** Round trip: loading right after saving returns the saved set. */
  lemma LoadAfterSave(cache: Cache, videoId: string, qs: QuestionSet)
    ensures LoadQuestions(SaveQuestions(cache, videoId, qs), videoId) == Some(qs)
  {
  }

  /** Saving one video's questions leaves what every other video loads unchanged. */
  lemma SaveKeepsOtherVideos(cache: Cache, videoId: string, other: string, qs: QuestionSet)
    requires other != videoId
    ensures LoadQuestions(SaveQuestions(cache, videoId, qs), other) == LoadQuestions(cache, other)
  {
    if CacheKey(other) == CacheKey(videoId) {
      CacheKeyInjective(other, videoId);
    }
  }

  /**
   * The question-source step of setupVideo: use the cached set when there is one;
   * otherwise take the freshly generated set and cache it.
   */
  function CachedOrGenerated(cache: Cache, videoId: string, generated: QuestionSet): (r: (QuestionSet, Cache))
    ensures LoadQuestions(cache, videoId).Some? ==> r == (LoadQuestions(cache, videoId).value, cache)
    ensures LoadQuestions(cache, videoId).None? ==> r.0 == generated && LoadQuestions(r.1, videoId) == Some(generated)
  {
    match LoadQuestions(cache, videoId)
    case Some(qs) => (qs, cache)
    case None => (generated, SaveQuestions(cache, videoId, generated))
  }

  /** A second setup of the same video uses the first setup's questions, whatever is generated then. */
  lemma SecondSetupReusesQuestions(cache: Cache, videoId: string, first: QuestionSet, second: QuestionSet)
    ensures var (qs1, cache1) := CachedOrGenerated(cache, videoId, first);
            CachedOrGenerated(cache1, videoId, second) == (qs1, cache1)
  {
  }
}
