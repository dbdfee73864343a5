/**
 * The memoising `/api/suggest` handler.  The cache is a map from
 * `category:issueType:md5(element)` to suggestion text, passed in and returned
 * explicitly.  MD5 is a parameter of type `string -> Digest`: any function
 * that, like `hashlib.md5(...).hexdigest()`, yields a 32-character digest.
 */
module SuggestionCache {
  import opened Wrappers
  import opened Text
  import opened Suggestions

  /**
   * A digest as `hexdigest()` renders an MD5 hash: 32 characters.  That they
   * are lower-case hex digits plays no part in what the cache does.
   */
  type Digest = s: string | |s| == 32
    witness "00000000000000000000000000000000"

  type Cache = map<string, string>

  /** The reply of the handler together with the cache it leaves behind. */
  datatype Served = Served(suggestion: string, cache: Cache)

  /** The PII redaction hook; it is the identity, so elements are hashed as they come. */
  function RedactPii(text: string): (r: string)
    ensures r == text
  {
    text
  }

  /** The key under which requests of category `c` and type `t` with digest `d` are stored. */
  function KeyOf(c: string, t: string, d: Digest): string {
    c + ":" + t + ":" + d
  }

  /** The cache key of a request: `category:issueType:md5(redacted element)`. */
  function CacheKey(issue: IssueRequest, md5: string -> Digest): string {
    issue.category + ":" + issue.issueType + ":" + md5(RedactPii(issue.element))
  }

  /**
   * The key starts with the category and a colon and ends with a colon and
   * the 32-character digest of the element as it was posted.
   */
  lemma CacheKeyLayout(issue: IssueRequest, md5: string -> Digest)
    ensures var k := CacheKey(issue, md5);
      && |k| == |issue.category| + |issue.issueType| + 34
      && k[..|issue.category|] == issue.category && k[|issue.category|] == ':'
      && k[|k| - 33] == ':' && k[|k| - 32..] == md5(issue.element)
      && k == KeyOf(issue.category, issue.issueType, md5(issue.element))
  {
  }

  /**
   * Serves one suggestion request: a hit returns the stored text and leaves
   * the cache as it was; a miss computes the heuristic suggestion and stores
   * it under the request's key.  No other entry is touched.
   */
  function Generate(cache: Cache, issue: IssueRequest, md5: string -> Digest): (r: Served)
    ensures var key := CacheKey(issue, md5);
      && r.cache.Keys == cache.Keys + {key}
      && r.cache[key] == r.suggestion
      && (forall k :: k in cache ==> r.cache[k] == cache[k])
      && (key in cache ==> r.suggestion == cache[key])
      && (key !in cache ==> r.suggestion == HeuristicSuggestion(issue))
  {
    var key := CacheKey(issue, md5);
    if key in cache then
      Served(cache[key], cache)
    else
      var suggestion := HeuristicSuggestion(issue);
      Served(suggestion, cache[key := suggestion])
  }

  /**
   * Asking again with the same category, issue type and element (description,
   * severity and context may differ) returns the same text and changes nothing.
   */
  lemma GenerateIdempotent(cache: Cache, a: IssueRequest, b: IssueRequest, md5: string -> Digest)
    requires a.category == b.category && a.issueType == b.issueType && a.element == b.element
    ensures var first := Generate(cache, a, md5);
      Generate(first.cache, b, md5) == first
  {
    CacheKeyInputs(a, b, md5);
  }

  /** A category the cache key can be split back at: it holds no colon. */
  predicate KeyableCategory(issue: IssueRequest) {
    ':' !in issue.category
  }

  /**
   * For colon-free categories the key determines category, issue type and
   * digest.  (The digest has a fixed length, so the issue type may even hold
   * colons.)
   */
  lemma {:induction false} CacheKeyInjective(a: IssueRequest, b: IssueRequest, md5: string -> Digest)
    requires KeyableCategory(a) && KeyableCategory(b)
    requires CacheKey(a, md5) == CacheKey(b, md5)
    ensures a.category == b.category
    ensures a.issueType == b.issueType
    ensures md5(a.element) == md5(b.element)
  {
    var key := CacheKey(a, md5);
    var ta := a.issueType + ":" + md5(a.element);
    var tb := b.issueType + ":" + md5(b.element);
    assert key == a.category + ":" + ta;
    assert key == b.category + ":" + tb;
    IndexOfAfterFree(a.category, ta, ':');
    IndexOfAfterFree(b.category, tb, ':');
    assert a.category == key[..|a.category|];
    assert b.category == key[..|b.category|];
    assert ta == key[|a.category| + 1..];
    assert |ta| == |tb|;
    assert a.issueType == ta[..|ta| - 33];
    assert b.issueType == tb[..|tb| - 33];
    assert md5(a.element) == ta[|ta| - 32..];
    assert md5(b.element) == tb[|tb| - 32..];
  }

  /**
   * The key depends on category, issue type and element only: never on the
   * description, the severity or the context.  For colon-free categories the
   * converse holds up to the digest.
   */
  lemma CacheKeyInputs(a: IssueRequest, b: IssueRequest, md5: string -> Digest)
    ensures a.category == b.category && a.issueType == b.issueType && a.element == b.element ==>
      CacheKey(a, md5) == CacheKey(b, md5)
    ensures KeyableCategory(a) && KeyableCategory(b) && CacheKey(a, md5) == CacheKey(b, md5) ==>
      a.category == b.category && a.issueType == b.issueType && md5(a.element) == md5(b.element)
  {
    if KeyableCategory(a) && KeyableCategory(b) && CacheKey(a, md5) == CacheKey(b, md5) {
      CacheKeyInjective(a, b, md5);
    }
  }

  /**
   * Every entry stored under the key of a colon-free-category request holds
   * that request's heuristic suggestion.  The empty cache the service starts
   * with is coherent.
   */
  ghost predicate Coherent(cache: Cache, md5: string -> Digest) {
    forall issue: IssueRequest {:trigger cache[CacheKey(issue, md5)]} :: KeyableCategory(issue) && CacheKey(issue, md5) in cache ==>
      cache[CacheKey(issue, md5)] == HeuristicSuggestion(issue)
  }

  /**
   * While only colon-free categories are served, the cache is transparent:
   * every reply, hit or miss, is the heuristic suggestion, and coherence is kept.
   */
  lemma GenerateCoherent(cache: Cache, issue: IssueRequest, md5: string -> Digest)
    requires Coherent(cache, md5) && KeyableCategory(issue)
    ensures Generate(cache, issue, md5).suggestion == HeuristicSuggestion(issue)
    ensures Coherent(Generate(cache, issue, md5).cache, md5)
  {
    var r := Generate(cache, issue, md5);
    forall other: IssueRequest | KeyableCategory(other) && CacheKey(other, md5) in r.cache
      ensures r.cache[CacheKey(other, md5)] == HeuristicSuggestion(other)
    {
      if CacheKey(other, md5) == CacheKey(issue, md5) {
        CacheKeyInjective(other, issue, md5);
        SuggestionIgnoresOtherFields(other, issue);
      }
    }
  }

  /**
   * A key whose category and type parts are colon-free belongs to exactly
   * one category and type: whatever request is stored under it, colons in
   * its own category or not, has that category and that type.
   */
  lemma {:induction false} KeyOwner(req: IssueRequest, md5: string -> Digest, c: string, t: string, d: Digest)
    requires ':' !in c && ':' !in t
    requires CacheKey(req, md5) == KeyOf(c, t, d)
    ensures req.category == c && req.issueType == t && md5(req.element) == d
  {
    CacheKeyLayout(req, md5);
    var key := KeyOf(c, t, d);
    var head := req.category + ":" + req.issueType;
    var own := c + ":" + t;
    assert key == head + ":" + md5(req.element);
    assert key == own + ":" + d;
    assert head == key[..|key| - 33] == own;
    assert own[|req.category|] == ':';
    assert req.category == own[..|c|] == c;
    assert req.issueType == own[|c| + 1..] == t;
  }

  /** The lookup for category `c` and type `t`. */
  function LookupFor(c: string, t: string): string {
    HeuristicSuggestion(IssueRequest(t, "", "", "", c, None))
  }

  /** Under `KeyOf(c, t, d)` the cache holds, if anything, the lookup for `c` and `t`. */
  predicate HoldsLookup(cache: Cache, c: string, t: string, d: Digest) {
    KeyOf(c, t, d) in cache ==> cache[KeyOf(c, t, d)] == LookupFor(c, t)
  }

  /**
   * For a colon-free category and type, serving any request at all, whatever
   * its category, keeps the entry under their key right.  The empty cache the
   * service starts with holds every such entry right, so every cache it builds
   * does.
   */
  lemma GenerateHoldsLookup(cache: Cache, req: IssueRequest, md5: string -> Digest, c: string, t: string, d: Digest)
    requires ':' !in c && ':' !in t
    requires HoldsLookup(cache, c, t, d)
    ensures HoldsLookup(Generate(cache, req, md5).cache, c, t, d)
  {
    if CacheKey(req, md5) == KeyOf(c, t, d) {
      KeyOwner(req, md5, c, t, d);
      SuggestionIgnoresOtherFields(req, IssueRequest(t, "", "", "", c, None));
    }
  }

  /**
   * A request is answered with its heuristic suggestion whenever the entry
   * under its own key is right (or absent), whatever its category and type.
   */
  lemma GenerateAnswersLookup(cache: Cache, req: IssueRequest, md5: string -> Digest)
    requires HoldsLookup(cache, req.category, req.issueType, md5(req.element))
    ensures Generate(cache, req, md5).suggestion == HeuristicSuggestion(req)
  {
    CacheKeyLayout(req, md5);
    SuggestionIgnoresOtherFields(req, IssueRequest(req.issueType, "", "", "", req.category, None));
  }

  /**
   * Without the colon-free restriction the cache is not transparent: the
   * requests (category `a11y:x`, type `y`) and (category `a11y`, type `x:y`)
   * share a key, so after the first is served the second is answered with the
   * global default instead of the `a11y` default it looks up to.
   */
  lemma ColonCollision(md5: string -> Digest, element: string)
    ensures var first := IssueRequest("y", "", element, "moderate", "a11y:x", None);
      var second := IssueRequest("x:y", "", element, "moderate", "a11y", None);
      && CacheKey(first, md5) == CacheKey(second, md5)
      && HeuristicSuggestion(second) == A11yDefault
      && Generate(Generate(map[], first, md5).cache, second, md5).suggestion == GlobalDefault
      && GlobalDefault != A11yDefault
  {
    var first := IssueRequest("y", "", element, "moderate", "a11y:x", None);
    var second := IssueRequest("x:y", "", element, "moderate", "a11y", None);
    assert CacheKey(first, md5) == "a11y:x:y:" + md5(element);
    assert CacheKey(second, md5) == "a11y:x:y:" + md5(element);
    assert "x:y" !in Table["a11y"];
    LookupResolution(first);
    LookupResolution(second);
  }
}
