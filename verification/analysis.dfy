/**
 * The batch `/api/analyze` handler: every loosely typed issue of a page is
 * turned into a suggestion request (missing fields take defaults), served in
 * order through the shared suggestion cache, and its reply recorded under
 * `issue-1`, `issue-2`, ...
 */
module Analysis {
  import opened Wrappers
  import opened Text
  import opened Suggestions
  import opened SuggestionCache

  /** One issue of the batch body: field name to value. */
  type RawIssue = map<string, string>

  const DefaultType: string := "unknown"
  const DefaultCategory: string := "a11y"
  const DefaultSeverity: string := "moderate"

  /** Python's `issue.get(name, default)`. */
  function Field(issue: RawIssue, name: string, default: string): string {
    Get(issue, name).GetOr(default)
  }

  /**
   * The request built for one raw issue: each field is taken from the issue
   * when present and defaulted otherwise; the context carries the page URL.
   */
  function ToRequest(issue: RawIssue, url: string): (r: IssueRequest)
    ensures r.issueType == (if "type" in issue then issue["type"] else DefaultType)
    ensures r.category == (if "category" in issue then issue["category"] else DefaultCategory)
    ensures r.severity == (if "severity" in issue then issue["severity"] else DefaultSeverity)
    ensures r.issueDescription == (if "description" in issue then issue["description"] else "")
    ensures r.element == (if "element" in issue then issue["element"] else "")
    ensures r.context == Some(map["url" := url])
  {
    IssueRequest(
      Field(issue, "type", DefaultType),
      RedactPii(Field(issue, "description", "")),
      RedactPii(Field(issue, "element", "")),
      Field(issue, "severity", DefaultSeverity),
      Field(issue, "category", DefaultCategory),
      Some(map["url" := url]))
  }

  /** The requests built for the issues of a batch, in order. */
  function Requests(issues: seq<RawIssue>, url: string): seq<IssueRequest> {
    seq(|issues|, i requires 0 <= i < |issues| => ToRequest(issues[i], url))
  }

  /** The name of the `n`-th entry of the batch reply (counting from 1). */
  function IssueKey(n: nat): (k: string)
    ensures |k| > 6 && k[..6] == "issue-" && DecimalToNat(k[6..]) == n
    ensures k[6..] == NatToDecimal(n)
  {
    DecimalRoundTrip(n);
    var k := "issue-" + NatToDecimal(n);
    assert k[6..] == NatToDecimal(n);
    k
  }

  /** Different positions get different entry names. */
  lemma IssueKeyInjective(a: nat, b: nat)
    ensures IssueKey(a) == IssueKey(b) ==> a == b
  {
    if IssueKey(a) == IssueKey(b) {
      assert NatToDecimal(a) == IssueKey(a)[6..];
      assert NatToDecimal(b) == IssueKey(b)[6..];
      NatToDecimalInjective(a, b);
    }
  }

  /** The replies to a run of requests, in order, and the cache they leave behind. */
  datatype Batch = Batch(replies: seq<string>, cache: Cache)

  /** Serves the first `n` requests in order, threading the cache from one to the next. */
  function ServeAll(cache: Cache, reqs: seq<IssueRequest>, n: nat, md5: string -> Digest): (b: Batch)
    requires n <= |reqs|
    ensures |b.replies| == n
  {
    if n == 0 then Batch([], cache)
    else
      var before := ServeAll(cache, reqs, n - 1, md5);
      var served := Generate(before.cache, reqs[n - 1], md5);
      Batch(before.replies + [served.suggestion], served.cache)
  }

  /** Serving a run of requests never changes or removes an entry already in the cache. */
  lemma {:induction false} ServeAllKeepsEntry(cache: Cache, reqs: seq<IssueRequest>, n: nat, md5: string -> Digest, k: string)
    requires n <= |reqs| && k in cache
    ensures k in ServeAll(cache, reqs, n, md5).cache
    ensures ServeAll(cache, reqs, n, md5).cache[k] == cache[k]
  {
    if n > 0 {
      ServeAllKeepsEntry(cache, reqs, n - 1, md5, k);
    }
  }

  /** After a run of requests, the key of each of them is in the cache. */
  lemma {:induction false} ServeAllStoresKey(cache: Cache, reqs: seq<IssueRequest>, i: nat, n: nat, md5: string -> Digest)
    requires i < n <= |reqs|
    ensures CacheKey(reqs[i], md5) in ServeAll(cache, reqs, n, md5).cache
  {
    if i < n - 1 {
      ServeAllStoresKey(cache, reqs, i, n - 1, md5);
    }
  }

  /** The keys of the first `n` requests. */
  function KeysOf(reqs: seq<IssueRequest>, n: nat, md5: string -> Digest): set<string>
    requires n <= |reqs|
  {
    if n == 0 then {} else KeysOf(reqs, n - 1, md5) + {CacheKey(reqs[n - 1], md5)}
  }

  /** A key is among the keys of the first `n` requests exactly when one of them has it. */
  lemma {:induction false} KeysOfMember(reqs: seq<IssueRequest>, n: nat, md5: string -> Digest, k: string)
    requires n <= |reqs|
    ensures k in KeysOf(reqs, n, md5) <==> exists i :: 0 <= i < n && CacheKey(reqs[i], md5) == k
  {
    if n > 0 {
      KeysOfMember(reqs, n - 1, md5, k);
      if CacheKey(reqs[n - 1], md5) == k {
        assert 0 <= n - 1 < n && CacheKey(reqs[n - 1], md5) == k;
      }
    }
  }

  /** A run of requests adds exactly their keys to the cache, and no other. */
  lemma {:induction false} ServeAllKeys(cache: Cache, reqs: seq<IssueRequest>, n: nat, md5: string -> Digest)
    requires n <= |reqs|
    ensures ServeAll(cache, reqs, n, md5).cache.Keys == cache.Keys + KeysOf(reqs, n, md5)
  {
    if n > 0 {
      ServeAllKeys(cache, reqs, n - 1, md5);
    }
  }

  /**
   * A key that was not in the cache ends up holding the lookup of the first
   * request of the run with that key.
   */
  lemma {:induction false} ServeAllNewEntry(cache: Cache, reqs: seq<IssueRequest>, i: nat, n: nat, md5: string -> Digest)
    requires i < n <= |reqs|
    requires CacheKey(reqs[i], md5) !in cache
    requires forall j :: 0 <= j < i ==> CacheKey(reqs[j], md5) != CacheKey(reqs[i], md5)
    ensures CacheKey(reqs[i], md5) in ServeAll(cache, reqs, n, md5).cache
    ensures ServeAll(cache, reqs, n, md5).cache[CacheKey(reqs[i], md5)] == HeuristicSuggestion(reqs[i])
  {
    ServeAllStoresKey(cache, reqs, i, n, md5);
    if n == i + 1 {
      ServeAllKeys(cache, reqs, i, md5);
      KeysOfMember(reqs, i, md5, CacheKey(reqs[i], md5));
    } else {
      ServeAllNewEntry(cache, reqs, i, n - 1, md5);
    }
  }

  /**
   * Serving more requests does not change the earlier replies: the `i`-th
   * reply is the one request `i` gets from the cache the requests before it
   * left behind.
   */
  lemma {:induction false} ServedInOrder(cache: Cache, reqs: seq<IssueRequest>, i: nat, n: nat, md5: string -> Digest)
    requires i < n <= |reqs|
    ensures ServeAll(cache, reqs, n, md5).replies[i]
         == Generate(ServeAll(cache, reqs, i, md5).cache, reqs[i], md5).suggestion
  {
    if i < n - 1 {
      ServedInOrder(cache, reqs, i, n - 1, md5);
    }
  }

  /** The entry names `issue-1` ... `issue-n`. */
  function IssueKeys(n: nat): set<string> {
    if n == 0 then {} else IssueKeys(n - 1) + {IssueKey(n)}
  }

  lemma {:induction false} IssueKeyFresh(j: nat, n: nat)
    requires j < n
    ensures IssueKey(n) !in IssueKeys(j)
  {
    if j > 0 {
      IssueKeyFresh(j - 1, n);
      IssueKeyInjective(j, n);
    }
  }

  /** The reply map for replies listed in order: entry `issue-(i+1)` holds the i-th reply. */
  function Numbered(replies: seq<string>): map<string, string> {
    if replies == [] then map[]
    else Numbered(replies[..|replies| - 1])[IssueKey(|replies|) := replies[|replies| - 1]]
  }

  /** The reply map has exactly the entries `issue-1` ... `issue-n`, one per reply. */
  lemma {:induction false} NumberedKeys(replies: seq<string>)
    ensures Numbered(replies).Keys == IssueKeys(|replies|)
    ensures |Numbered(replies)| == |replies|
  {
    if replies != [] {
      var n := |replies|;
      NumberedKeys(replies[..n - 1]);
      IssueKeyFresh(n - 1, n);
    }
  }

  /** Entry `issue-(i+1)` of the reply map holds the i-th reply. */
  lemma {:induction false} NumberedAt(replies: seq<string>, i: nat)
    requires i < |replies|
    ensures IssueKey(i + 1) in Numbered(replies)
    ensures Numbered(replies)[IssueKey(i + 1)] == replies[i]
  {
    var n := |replies|;
    if i < n - 1 {
      NumberedAt(replies[..n - 1], i);
      IssueKeyInjective(i + 1, n);
    }
  }

  /** Serves a run of requests in order, threading the cache from one to the next. */
  method ServeBatch(cache: Cache, reqs: seq<IssueRequest>, md5: string -> Digest)
    returns (replies: seq<string>, cache': Cache)
    ensures replies == ServeAll(cache, reqs, |reqs|, md5).replies
    ensures cache' == ServeAll(cache, reqs, |reqs|, md5).cache
  {
    replies := [];
    cache' := cache;
    var idx := 0;
    while idx < |reqs|
      invariant 0 <= idx <= |reqs|
      invariant replies == ServeAll(cache, reqs, idx, md5).replies
      invariant cache' == ServeAll(cache, reqs, idx, md5).cache
    {
      var served := Generate(cache', reqs[idx], md5);
      replies := replies + [served.suggestion];
      cache' := served.cache;
      idx := idx + 1;
    }
  }

  /**
   * Serves a batch: the requests built from the issues are served in order
   * through the cache; the reply map numbers their replies, the returned cache
   * is the one they leave behind, and the summary reports the URL and the
   * issue count.
   */
  method Analyze(url: string, issues: seq<RawIssue>, cache: Cache, md5: string -> Digest)
    returns (suggestions: map<string, string>, summary: string, cache': Cache)
    ensures suggestions == Numbered(ServeAll(cache, Requests(issues, url), |issues|, md5).replies)
    ensures cache' == ServeAll(cache, Requests(issues, url), |issues|, md5).cache
    ensures summary == "Analysis completed for " + url + ". Found " + NatToDecimal(|issues|) + " issues."
  {
    var replies;
    replies, cache' := ServeBatch(cache, Requests(issues, url), md5);
    suggestions := Numbered(replies);
    summary := "Analysis completed for " + url + ". Found " + NatToDecimal(|issues|) + " issues.";
  }

  /**
   * Entry `issue-(i+1)` of the batch reply answers the i-th issue: it is what
   * that issue's request gets from the cache the issues before it left behind.
   * After the batch the request's key is in the cache.
   */
  lemma BatchEntry(cache: Cache, issues: seq<RawIssue>, url: string, md5: string -> Digest, i: nat)
    requires i < |issues|
    ensures var reqs := Requests(issues, url);
      var m := Numbered(ServeAll(cache, reqs, |issues|, md5).replies);
      && IssueKey(i + 1) in m
      && m[IssueKey(i + 1)] == Generate(ServeAll(cache, reqs, i, md5).cache, ToRequest(issues[i], url), md5).suggestion
      && CacheKey(ToRequest(issues[i], url), md5) in ServeAll(cache, reqs, |issues|, md5).cache
  {
    var reqs := Requests(issues, url);
    NumberedAt(ServeAll(cache, reqs, |issues|, md5).replies, i);
    ServedInOrder(cache, reqs, i, |issues|, md5);
    ServeAllStoresKey(cache, reqs, i, |issues|, md5);
  }

  /** Starting from a coherent cache, a run of colon-free-category requests keeps it coherent. */
  lemma {:induction false} BatchKeepsCoherent(cache: Cache, reqs: seq<IssueRequest>, n: nat, md5: string -> Digest)
    requires n <= |reqs|
    requires Coherent(cache, md5)
    requires forall i :: 0 <= i < n ==> KeyableCategory(reqs[i])
    ensures Coherent(ServeAll(cache, reqs, n, md5).cache, md5)
  {
    if n > 0 {
      BatchKeepsCoherent(cache, reqs, n - 1, md5);
      GenerateCoherent(ServeAll(cache, reqs, n - 1, md5).cache, reqs[n - 1], md5);
    }
  }

  /**
   * Starting from a coherent cache, request `i` of a run is answered with its
   * heuristic suggestion when it and the requests before it have colon-free
   * categories.
   */
  lemma BatchReplyIsHeuristic(cache: Cache, reqs: seq<IssueRequest>, i: nat, n: nat, md5: string -> Digest)
    requires i < n <= |reqs|
    requires Coherent(cache, md5)
    requires forall j :: 0 <= j <= i ==> KeyableCategory(reqs[j])
    ensures ServeAll(cache, reqs, n, md5).replies[i] == HeuristicSuggestion(reqs[i])
  {
    ServedInOrder(cache, reqs, i, n, md5);
    BatchKeepsCoherent(cache, reqs, i, md5);
    GenerateCoherent(ServeAll(cache, reqs, i, md5).cache, reqs[i], md5);
  }

  /** A run of requests keeps the entry under a colon-free category and type right. */
  lemma {:induction false} ServeAllHoldsLookup(cache: Cache, reqs: seq<IssueRequest>, n: nat, md5: string -> Digest,
                                               c: string, t: string, d: Digest)
    requires n <= |reqs|
    requires ':' !in c && ':' !in t
    requires HoldsLookup(cache, c, t, d)
    ensures HoldsLookup(ServeAll(cache, reqs, n, md5).cache, c, t, d)
  {
    if n > 0 {
      ServeAllHoldsLookup(cache, reqs, n - 1, md5, c, t, d);
      GenerateHoldsLookup(ServeAll(cache, reqs, n - 1, md5).cache, reqs[n - 1], md5, c, t, d);
    }
  }

  /**
   * A request with a colon-free category and type gets its heuristic
   * suggestion, whatever was served before it, as long as the cache does not
   * start out holding something else under its key.
   */
  lemma BatchReplyHoldsLookup(cache: Cache, reqs: seq<IssueRequest>, i: nat, n: nat, md5: string -> Digest)
    requires i < n <= |reqs|
    requires ':' !in reqs[i].category && ':' !in reqs[i].issueType
    requires HoldsLookup(cache, reqs[i].category, reqs[i].issueType, md5(reqs[i].element))
    ensures ServeAll(cache, reqs, n, md5).replies[i] == HeuristicSuggestion(reqs[i])
  {
    var req := reqs[i];
    ServeAllHoldsLookup(cache, reqs, i, md5, req.category, req.issueType, md5(req.element));
    GenerateAnswersLookup(ServeAll(cache, reqs, i, md5).cache, req, md5);
    ServedInOrder(cache, reqs, i, n, md5);
  }

  /** The request for an issue with neither a type nor a category looks up the `a11y` default. */
  lemma BareRequest(issue: RawIssue, url: string)
    requires "type" !in issue && "category" !in issue
    ensures var req := ToRequest(issue, url);
      && req.category == DefaultCategory && req.issueType == DefaultType
      && req.element == Field(issue, "element", "")
      && HeuristicSuggestion(req) == A11yDefault
  {
    assert DefaultType !in Table["a11y"];
    LookupResolution(ToRequest(issue, url));
  }

  /**
   * An issue with neither a type nor a category is treated as an unknown
   * accessibility issue: its entry is the `a11y` default, whatever the other
   * issues of the batch are, as long as the cache does not start out holding
   * something else under its key (the empty cache never does).
   */
  lemma BareIssueGetsA11yDefault(cache: Cache, issues: seq<RawIssue>, url: string, md5: string -> Digest, i: nat)
    requires i < |issues| && "type" !in issues[i] && "category" !in issues[i]
    requires HoldsLookup(cache, DefaultCategory, DefaultType, md5(Field(issues[i], "element", "")))
    ensures ServeAll(cache, Requests(issues, url), |issues|, md5).replies[i] == A11yDefault
  {
    var reqs := Requests(issues, url);
    assert reqs[i] == ToRequest(issues[i], url);
    BareRequest(issues[i], url);
    BatchReplyHoldsLookup(cache, reqs, i, |issues|, md5);
  }
}
