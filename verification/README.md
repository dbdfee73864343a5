# Suggestion microservice of the Inspark accessibility assistant, in Dafny

This project models the suggestion microservice (`microservice/app/main.py`). The browser
extension asks it for fixes to accessibility (`a11y`) and UI/UX (`uiux`) issues. The model
covers five parts of the service:

- **Classic suggestions.** A static two-level table maps category and issue type to a fix
  text. A missing type falls back to the category's default; a missing category falls back
  to a global default (`Suggestions`).
- **The AI path.** The comma-separated OpenRouter key list is parsed. The issue description
  and element markup are cut to 100 and 80 code points plus an ellipsis. The prompt is
  built, and the keys are tried in order until one attempt does not fail (`OpenRouter`).
- **The memoising `/api/suggest` handler.** The cache is keyed by
  `category:issueType:md5(element)`. In the model the cache is an explicit map that is
  passed in and returned (`SuggestionCache`).
- **The batch `/api/analyze` handler.** Loosely typed issues get defaults for missing
  fields. The issues are served in order through the shared cache, and the replies are
  numbered `issue-1` … `issue-n` (`Analysis`).
- **Python string operations.** `str.strip`, `str.split(",")`, slicing and `str(n)` are
  written out with Python's semantics (`Text`). `Wrappers` holds `Option` and `Result`.

Everything is pure. Anything that is not deterministic becomes a parameter:

- The `OPENROUTER_API_KEY` environment variable is a string. When the variable is unset,
  that string is empty.
- One HTTP attempt with one key is a function `net: (key, prompt) -> Outcome`. The outcome is:
  - a response with content;
  - a successful response without `choices[0].message.content`;
  - a failure. Failures cover transport errors, non-2xx statuses, bodies that do not
    decode, and content that is not a string.
- `hashlib.md5(...).hexdigest()` is a function `md5: string -> Digest` from strings to
  32-character strings.

The main results are:

- The lookup's resolution rules.
- The truncation bounds.
- Key parsing:
  - a round trip from keys to the environment string and back;
  - a segment-by-segment characterisation;
  - "no keys exactly when the string is only commas and whitespace".
- Failover order:
  - the first usable answer wins;
  - an error only when every key fails.
- Cache behaviour:
  - idempotence;
  - which inputs the key depends on;
  - untouched entries;
  - transparency for colon-free categories. From a cache in which every entry under the key
    of a colon-free-category request holds that request's lookup, every reply to such a
    request equals the table lookup. With a colon in the category two requests can share a
    key, and the cache can answer one with the other's text.
- The shape of the batch reply.

## Model

| member | source | states |
|---|---|---|
| `Text.IsSpace` | microservice/app/main.py:96 | the code points `str.strip()` removes: `IsSpaceExactly` shows they are exactly the 29 code points of Python's `str.isspace`, listed one by one in `Text.Whitespace` |
| `Text.IsSpaceExactly` | microservice/app/main.py:96 | the ranges tested by `IsSpace` accept a code point exactly when it is one of the 29 listed whitespace code points |
| `Text.Strip` | microservice/app/main.py:96 | `k.strip()`: the result is a contiguous slice of the input; only whitespace (Python's `isspace` set) is cut away on either side; the result has no outer whitespace |
| `Text.StripFixpoint` | microservice/app/main.py:96 | stripping leaves a string unchanged exactly when it has no outer whitespace |
| `Text.StripIdempotent` | microservice/app/main.py:96 | stripping twice equals stripping once |
| `Text.StripEmptyIff` | microservice/app/main.py:96 | a segment strips to the empty string exactly when it is all whitespace, which is when `if k.strip()` drops it |
| `Text.StripKeepsAbsent` | microservice/app/main.py:96 | stripping never introduces a character, so a comma-free segment stays comma-free |
| `Text.Split` | microservice/app/main.py:96 | `raw_keys.split(",")`: at least one segment, no segment contains a comma, and joining them with commas gives back the input |
| `Text.SplitJoin` | microservice/app/main.py:96 | splitting a comma-join of comma-free segments returns exactly those segments |
| `Text.JoinAppend` | microservice/app/main.py:96 | joining two non-empty segment lists equals joining their joins with one separator |
| `Text.SplitAppend` | microservice/app/main.py:96 | splitting `a + "," + b` gives the segments of `a` followed by those of `b` |
| `Text.Truncate` | microservice/app/main.py:100-108 | at most limit+1 code points; within the limit the input is unchanged; otherwise the exact first `limit` code points followed by one `…` |
| `Text.TruncateKeepsPrefix` | microservice/app/main.py:100-108 | the first `limit` code points of the input always survive truncation |
| `Text.TruncateIdempotent` | microservice/app/main.py:100-108 | truncating an already truncated string changes nothing |
| `Text.TruncateEqualIff` | microservice/app/main.py:100-108 | two strings truncate alike exactly when they are equal or both run past the limit and share their first `limit` code points |
| `Text.NatToDecimal` | microservice/app/main.py:214-216 | `str(n)`: a non-empty string of decimal digits without a leading zero |
| `Text.DecimalRoundTrip` | microservice/app/main.py:214-216 | reading the decimal rendering of `n` back gives `n` |
| `Text.NatToDecimalInjective` | microservice/app/main.py:214 | different numbers render differently |
| `Suggestions.HeuristicSuggestion` | microservice/app/main.py:70-91 | never empty; the table entry when category and type are both in the table, the category's default when only the category is, the global default otherwise |
| `Suggestions.LookupResolution` | microservice/app/main.py:71-91 | the table has exactly the categories `a11y` and `uiux`; an unknown type in either gets that category's default text, any other category gets "Review accessibility and UI/UX best practices."; every answer is one of the table's texts or the global default |
| `Suggestions.SuggestionIgnoresOtherFields` | microservice/app/main.py:87-91 | only category and issue type decide the lookup; description, element, severity and context do not |
| `OpenRouter.CleanKeys` | microservice/app/main.py:96 | keeps at most one key per segment; every kept key is non-empty and has no outer whitespace |
| `OpenRouter.CleanKeysCommaFree` | microservice/app/main.py:96 | comma-free segments give comma-free keys, because stripping adds no character |
| `OpenRouter.ParseKeys` | microservice/app/main.py:95-96 | every parsed key is non-empty, comma-free and stripped; there are no more keys than comma-separated segments |
| `OpenRouter.CleanKeysOfClean` | microservice/app/main.py:96 | cleaning a list of already clean keys returns it unchanged |
| `OpenRouter.ParseKeysRoundTrip` | microservice/app/main.py:95-96 | writing clean keys as a comma-separated string and parsing it gives the same keys in the same order |
| `OpenRouter.CleanKeysAppend` | microservice/app/main.py:96 | cleaning is segment by segment: cleaning a concatenation concatenates the results |
| `OpenRouter.ParseKeysSegment` | microservice/app/main.py:96 | a comma-free string yields its stripped text as the only key, or no key when that is empty |
| `OpenRouter.ParseKeysAppend` | microservice/app/main.py:96 | the keys of `a + "," + b` are the keys of `a` followed by the keys of `b` (order kept, segments independent) |
| `OpenRouter.CleanKeysEmptyIff` | microservice/app/main.py:96-97 | no segment survives cleaning exactly when every segment is whitespace only |
| `OpenRouter.BlankJoin` | microservice/app/main.py:96-97 | a comma-join is only commas and whitespace exactly when every segment is whitespace only |
| `OpenRouter.NoKeysIffBlank` | microservice/app/main.py:95-98 | the key list is empty, so the "not configured" error is raised, exactly when the environment string holds nothing but commas and whitespace |
| `OpenRouter.ShortDescription` | microservice/app/main.py:100-103 | the description in the prompt has at most 101 code points: unchanged up to 100, else its first 100 code points and `…` |
| `OpenRouter.ShortElement` | microservice/app/main.py:105-108 | the element in the prompt has at most 81 code points: unchanged up to 80, else its first 80 code points and `…` |
| `OpenRouter.Prompt` | microservice/app/main.py:110-118 | the prompt's length is bounded by the fixed text, type and severity plus 101 + 81, however long description and element are |
| `OpenRouter.PromptLayout` | microservice/app/main.py:110-118 | the prompt carries the truncated fields, not the full ones: it is the header, type, severity and description label, then `ShortDescription`, then the element label, `ShortElement` and the closing instruction; its length is the fixed text plus type, severity and the two truncated fields |
| `OpenRouter.PromptSeesOnlyPrefixes` | microservice/app/main.py:110-118 | the prompt sees an issue only through its type, its severity and its truncated description and element: issues that agree on those get the same prompt |
| `OpenRouter.ShortFieldsAlike` | microservice/app/main.py:100-108 | two issues get the same truncated description exactly when their descriptions are equal or both exceed 100 code points and share the first 100; likewise for the element at 80 |
| `OpenRouter.Answer` | microservice/app/main.py:134-140 | a response yields no answer exactly when the attempt failed; a response without content yields the apology; a response with content yields text with no outer whitespace and no longer than the content |
| `OpenRouter.AnswerStripsContent` | microservice/app/main.py:139 | a response with content is answered with exactly that content stripped, `Strip` being `str.strip()` |
| `OpenRouter.AnswerKeepsTrimmedContent` | microservice/app/main.py:139 | the content comes back unchanged exactly when it has no outer whitespace |
| `OpenRouter.Failover` | microservice/app/main.py:127-147 | (through `FailsOver`) keys are tried as a prefix of the list, in order; every tried key but the last failed; the result is a failure exactly when every key fails, and then it is `AllKeysFailed` and all keys were tried; otherwise it is the answer of the last tried key |
| `OpenRouter.FailoverFirstAnswer` | microservice/app/main.py:128-140 | when key j is the first whose attempt does not fail, exactly keys 0..j are tried and the answer is key j's |
| `OpenRouter.AiSuggestion` | microservice/app/main.py:94-147 | `KeyNotConfigured` exactly when no key parses, and then no request is sent; otherwise everything `Failover` promises for the parsed keys and the issue's prompt: keys tried in order as a prefix, all but the last failed, `AllKeysFailed` exactly when every key fails and then every key was tried, else the last tried key's answer |
| `SuggestionCache.RedactPii` | microservice/app/main.py:63-64 | the redaction hook returns its input unchanged, so the element is hashed and the description is passed on unchanged |
| `SuggestionCache.CacheKey` | microservice/app/main.py:163 | the f-string key; what it consists of is stated by `CacheKeyLayout`, and which inputs it depends on by `CacheKeyInputs` and `CacheKeyInjective` |
| `SuggestionCache.CacheKeyLayout` | microservice/app/main.py:163 | the key of a request is its category, a colon, its issue type, a colon and the 32-character digest of its element, in that order |
| `SuggestionCache.Generate` | microservice/app/main.py:160-175 | afterwards the request's key maps to the returned text; no other entry is added or changed; a hit returns the stored text, a miss the table lookup |
| `SuggestionCache.GenerateIdempotent` | microservice/app/main.py:163-171 | a second request with the same category, issue type and element (any description, severity or context) gets the text the first one got and leaves the cache as the first left it |
| `SuggestionCache.CacheKeyInjective` | microservice/app/main.py:163 | for colon-free categories, equal keys mean equal category, equal issue type and equal element digest |
| `SuggestionCache.CacheKeyInputs` | microservice/app/main.py:161-163 | the key depends only on category, issue type and element, never on description, severity or context; the converse holds up to the digest for colon-free categories |
| `SuggestionCache.GenerateCoherent` | microservice/app/main.py:163-171 | from a cache in which every entry under a colon-free-category request's key holds that request's lookup, the reply is the lookup and that property is kept |
| `SuggestionCache.ColonCollision` | microservice/app/main.py:163 | category `a11y:x` with type `y` and category `a11y` with type `x:y` share a key, so the second is answered with the global default instead of its own `a11y` default |
| `SuggestionCache.KeyOwner` | microservice/app/main.py:163 | for a colon-free category and type, the only requests whose key is theirs with a given digest are the requests of that category and type whose element has that digest |
| `SuggestionCache.GenerateHoldsLookup` | microservice/app/main.py:163-171 | serving any request keeps the entry under a colon-free category and type holding that pair's lookup, if it held it before |
| `SuggestionCache.GenerateAnswersLookup` | microservice/app/main.py:163-171 | any request, whatever its category and type, gets its table lookup whenever the entry under its own key holds that lookup or is absent |
| `Analysis.ToRequest` | microservice/app/main.py:205-212 | each field is the issue's value when present (even if empty) and otherwise `unknown`, empty, empty, `moderate`, `a11y`; the context holds the page URL |
| `Analysis.Requests` | microservice/app/main.py:204-212 | the requests the loop builds, one per issue in order; each is described by `ToRequest` |
| `Analysis.IssueKey` | microservice/app/main.py:214 | `issue-n` is `issue-` followed by exactly `str(n)` (`NatToDecimal`), which reads back as n |
| `Analysis.IssueKeyInjective` | microservice/app/main.py:214 | different positions get different `issue-n` names |
| `Analysis.IssueKeyFresh` | microservice/app/main.py:214 | `issue-n` is not among the names of earlier positions |
| `Analysis.Numbered` | microservice/app/main.py:203-214 | the reply dictionary built by the loop; that it has exactly the entries `issue-1` … `issue-n` and entry `issue-(i+1)` holds the i-th reply is stated by `NumberedKeys` and `NumberedAt` |
| `Analysis.ServeAll` | microservice/app/main.py:204-214 | serving n requests in order yields n replies; the replies are stated by `ServedInOrder`, and the cache by `ServeAllKeys` (exactly the requests' keys are added), `ServeAllKeepsEntry` (old entries unchanged) and `ServeAllNewEntry` (a new entry holds the lookup of the first request with that key) |
| `Analysis.ServeAllKeepsEntry` | microservice/app/main.py:204-214 | a batch never removes or changes an entry that was already in the cache |
| `Analysis.ServeAllStoresKey` | microservice/app/main.py:204-214 | after a batch, the cache key of each of its requests is in the cache |
| `Analysis.KeysOfMember` | microservice/app/main.py:204-214 | a key is among the keys of the first n requests exactly when one of those requests has it |
| `Analysis.ServeAllKeys` | microservice/app/main.py:204-214 | the cache after a batch has exactly the keys it had before plus the keys of the batch's requests, and no other |
| `Analysis.ServeAllNewEntry` | microservice/app/main.py:204-214 | a key that was not in the starting cache holds, after the batch, the table lookup of the first request of the batch with that key |
| `Analysis.ServedInOrder` | microservice/app/main.py:204-214 | the i-th reply is what request i gets from the cache left by the requests before it; later requests do not change it |
| `Analysis.NumberedKeys` | microservice/app/main.py:203-214 | the reply map has exactly the entries `issue-1` … `issue-n`, n of them |
| `Analysis.NumberedAt` | microservice/app/main.py:214 | entry `issue-(i+1)` holds the i-th reply |
| `Analysis.ServeBatch` | microservice/app/main.py:204-214 | the loop's replies and final cache are those of serving the requests one after the other |
| `Analysis.Analyze` | microservice/app/main.py:197-221 | the reply map numbers the in-order replies, the returned cache is the one the batch leaves, and the summary reads "Analysis completed for {url}. Found {n} issues." |
| `Analysis.BatchEntry` | microservice/app/main.py:204-214 | entry `issue-(i+1)` is the reply to issue i's request as served after the issues before it, and that request's key is then in the cache |
| `Analysis.BatchKeepsCoherent` | microservice/app/main.py:204-214 | if every entry under the key of a colon-free-category request holds that request's lookup (`Coherent`), serving n requests with colon-free categories keeps that so |
| `Analysis.BatchReplyIsHeuristic` | microservice/app/main.py:204-214 | with such a cache, reply i of the batch is request i's table lookup when requests 0..i have colon-free categories |
| `Analysis.ServeAllHoldsLookup` | microservice/app/main.py:204-214 | a batch keeps the entry under a colon-free category and type holding that pair's lookup, if it held it before, whatever requests the batch contains |
| `Analysis.BatchReplyHoldsLookup` | microservice/app/main.py:204-214 | a request with a colon-free category and type gets its table lookup wherever it sits in the batch, unless the starting cache holds something else under its key |
| `Analysis.BareRequest` | microservice/app/main.py:205-212 | an issue with neither type nor category becomes an `a11y` request of type `unknown`, whose lookup is the `a11y` default |
| `Analysis.BareIssueGetsA11yDefault` | microservice/app/main.py:205-214 | an issue with neither type nor category is answered "Review WCAG guidelines for accessibility compliance.", whatever the other issues of the batch are, unless the starting cache holds something else under its key (the empty cache the service starts with never does) |

## Left out

- The FastAPI application, CORS middleware, `verify_api_key` (always true), the `/` and `/api/health` routes and `uvicorn` startup: framework plumbing without logic.
- Routes' HTTP mapping: every exception becoming status 500 with `str(e)` as detail. `AiError` names the two errors the AI path raises; their detail strings are not modelled.
- `requests.post`, the JSON payload, the model name, the headers and the 30-second timeout: network I/O, replaced by the `net` parameter. The model assumes that one key and one prompt always lead to the same outcome.
- `hashlib.md5` and `.encode()`: a foreign call, replaced by the `md5` parameter. Strings that cannot be UTF-8 encoded (lone surrogates) cannot be written as Dafny strings, so the encoding error they would raise is not modelled.
- The `Digest` type only requires 32 characters, not lower-case hex digits. Nothing the cache does depends on the alphabet.
- `datetime.now().isoformat()` timestamps in the responses: clock reads.
- Logging, including the key named in the failover warning.
- Pydantic validation. Raw batch issues are maps from field name to string, so a non-string value (which would make building the request fail with status 500) cannot be expressed. The `html` and `metadata` fields of the batch request are never read by the handler and are not modelled.
- The order of the reply dictionary. Python's dict keeps `issue-1` … `issue-n` in insertion order, and the JSON reply lists them in that order. The Dafny map has no order, so the model states which entries there are and what each holds, but not the order they are listed in.
- Concurrency between async handlers. Calls are strictly sequential and the cache is threaded as explicit state, starting from the empty map.
- `SuggestionCache.GenerateCoherent`, `Analysis.BatchKeepsCoherent` and `Analysis.BatchReplyIsHeuristic` require colon-free categories for the requests they serve. With a colon in the category the key is ambiguous, as `SuggestionCache.ColonCollision` shows, and the cache can answer with another request's text. `Analysis.BatchReplyHoldsLookup` and `Analysis.BareIssueGetsA11yDefault` need only the category and type of the request in question to be colon-free; `SuggestionCache.GenerateAnswersLookup` needs no colon condition.
- The multi-screen lesson coordinator, the screen-change detector and the issue normaliser of the extension are not part of this model.
