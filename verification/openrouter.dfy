/**
 * The AI suggestion path: the comma-separated API key list, the truncation of
 * the description and element that go into the prompt, and the ordered
 * failover over keys.  The HTTP call for one key is an abstract `Outcome`
 * supplied by the caller; the key list's environment variable is a string
 * parameter (the empty string when unset).
 */
module OpenRouter {
  import opened Wrappers
  import opened Text
  import opened Suggestions

  const DescriptionLimit: nat := 100
  const ElementLimit: nat := 80
  const Apology: string := "Sorry, could not generate an AI suggestion."

  /** The two errors the AI path raises (both become HTTP 500 at the route). */
  datatype AiError = KeyNotConfigured | AllKeysFailed

  /**
   * What one HTTP attempt with one key came to: a successful response whose
   * `choices[0].message.content` is present, a successful response without it,
   * or any failure (transport error, non-2xx status, undecodable body).
   */
  datatype Outcome = WithContent(content: string) | WithoutContent | Failed

  /** The result of the AI path together with the keys it sent requests with, in order. */
  datatype AiReply = AiReply(result: Result<string, AiError>, attempted: seq<string>)

  // ---------------------------------------------------------------- keys

  /** A key as it survives parsing: non-empty, comma-free, no outer whitespace. */
  predicate IsCleanKey(k: string) {
    k != "" && ',' !in k && Trimmed(k)
  }

  /** Keeps, in order, the stripped segments that are not empty. */
  function CleanKeys(parts: seq<string>): (keys: seq<string>)
    ensures |keys| <= |parts|
    ensures forall i :: 0 <= i < |keys| ==> keys[i] != "" && Trimmed(keys[i])
  {
    if |parts| == 0 then []
    else
      var k := Strip(parts[0]);
      var rest := CleanKeys(parts[1..]);
      (if k == "" then [] else [k]) + rest
  }

  /** Stripping adds no comma, so comma-free segments give comma-free keys. */
  lemma {:induction false} CleanKeysCommaFree(parts: seq<string>)
    requires forall i :: 0 <= i < |parts| ==> ',' !in parts[i]
    ensures forall i :: 0 <= i < |CleanKeys(parts)| ==> ',' !in CleanKeys(parts)[i]
  {
    if |parts| > 0 {
      StripKeepsAbsent(parts[0], ',');
      assert forall i :: 1 <= i < |parts| ==> parts[i] == parts[1..][i - 1];
      CleanKeysCommaFree(parts[1..]);
    }
  }

  /**
   * The key list read from the environment string: split on commas, each
   * segment stripped, empty segments dropped, order kept.
   */
  function ParseKeys(raw: string): (keys: seq<string>)
    ensures forall i :: 0 <= i < |keys| ==> IsCleanKey(keys[i])
    ensures |keys| <= |Split(raw, ',')|
  {
    CleanKeysCommaFree(Split(raw, ','));
    CleanKeys(Split(raw, ','))
  }

  /** Listing clean keys with commas and parsing the list gives the same keys back. */
  lemma {:induction false} ParseKeysRoundTrip(keys: seq<string>)
    requires forall i :: 0 <= i < |keys| ==> IsCleanKey(keys[i])
    ensures ParseKeys(Join(keys, ',')) == keys
  {
    if |keys| == 0 {
      assert Split("", ',') == [""];
    } else {
      SplitJoin(keys, ',');
      CleanKeysOfClean(keys);
    }
  }

  lemma {:induction false} CleanKeysOfClean(keys: seq<string>)
    requires forall i :: 0 <= i < |keys| ==> IsCleanKey(keys[i])
    ensures CleanKeys(keys) == keys
    decreases |keys|
  {
    if |keys| > 0 {
      StripFixpoint(keys[0]);
      CleanKeysOfClean(keys[1..]);
      assert keys == [keys[0]] + keys[1..];
    }
  }

  /** Cleaning is segment by segment: cleaning a concatenation concatenates the results. */
  lemma {:induction false} CleanKeysAppend(p: seq<string>, q: seq<string>)
    ensures CleanKeys(p + q) == CleanKeys(p) + CleanKeys(q)
    decreases |p|
  {
    if |p| > 0 {
      assert (p + q)[1..] == p[1..] + q;
      CleanKeysAppend(p[1..], q);
    } else {
      assert p + q == q;
    }
  }

  /**
   * The keys of a comma-free string: its stripped text, unless that is empty.
   * Together with `ParseKeysAppend` this pins `ParseKeys` down on every input.
   */
  lemma ParseKeysSegment(s: string)
    requires ',' !in s
    ensures ParseKeys(s) == if Strip(s) == "" then [] else [Strip(s)]
  {
    IndexOfAbsent(s, ',');
    assert s[..|s|] == s;
  }

  /**
   * The keys of two comma-separated lists joined by a comma are the keys of
   * the first followed by the keys of the second: segments are parsed
   * independently and their order is kept.
   */
  lemma ParseKeysAppend(a: string, b: string)
    ensures ParseKeys(a + [','] + b) == ParseKeys(a) + ParseKeys(b)
  {
    SplitAppend(a, b, ',');
    CleanKeysAppend(Split(a, ','), Split(b, ','));
  }

  /** Only commas and whitespace. */
  predicate Blank(s: string) {
    forall i :: 0 <= i < |s| ==> s[i] == ',' || IsSpace(s[i])
  }

  /** Every segment is whitespace only. */
  predicate AllSpaceParts(parts: seq<string>) {
    |parts| == 0 || (AllSpace(parts[0]) && AllSpaceParts(parts[1..]))
  }

  lemma {:induction false} CleanKeysEmptyIff(parts: seq<string>)
    ensures CleanKeys(parts) == [] <==> AllSpaceParts(parts)
    decreases |parts|
  {
    if |parts| > 0 {
      var k := Strip(parts[0]);
      assert CleanKeys(parts) == (if k == "" then [] else [k]) + CleanKeys(parts[1..]);
      StripEmptyIff(parts[0]);
      CleanKeysEmptyIff(parts[1..]);
    }
  }

  lemma {:induction false} BlankJoin(parts: seq<string>)
    requires forall i :: 0 <= i < |parts| ==> ',' !in parts[i]
    ensures Blank(Join(parts, ',')) <==> AllSpaceParts(parts)
    decreases |parts|
  {
    if |parts| == 1 {
      assert Blank(parts[0]) <==> AllSpace(parts[0]);
      assert parts[1..] == [];
    } else if |parts| > 1 {
      var a := parts[0];
      var b := Join(parts[1..], ',');
      var s := a + [','] + b;
      assert forall i :: 1 <= i < |parts| ==> parts[i] == parts[1..][i - 1];
      BlankJoin(parts[1..]);
      assert forall i :: 0 <= i < |a| ==> s[i] == a[i];
      assert forall i :: 0 <= i < |b| ==> s[|a| + 1 + i] == b[i];
      assert Blank(a) <==> AllSpace(a);
      if Blank(a) && Blank(b) {
        forall i | 0 <= i < |s|
          ensures s[i] == ',' || IsSpace(s[i])
        {
          if i > |a| {
            assert s[i] == b[i - |a| - 1];
          }
        }
      }
    }
  }

  /**
   * The environment string yields no key exactly when it holds nothing but
   * commas and whitespace.
   */
  lemma NoKeysIffBlank(raw: string)
    ensures ParseKeys(raw) == [] <==> Blank(raw)
  {
    var parts := Split(raw, ',');
    CleanKeysEmptyIff(parts);
    BlankJoin(parts);
  }

  // ---------------------------------------------------------------- prompt

  /** The description as it appears in the prompt: at most 100 code points and an ellipsis. */
  function ShortDescription(issue: IssueRequest): (d: string)
    ensures |d| <= DescriptionLimit + 1
    ensures |issue.issueDescription| <= DescriptionLimit ==> d == issue.issueDescription
    ensures |issue.issueDescription| > DescriptionLimit ==>
      d == issue.issueDescription[..DescriptionLimit] + [Ellipsis]
  {
    Truncate(issue.issueDescription, DescriptionLimit)
  }

  /** The element markup as it appears in the prompt: at most 80 code points and an ellipsis. */
  function ShortElement(issue: IssueRequest): (e: string)
    ensures |e| <= ElementLimit + 1
    ensures |issue.element| <= ElementLimit ==> e == issue.element
    ensures |issue.element| > ElementLimit ==> e == issue.element[..ElementLimit] + [Ellipsis]
  {
    Truncate(issue.element, ElementLimit)
  }

  const PromptHeader: string :=
    "You are an accessibility and UI/UX expert. Give a very brief fix (under 30 words).\n"
  const PromptTrailer: string := "Return only the recommendation."

  /** The fixed text of the prompt around the four issue fields. */
  const PromptOverhead: nat :=
    |PromptHeader| + |"Issue Type: \n"| + |"Severity: \n"| + |"Description (short): \n"|
    + |"HTML Element (short): \n"| + |PromptTrailer|

  /**
   * The user message sent to the model.  However long the description and the
   * element markup, they add at most 101 and 81 code points to it.
   */
  function Prompt(issue: IssueRequest): (p: string)
    ensures |p| <= PromptOverhead + |issue.issueType| + |issue.severity|
                   + (DescriptionLimit + 1) + (ElementLimit + 1)
  {
    PromptHeader
    + "Issue Type: " + issue.issueType + "\n"
    + "Severity: " + issue.severity + "\n"
    + "Description (short): " + ShortDescription(issue) + "\n"
    + "HTML Element (short): " + ShortElement(issue) + "\n"
    + PromptTrailer
  }

  /**
   * Where the fields sit in the prompt: after the header come the type, the
   * severity and the label of the description; then the truncated description
   * itself; then the truncated element and the closing instruction.  Its
   * length is the fixed text plus the four fields.
   */
  lemma PromptLayout(issue: IssueRequest)
    ensures var head := PromptHeader + "Issue Type: " + issue.issueType + "\n"
                        + "Severity: " + issue.severity + "\n" + "Description (short): ";
            var tail := "\n" + "HTML Element (short): " + ShortElement(issue) + "\n" + PromptTrailer;
            Prompt(issue) == head + ShortDescription(issue) + tail
    ensures |Prompt(issue)| == PromptOverhead + |issue.issueType| + |issue.severity|
                               + |ShortDescription(issue)| + |ShortElement(issue)|
  {
    Regroup(PromptHeader, "Issue Type: ", issue.issueType, "\n", "Severity: ", issue.severity, "\n",
            "Description (short): ", ShortDescription(issue),
            "\n", "HTML Element (short): ", ShortElement(issue), "\n", PromptTrailer);
  }

  /** Regrouping a concatenation of fourteen pieces around the ninth. */
  lemma Regroup<T>(a: seq<T>, b: seq<T>, c: seq<T>, d: seq<T>, e: seq<T>, f: seq<T>, g: seq<T>,
                   h: seq<T>, x: seq<T>, p: seq<T>, q: seq<T>, r: seq<T>, s: seq<T>, t: seq<T>)
    ensures a + b + c + d + e + f + g + h + x + p + q + r + s + t
            == (a + b + c + d + e + f + g + h) + x + (p + q + r + s + t)
  {
  }

  /**
   * The prompt sees an issue only through its type, its severity and the
   * truncated description and element: issues that agree on those get the
   * same prompt, however much their full description or markup differ.
   */
  lemma PromptSeesOnlyPrefixes(a: IssueRequest, b: IssueRequest)
    requires a.issueType == b.issueType && a.severity == b.severity
    requires ShortDescription(a) == ShortDescription(b) && ShortElement(a) == ShortElement(b)
    ensures Prompt(a) == Prompt(b)
  {
  }

  /**
   * Two issues truncate to the same description exactly when their
   * descriptions are equal or both run past 100 code points and share their
   * first 100; likewise for the element markup at 80.
   */
  lemma ShortFieldsAlike(a: IssueRequest, b: IssueRequest)
    ensures ShortDescription(a) == ShortDescription(b)
        <==> a.issueDescription == b.issueDescription
             || (|a.issueDescription| > DescriptionLimit && |b.issueDescription| > DescriptionLimit
                 && a.issueDescription[..DescriptionLimit] == b.issueDescription[..DescriptionLimit])
    ensures ShortElement(a) == ShortElement(b)
        <==> a.element == b.element
             || (|a.element| > ElementLimit && |b.element| > ElementLimit
                 && a.element[..ElementLimit] == b.element[..ElementLimit])
  {
    TruncateEqualIff(a.issueDescription, b.issueDescription, DescriptionLimit);
    TruncateEqualIff(a.element, b.element, ElementLimit);
  }

  // ---------------------------------------------------------------- failover

  /**
   * The text a response yields, if it is usable at all: the stripped content,
   * or the fixed apology when a successful response has no content.
   */
  function Answer(o: Outcome): (a: Option<string>)
    ensures a.None? <==> o.Failed?
    ensures o.WithoutContent? ==> a == Some(Apology)
    ensures o.WithContent? ==> Trimmed(a.value) && |a.value| <= |o.content|
  {
    match o
    case WithContent(c) => Some(Strip(c))
    case WithoutContent => Some(Apology)
    case Failed => None
  }

  /** A response with content is answered with that content stripped, as `str.strip()` does. */
  lemma AnswerStripsContent(c: string)
    ensures Answer(WithContent(c)) == Some(Strip(c))
  {
  }

  /** The content comes back unchanged exactly when it has no surrounding whitespace. */
  lemma AnswerKeepsTrimmedContent(c: string)
    ensures Answer(WithContent(c)).value == c <==> Trimmed(c)
  {
    StripFixpoint(c);
  }

  /**
   * What a failover over `keys` with `prompt` promises of its reply `r`: the
   * keys tried are a prefix of the list, taken in order; every tried key but
   * the last failed; the result is a failure exactly when every key fails,
   * and then it is `AllKeysFailed` and every key was tried; otherwise it is
   * the answer of the last tried key.
   */
  predicate FailsOver(keys: seq<string>, prompt: string, net: (string, string) -> Outcome, r: AiReply) {
    && |r.attempted| <= |keys| && r.attempted == keys[..|r.attempted|]
    && (forall i :: 0 <= i < |r.attempted| - 1 ==> net(keys[i], prompt).Failed?)
    && (r.result.Failure? <==> forall i :: 0 <= i < |keys| ==> net(keys[i], prompt).Failed?)
    && (r.result.Failure? ==> r.result.error == AllKeysFailed && r.attempted == keys)
    && (r.result.Success? ==>
          |r.attempted| > 0 && Answer(net(keys[|r.attempted| - 1], prompt)) == Some(r.result.value))
  }

  /**
   * Tries the keys in order with the same prompt.  The first attempt that does
   * not fail decides the answer and no later key is tried; only when every
   * attempt fails is `AllKeysFailed` returned.
   */
  function Failover(keys: seq<string>, prompt: string, net: (string, string) -> Outcome): (r: AiReply)
    ensures FailsOver(keys, prompt, net, r)
    decreases |keys|
  {
    if |keys| == 0 then
      AiReply(Failure(AllKeysFailed), [])
    else
      match Answer(net(keys[0], prompt))
      case Some(text) =>
        AiReply(Success(text), [keys[0]])
      case None =>
        var rest := Failover(keys[1..], prompt, net);
        assert forall i :: 1 <= i < |keys| ==> keys[i] == keys[1..][i - 1];
        AiReply(rest.result, [keys[0]] + rest.attempted)
  }

  /**
   * The answer is the one of the first key whose attempt did not fail, and
   * exactly the keys up to and including it were tried.
   */
  lemma FailoverFirstAnswer(keys: seq<string>, prompt: string, net: (string, string) -> Outcome, j: nat)
    requires j < |keys| && !net(keys[j], prompt).Failed?
    requires forall i :: 0 <= i < j ==> net(keys[i], prompt).Failed?
    ensures Failover(keys, prompt, net).attempted == keys[..j + 1]
    ensures Failover(keys, prompt, net).result == Success(Answer(net(keys[j], prompt)).value)
  {
  }

  /**
   * The AI suggestion for an issue: no request at all when the key list is
   * empty, otherwise failover over the parsed keys with the issue's prompt.
   */
  function AiSuggestion(rawKeys: string, issue: IssueRequest, net: (string, string) -> Outcome): (r: AiReply)
    ensures var keys := ParseKeys(rawKeys);
      && (r.result == Failure(KeyNotConfigured) <==> keys == [])
      && (keys == [] ==> r.attempted == [])
      && (keys != [] ==> FailsOver(keys, Prompt(issue), net, r))
  {
    var keys := ParseKeys(rawKeys);
    if keys == [] then AiReply(Failure(KeyNotConfigured), [])
    else
      Failover(keys, Prompt(issue), net)
  }
}
