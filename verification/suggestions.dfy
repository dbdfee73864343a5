/**
 * The static ("classic") suggestion lookup of the accessibility assistant
 * service: a two-level table keyed by issue category and then issue type,
 * with a per-category default and a global default.
 */
module Suggestions {
  import opened Wrappers

  /**
   * One issue as posted to the suggestion endpoints.  `context` is free-form
   * metadata; the batch endpoint fills it with the page URL.
   */
  datatype IssueRequest = IssueRequest(
    issueType: string,
    issueDescription: string,
    element: string,
    severity: string,
    category: string,
    context: Option<map<string, string>>)

  const A11yDefault: string := "Review WCAG guidelines for accessibility compliance."
  const UiuxDefault: string := "Follow Inspark UI/UX guidelines to ensure a smooth user experience."
  const GlobalDefault: string := "Review accessibility and UI/UX best practices."

  /** Suggestion texts by category, then by issue type; `"default"` is the category fallback. */
  const Table: map<string, map<string, string>> := map[
    "a11y" := map[
      "color-contrast" := "Increase the contrast ratio. Try using a darker text or lighter background.",
      "image-alt" := "Add alt text to images describing their function.",
      "default" := A11yDefault
    ],
    "uiux" := map[
      "touch-target-size" := "Increase touch target to at least 44×44 px so users can tap easily.",
      "font-size-too-small" := "Boost text size to at least 16 px for readability.",
      "viewport-width" := "Ensure content fits within the viewport to avoid horizontal scrolling.",
      "layout-shift" := "Reduce layout shifts by reserving image space and avoiding late DOM changes.",
      "lcp" := "Optimize largest contentful paint by deferring unused CSS and images.",
      "inp" := "Improve interactivity by reducing JavaScript blocking time below 200 ms.",
      "default" := UiuxDefault
    ]
  ]

  /** Python's `d.get(k)`. */
  function Get(m: map<string, string>, k: string): Option<string> {
    if k in m then Some(m[k]) else None
  }

  /** Whether Python's `or` stops at this value: neither `None` nor the empty string. */
  predicate Truthy(o: Option<string>) {
    o.Some? && o.value != ""
  }

  /**
   * The heuristic suggestion for an issue: the table entry for its category and
   * type, else its category's default, else the global default.  The chain is
   * written with Python's `or`, so an empty entry would also fall through.
   */
  function HeuristicSuggestion(issue: IssueRequest): (r: string)
    ensures r != ""
    ensures issue.category in Table && issue.issueType in Table[issue.category] ==>
                r == Table[issue.category][issue.issueType]
    ensures issue.category in Table && issue.issueType !in Table[issue.category] ==>
                r == Table[issue.category]["default"]
    ensures issue.category !in Table ==> r == GlobalDefault
  {
    var byType := if issue.category in Table then Table[issue.category] else map[];
    var exact := Get(byType, issue.issueType);
    var fallback := Get(byType, "default");
    if Truthy(exact) then exact.value
    else if Truthy(fallback) then fallback.value
    else GlobalDefault
  }

  /**
   * The table's shape, spelled out: two categories, each with its own non-empty
   * default, so an unknown type in `a11y` or `uiux` gets that category's default
   * and anything else gets the global one.
   */
  lemma LookupResolution(issue: IssueRequest)
    ensures Table.Keys == {"a11y", "uiux"}
    ensures issue.category == "a11y" && issue.issueType !in Table["a11y"] ==>
                HeuristicSuggestion(issue) == A11yDefault
    ensures issue.category == "uiux" && issue.issueType !in Table["uiux"] ==>
                HeuristicSuggestion(issue) == UiuxDefault
    ensures issue.category != "a11y" && issue.category != "uiux" ==>
                HeuristicSuggestion(issue) == GlobalDefault
    ensures HeuristicSuggestion(issue) in Table["a11y"].Values + Table["uiux"].Values + {GlobalDefault}
  {
    assert "a11y" in Table && "uiux" in Table;
  }

  /** Only the category and the issue type decide the heuristic suggestion. */
  lemma SuggestionIgnoresOtherFields(a: IssueRequest, b: IssueRequest)
    ensures HeuristicSuggestion(a) == HeuristicSuggestion(b)
              <== a.category == b.category && a.issueType == b.issueType
  {
  }
}
