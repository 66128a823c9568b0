/**
  Keyword intent classification and prompt assembly: the query is lower-cased,
  matched against three keyword lists in a fixed priority order, and the
  template of the winning category is put in front of the trimmed query.
 */
module PromptSelector {
  import opened Wrappers
  import opened Text

  /** The four intents a query can be given; Unknown when no keyword matches. */
  datatype QueryCategory = Technical | Troubleshooting | General | Unknown

  /** The ValueError raised for an empty or whitespace-only query. */
  datatype PromptError = ValueError(message: string)

  const EmptyQueryMessage := "User query is empty or None."

  /** The instruction text for each category, fixed at construction. */
  const Templates: map<QueryCategory, string> := map[
    Technical :=
      "You are an expert software engineer. Please provide a step-by-step, thorough solution "
      + "with relevant examples or references where applicable.",
    Troubleshooting :=
      "You are a technical support assistant. Suggest potential reasons for the issue and "
      + "step-by-step troubleshooting tips, including any necessary safety measures.",
    General :=
      "You are a well-informed AI. Provide a clear, concise, and factually accurate summary.",
    Unknown :=
      UnknownTemplate
  ]

  const UnknownTemplate :=
    "You are an AI assistant capable of handling diverse queries. "
    + "Try to interpret the query and respond helpfully."

  const TechnicalKeywords: seq<string> :=
    ["how do i", "please explain", "implement", "build", "develop", "step-by-step"]
  const TroubleshootingKeywords: seq<string> :=
    ["troubleshoot", "error", "issue", "bug", "fix", "cannot open"]
  const GeneralKeywords: seq<string> :=
    ["what is", "who is", "when did", "where is", "can you define"]

  /** The classification rules in the order the scan visits them. */
  const ClassificationRules: seq<(QueryCategory, seq<string>)> := [
    (Technical, TechnicalKeywords),
    (Troubleshooting, TroubleshootingKeywords),
    (General, GeneralKeywords)
  ]

  /** What separates the template from the query in the prompt. */
  const QueryHeader := "\n\nUser Query:\n"

  /** Some keyword of the list is a substring of `text`. */
  predicate AnyKeywordIn(keywords: seq<string>, text: string) {
    exists k :: k in keywords && Contains(text, k)
  }

  /** The category of the first rule with a keyword in `text`, or Unknown:
      a category other than Unknown comes from a rule that hits `text`, and
      when no rule hits, the result is Unknown. */
  function FirstMatch(rules: seq<(QueryCategory, seq<string>)>, text: string): (r: QueryCategory)
    ensures r == Unknown || exists j :: 0 <= j < |rules| && rules[j].0 == r && AnyKeywordIn(rules[j].1, text)
    ensures (forall j :: 0 <= j < |rules| ==> !AnyKeywordIn(rules[j].1, text)) ==> r == Unknown
  {
    if rules == [] then Unknown
    else if AnyKeywordIn(rules[0].1, text) then rules[0].0
    else
      var r := FirstMatch(rules[1..], text);
      assert forall j :: 0 < j < |rules| ==> rules[j] == rules[1..][j - 1];
      r
  }

  /** The category the rules give a query: they are matched against its
      lower-cased form. A known category has a keyword in the lower-cased
      query; with no keyword of any list in it, the query is Unknown. */
  function Classify(query: string): (r: QueryCategory)
    ensures r == Unknown || exists j :: 0 <= j < |ClassificationRules| && ClassificationRules[j].0 == r
                                        && AnyKeywordIn(ClassificationRules[j].1, Lower(query))
    ensures (forall j :: 0 <= j < |ClassificationRules| ==> !AnyKeywordIn(ClassificationRules[j].1, Lower(query)))
            ==> r == Unknown
  {
    FirstMatch(ClassificationRules, Lower(query))
  }

  /** `templates.get(category, templates[UNKNOWN])`: the lookup never needs its fallback. */
  function TemplateFor(category: QueryCategory): (t: string)
    ensures category in Templates && t == Templates[category]
  {
    TemplatesCoverEveryCategory(category);
    if category in Templates then Templates[category] else UnknownTemplate
  }

  /** The prompt text sent for `query` once it is classified as `category`:
      it starts with the category's own template and holds the trimmed query
      verbatim, right after the "User Query:" header, as its last line. */
  function BuildPrompt(query: string, category: QueryCategory): (r: string)
    ensures StartsWith(r, TemplateFor(category))
    ensures OccursAt(r, Strip(query), |TemplateFor(category)| + |QueryHeader|)
    ensures Contains(r, Strip(query))
    ensures EndsWith(r, Strip(query) + "\n")
  {
    var template := TemplateFor(category);
    PiecesOfFour(template, QueryHeader, Strip(query), "\n");
    template + QueryHeader + Strip(query) + "\n"
  }

  /** Validates the query, classifies it, and assembles the prompt from the
      category's template and the trimmed query. */
  method GeneratePrompt(userQuery: string) returns (r: Result<(string, QueryCategory), PromptError>)
    ensures r.Failure? <==> IsBlank(userQuery)
    ensures r.Failure? ==> r.error == ValueError(EmptyQueryMessage)
    ensures r.Success? ==> r.value.1 == Classify(userQuery) && r.value.0 == BuildPrompt(userQuery, r.value.1)
  {
    if |userQuery| == 0 || |Strip(userQuery)| == 0 {
      return Failure(ValueError(EmptyQueryMessage));
    }
    var queryLower := Lower(userQuery);
    var category := ScanRules(queryLower);
    var baseTemplate := TemplateFor(category);
    var finalPrompt := baseTemplate + QueryHeader + Strip(userQuery) + "\n";
    return Success((finalPrompt, category));
  }

  /** Scans the rules in order and stops at the first keyword list with a
      hit in the lower-cased query; Unknown when none hits. */
  method ScanRules(queryLower: string) returns (category: QueryCategory)
    ensures category == FirstMatch(ClassificationRules, queryLower)
  {
    category := Unknown;
    var i := 0;
    while i < |ClassificationRules|
      invariant 0 <= i <= |ClassificationRules|
      invariant category == Unknown
      invariant FirstMatch(ClassificationRules[i..], queryLower) == FirstMatch(ClassificationRules, queryLower)
    {
      var (cat, keywords) := ClassificationRules[i];
      FirstMatchStep(ClassificationRules, i, queryLower);
      if AnyKeywordIn(keywords, queryLower) {
        category := cat;
        break;
      }
      i := i + 1;
    }
  }

  /** One step of the scan: the rules from `i` on give the category of rule
      `i` when it hits, and otherwise what the rules after it give. */
  lemma FirstMatchStep(rules: seq<(QueryCategory, seq<string>)>, i: nat, text: string)
    requires i < |rules|
    ensures FirstMatch(rules[i..], text) ==
      if AnyKeywordIn(rules[i].1, text) then rules[i].0 else FirstMatch(rules[i + 1..], text)
  {
    assert rules[i..][0] == rules[i];
    assert rules[i..][1..] == rules[i + 1..];
  }

  /** The rule at `i` is the first whose keywords hit `text`. */
  ghost predicate FirstHitAt(rules: seq<(QueryCategory, seq<string>)>, text: string, i: int) {
    && 0 <= i < |rules|
    && AnyKeywordIn(rules[i].1, text)
    && forall j :: 0 <= j < i ==> !AnyKeywordIn(rules[j].1, text)
  }

  /** The scan returns the category of the first rule with a hit. */
  lemma {:induction false} FirstMatchIsFirstHit(rules: seq<(QueryCategory, seq<string>)>, text: string, i: int)
    requires FirstHitAt(rules, text, i)
    ensures FirstMatch(rules, text) == rules[i].0
  {
    if i > 0 {
      assert !AnyKeywordIn(rules[0].1, text);
      assert FirstHitAt(rules[1..], text, i - 1) by {
        forall j | 0 <= j < i - 1 ensures !AnyKeywordIn(rules[1..][j].1, text) {
          assert rules[1..][j] == rules[j + 1];
        }
      }
      FirstMatchIsFirstHit(rules[1..], text, i - 1);
    }
  }

  /** With no hit in any rule the scan returns Unknown, and when no rule is
      for Unknown that is the only way to get Unknown. */
  lemma {:induction false} FirstMatchUnknown(rules: seq<(QueryCategory, seq<string>)>, text: string)
    requires forall j :: 0 <= j < |rules| ==> rules[j].0 != Unknown
    ensures FirstMatch(rules, text) == Unknown <==> forall j :: 0 <= j < |rules| ==> !AnyKeywordIn(rules[j].1, text)
  {
    if rules != [] {
      FirstMatchUnknown(rules[1..], text);
      assert forall j :: 0 < j < |rules| ==> rules[j] == rules[1..][j - 1];
    }
  }

  /** The classification with its priority order written out: a query is
      Technical when a technical keyword occurs in its lower-cased form,
      Troubleshooting when a troubleshooting keyword does and no technical
      one, General when only general keywords occur, and Unknown when no
      keyword of any list occurs. */
  lemma ClassifyByPriority(query: string)
    ensures var text := Lower(query);
      && (Classify(query) == Technical <==> AnyKeywordIn(TechnicalKeywords, text))
      && (Classify(query) == Troubleshooting <==>
            !AnyKeywordIn(TechnicalKeywords, text) && AnyKeywordIn(TroubleshootingKeywords, text))
      && (Classify(query) == General <==>
            !AnyKeywordIn(TechnicalKeywords, text) && !AnyKeywordIn(TroubleshootingKeywords, text)
            && AnyKeywordIn(GeneralKeywords, text))
      && (Classify(query) == Unknown <==>
            !AnyKeywordIn(TechnicalKeywords, text) && !AnyKeywordIn(TroubleshootingKeywords, text)
            && !AnyKeywordIn(GeneralKeywords, text))
  {
    var text := Lower(query);
    var rules := ClassificationRules;
    FirstMatchUnknown(rules, text);
    if AnyKeywordIn(TechnicalKeywords, text) {
      FirstMatchIsFirstHit(rules, text, 0);
    } else if AnyKeywordIn(TroubleshootingKeywords, text) {
      FirstMatchIsFirstHit(rules, text, 1);
    } else if AnyKeywordIn(GeneralKeywords, text) {
      FirstMatchIsFirstHit(rules, text, 2);
    }
  }

  /** A query that hits both a technical and a troubleshooting keyword is Technical. */
  lemma TechnicalWinsTies(query: string)
    requires Contains(Lower(query), "how do i") && Contains(Lower(query), "error")
    ensures Classify(query) == Technical
  {

  }

  /** Case does not matter: a query and its lower-cased form get the same category. */
  lemma ClassifyIgnoresCase(query: string)
    ensures Classify(Lower(query)) == Classify(query)
  {
    LowerIdempotent(query);
  }

  /** Matching is plain substring search: "fix" inside "prefix" selects Troubleshooting. */
  lemma KeywordInsideWord()
    ensures Classify("PREFIX") == Troubleshooting
  {
    UpperPrefixLowered();
    PrefixHitsFix();
    PrefixMissesTechnicalKeywords();
    ClassifyByPriority("PREFIX");
  }

  lemma UpperPrefixLowered()
    ensures Lower("PREFIX") == "prefix"
  {
  }

  lemma PrefixHitsFix()
    ensures AnyKeywordIn(TroubleshootingKeywords, "prefix")
  {
    assert OccursAt("prefix", "fix", 3);
    ContainsAt("prefix", "fix", 3);
    assert "fix" in TroubleshootingKeywords;
  }

  lemma PrefixMissesTechnicalKeywords()
    ensures !AnyKeywordIn(TechnicalKeywords, "prefix")
  {
    var text := "prefix";
    assert !Contains(text, "build") by {
      assert text[..5][0] != "build"[0];
      assert text[1..][..5][0] != "build"[0];
    }
    forall k | k in TechnicalKeywords && k != "build" ensures !Contains(text, k) {
    }
  }

  /** Every category has a template, so the fallback of the lookup never applies. */
  lemma TemplatesCoverEveryCategory(category: QueryCategory)
    ensures category in Templates
  {
    match category
    case Technical =>
    case Troubleshooting =>
    case General =>
    case Unknown =>
  }
}
