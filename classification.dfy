/**
 * classification_service.py: tagging a thought with the fixed categories by
 * reading the language model's reply. The completion service is a parameter
 * `complete(system, user)`, whose `None` stands for any exception raised
 * while asking it or reading its reply.
 *
 * Note: `classify_text` awaits `client.messages.create`, which claude_service.py
 * calls synchronously elsewhere; if the client is synchronous, every call
 * raises and takes the `None` path below.
 */
module Classification {
  import opened Wrappers
  import opened Text

  /** `ClassificationService.CATEGORIES` */
  const Categories: seq<string> := ["work", "health", "relationships", "purpose"]

  const ClassifierSystemPrompt :=
    "You are a classifier that categorizes personal thoughts and reflections into these categories:\n"
    + "- Work: Professional activities, career, business, productivity, skills, financial matters\n"
    + "- Health: Physical and mental wellbeing, exercise, nutrition, sleep, stress, mindfulness\n"
    + "- Relationships: Connections with family, friends, partners, social interactions\n"
    + "- Purpose: Meaning, values, beliefs, goals, personal growth, impact\n\n"
    + "A text can belong to multiple categories if it touches on multiple domains. "
    + "Analyze the content carefully and assign all relevant categories."

  /** The request that carries the text to classify. */
  function ClassifierUserPrompt(text: string): string {
    "Classify this text into one or more of these categories: work, health, relationships, purpose.\n\n"
    + "Text: \"" + text + "\"\n\n"
    + "Respond with just a comma-separated list of the applicable categories, like: category1, category2"
  }

  /** `a` is `b` with some elements left out, order kept. */
  ghost predicate IsSubsequence(a: seq<string>, b: seq<string>)
    decreases |b|
  {
    a == [] || (b != [] && if a[0] == b[0] then IsSubsequence(a[1..], b[1..]) else IsSubsequence(a, b[1..]))
  }

  /** The elements of `categories` that occur in `text`, in order. */
  function Matching(categories: seq<string>, text: string): (r: seq<string>)
    ensures |r| <= |categories|
    ensures forall c | c in r :: c in categories && Contains(text, c)
    ensures forall c | c in categories && Contains(text, c) :: c in r
  {
    if categories == [] then []
    else (if Contains(text, categories[0]) then [categories[0]] else []) + Matching(categories[1..], text)
  }

  /** The loop's step: looking at one more category appends it or nothing. */
  lemma {:induction false} MatchingSnoc(categories: seq<string>, c: string, text: string)
    ensures Matching(categories + [c], text) == Matching(categories, text) + (if Contains(text, c) then [c] else [])
    decreases |categories|
  {
    if categories != [] {
      assert (categories + [c])[1..] == categories[1..] + [c];
      MatchingSnoc(categories[1..], c, text);
    }
  }

  /** From a list without duplicates, matching keeps the order and adds no duplicate. */
  lemma {:induction false} MatchingOrdered(categories: seq<string>, text: string)
    requires Distinct(categories)
    ensures IsSubsequence(Matching(categories, text), categories)
    ensures Distinct(Matching(categories, text))
    decreases |categories|
  {
    if categories != [] {
      var rest := Matching(categories[1..], text);
      assert Distinct(categories[1..]);
      MatchingOrdered(categories[1..], text);
      assert categories[0] !in rest by {
        assert categories[0] !in categories[1..];
      }
      if !Contains(text, categories[0]) {
        assert Matching(categories, text) == rest;
        assert rest == [] || rest[0] != categories[0];
      } else {
        var r := Matching(categories, text);
        assert r == [categories[0]] + rest;
        assert r[1..] == rest;
      }
    }
  }

  /** The extraction loop over `categories`: keep each one, in order, that occurs in `text`. */
  method SelectOccurring(categories: seq<string>, text: string) returns (extracted: seq<string>)
    ensures extracted == Matching(categories, text)
  {
    extracted := [];
    for i := 0 to |categories|
      invariant extracted == Matching(categories[..i], text)
    {
      if Contains(text, categories[i]) {
        extracted := extracted + [categories[i]];
      }
      assert categories[..i + 1] == categories[..i] + [categories[i]];
      MatchingSnoc(categories[..i], categories[i], text);
    }
    assert categories[..|categories|] == categories;
  }

  /** The reply is stripped and lower-cased before the categories are looked for. */
  method ExtractCategories(reply: string) returns (extracted: seq<string>)
    ensures extracted == Matching(Categories, Lower(Strip(reply)))
  {
    var text := Lower(Strip(reply));
    extracted := SelectOccurring(Categories, text);
  }

  /** The categories `classify_text` returns: none when the request fails, otherwise those the reply names. */
  function Classified(text: string, complete: (string, string) -> Option<string>): (categories: seq<string>)
    ensures forall c | c in categories :: c in Categories
  {
    var reply := complete(ClassifierSystemPrompt, ClassifierUserPrompt(text));
    if reply.None? then [] else Matching(Categories, Lower(Strip(reply.value)))
  }

  /**
   * A failed request gives no category; otherwise a category is given iff
   * it occurs, case-insensitively and without word boundaries, in the
   * reply. The result is an ordered, duplicate-free subsequence of the four
   * categories.
   */
  lemma ClassifiedCategories(text: string, complete: (string, string) -> Option<string>)
    ensures var reply := complete(ClassifierSystemPrompt, ClassifierUserPrompt(text));
      && (reply.None? ==> Classified(text, complete) == [])
      && (reply.Some? ==> forall c :: c in Classified(text, complete) <==> c in Categories && Contains(Lower(Strip(reply.value)), c))
    ensures IsSubsequence(Classified(text, complete), Categories) && Distinct(Classified(text, complete))
    ensures |Classified(text, complete)| <= |Categories|
  {
    var reply := complete(ClassifierSystemPrompt, ClassifierUserPrompt(text));
    if reply.Some? {
      MatchingOrdered(Categories, Lower(Strip(reply.value)));
    }
  }

  /**
   * `classify_text`: the categories the model's reply names, case-insensitively
   * and without word boundaries, or `[]` when asking the model failed.
   */
  method ClassifyText(text: string, complete: (string, string) -> Option<string>) returns (categories: seq<string>)
    ensures categories == Classified(text, complete)
  {
    var reply := complete(ClassifierSystemPrompt, ClassifierUserPrompt(text));
    if reply.None? {
      return [];
    }
    categories := ExtractCategories(reply.value);
  }
}
