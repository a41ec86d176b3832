/**
 * claude_service.py: building the retrieval-augmented system prompt and the
 * fall-backs around the two completion requests. The completion service is a
 * parameter `complete(system, user)`, whose `None` stands for any exception
 * raised while asking it or reading its reply.
 */
module Claude {
  import opened Wrappers
  import opened Text
  import opened Documents

  const ErrorReply := "I'm sorry, I encountered an error while processing your question. Please try again."

  /** The question `generate_game_question` falls back to; it is also the first built-in game question. */
  const FixedGameQuestion := "What's something that you've changed your mind about recently, and why?"

  const ContextPromptIntro :=
    "You are a personal AI assistant that knows the user well based on their past thoughts and interactions. "
    + "You should answer questions thoughtfully based on what you know about them. "
    + "If asked about the user's preferences, personality, or habits, rely on the context provided to give accurate, "
    + "personalized responses. When you don't have enough information, acknowledge the limitations in your knowledge "
    + "rather than making assumptions. Be conversational, supportive, and insightful.\n\n"

  const ContextPromptOutro := "Remember to focus on the context above when answering questions about the user."

  const CategoryAwareness :=
    "Note that thoughts are categorized into: work, health, relationships, and purpose. "
    + "If the user is asking about a specific category, focus on entries from that category."

  const GenericPrompt :=
    "You are a personal AI assistant. You don't have specific information about the user yet, "
    + "but you're here to help. Be conversational, supportive, and thoughtful in your responses."

  const GameSystemPrompt :=
    "You are generating questions for a 'get to know you' game. "
    + "Create thoughtful, open-ended questions that help understand a person's values, "
    + "perspectives, habits, preferences, and personality. "
    + "Questions should be introspective and reveal meaningful insights about the person. "
    + "Avoid basic questions like 'what's your favorite color?' and instead ask deeper questions "
    + "that encourage reflection and thoughtful responses."

  const GameUserPrompt :=
    "Generate a single insightful question for getting to know someone better. "
    + "Focus on understanding how they think, what they value, and what shapes their worldview. "
    + "Make it open-ended and introspective."

  /** The words of a query that trigger the category note. */
  const CategoryKeywords: seq<string> := ["work", "health", "relationship", "purpose"]

  /** The text of a context entry: `document.text`, else `text`, else `metadata.text`, else `""`. */
  function EntryText(e: Doc): (t: string)
    ensures e.documentText.Some? ==> t == e.documentText.value
    ensures e.documentText.None? && e.text.Some? ==> t == e.text.value
    ensures e.documentText.None? && e.text.None? ==> t == MetadataText(e).GetOr("")
  {
    if e.documentText.Some? then e.documentText.value
    else if e.text.Some? then e.text.value
    else MetadataText(e).GetOr("")
  }

  /** The entry's `metadata.categories`, or `[]` when there is none. */
  function EntryCategories(e: Doc): seq<string> {
    MetadataCategories(e).GetOr([])
  }

  /** One context line: `[Categories: a, b] text` when the entry has categories, else just its text. */
  function FormatEntry(e: Doc): (f: string)
    ensures f == "" <==> EntryCategories(e) == [] && EntryText(e) == ""
    ensures EntryCategories(e) == [] ==> f == EntryText(e)
    ensures EntryCategories(e) != [] ==> StartsWith(f, "[Categories: ") && |f| >= |EntryText(e)| && f[|f| - |EntryText(e)|..] == EntryText(e)
  {
    var cats := EntryCategories(e);
    if cats != [] then "[Categories: " + Join(", ", cats) + "] " + EntryText(e) else EntryText(e)
  }

  /** The non-empty formatted entries, in input order. */
  function ContextTexts(entries: seq<Doc>): (r: seq<string>)
    ensures |r| <= |entries|
    ensures forall t | t in r :: t != ""
    ensures forall t | t in r :: exists e | e in entries :: t == FormatEntry(e)
  {
    if entries == [] then []
    else
      var f := FormatEntry(entries[|entries| - 1]);
      ContextTexts(entries[..|entries| - 1]) + (if f != "" then [f] else [])
  }

  /** Every entry with a non-empty line contributes that line. */
  lemma {:induction false} EntryInContext(entries: seq<Doc>, i: nat)
    requires i < |entries| && FormatEntry(entries[i]) != ""
    ensures FormatEntry(entries[i]) in ContextTexts(entries)
    decreases |entries|
  {
    if i < |entries| - 1 {
      EntryInContext(entries[..|entries| - 1], i);
    }
  }

  /** The lines keep the order of the entries: the context of a concatenation is the concatenation of the contexts. */
  lemma {:induction false} ContextTextsAppend(a: seq<Doc>, b: seq<Doc>)
    ensures ContextTexts(a + b) == ContextTexts(a) + ContextTexts(b)
    decreases |b|
  {
    if b == [] {
      assert a + b == a;
    } else {
      var init := b[..|b| - 1];
      assert (a + b)[..|a + b| - 1] == a + init;
      ContextTextsAppend(a, init);
    }
  }

  /** Every category named in some entry's metadata. */
  function MentionedCategories(entries: seq<Doc>): set<string> {
    if entries == [] then {}
    else
      var cats := EntryCategories(entries[|entries| - 1]);
      MentionedCategories(entries[..|entries| - 1]) + (set c | c in cats)
  }

  /** The context is empty exactly when no entry has text or categories. */
  lemma {:induction false} ContextTextsEmpty(entries: seq<Doc>)
    ensures ContextTexts(entries) == [] <==> forall e | e in entries :: EntryCategories(e) == [] && EntryText(e) == ""
    decreases |entries|
  {
    if entries != [] {
      var init := entries[..|entries| - 1];
      ContextTextsEmpty(init);
      assert forall e | e in entries :: e in init || e == entries[|entries| - 1];
      assert forall e | e in init :: e in entries;
    }
  }

  /** The loop of `generate_response` that collects the context and the categories it mentions. */
  method CollectContext(entries: seq<Doc>) returns (contextTexts: seq<string>, mentioned: set<string>)
    ensures contextTexts == ContextTexts(entries)
    ensures mentioned == MentionedCategories(entries)
  {
    contextTexts, mentioned := [], {};
    for i := 0 to |entries|
      invariant contextTexts == ContextTexts(entries[..i])
      invariant mentioned == MentionedCategories(entries[..i])
    {
      var entry := entries[i];
      var categories := EntryCategories(entry);
      mentioned := mentioned + set c | c in categories;
      var formatted := FormatEntry(entry);
      if formatted != "" {
        contextTexts := contextTexts + [formatted];
      }
      assert entries[..i + 1][..i] == entries[..i];
    }
    assert entries[..|entries|] == entries;
  }

  /** The lower-cased query contains one of "work", "health", "relationship", "purpose". */
  predicate MentionsCategory(query: string) {
    exists k | k in CategoryKeywords :: Contains(Lower(query), k)
  }

  /** The heading in front of the joined context lines. */
  const ContextHeading := "Context about the user:\n"

  /**
   * The system prompt: the generic prompt without context; with context, the
   * context prompt, opening with the assistant's brief and closing with the
   * reminder to use the context.
   */
  function SystemPrompt(query: string, contextTexts: seq<string>): (p: string)
    ensures contextTexts == [] ==> p == GenericPrompt
    ensures contextTexts != [] ==> StartsWith(p, ContextPromptIntro)
    ensures contextTexts != [] ==> |p| >= |ContextPromptOutro| && p[|p| - |ContextPromptOutro|..] == ContextPromptOutro
  {
    if contextTexts == [] then GenericPrompt
    else
      var awareness := if MentionsCategory(query) then CategoryAwareness else "";
      ContextPromptIntro + awareness + "\n\n" + ContextHeading + Join("\n\n", contextTexts) + "\n\n" + ContextPromptOutro
  }

  /** What the lemmas below read off the context prompt's seven pieces. */
  lemma PromptPieces(a: string, b: string, c: string, d: string, e: string, f: string, g: string)
    ensures Contains(a + b + c + d + e + f + g, b)
    ensures Contains(a + b + c + d + e + f + g, e)
    ensures StartsWith(a + b + c + d + e + f + g, a + b + c + d)
  {
    var s := a + b + c + d + e + f + g;
    assert s == a + b + (c + d + e + f + g);
    ContainsInfix(a, b, c + d + e + f + g);
    assert s == (a + b + c + d) + e + (f + g);
    ContainsInfix(a + b + c + d, e, f + g);
    assert s[..|a + b + c + d|] == a + b + c + d;
  }

  /** A query naming a category keyword puts the category note into a context prompt. */
  lemma CategoryNoteWhenMentioned(query: string, contextTexts: seq<string>)
    requires contextTexts != [] && MentionsCategory(query)
    ensures Contains(SystemPrompt(query, contextTexts), CategoryAwareness)
  {
    PromptPieces(ContextPromptIntro, CategoryAwareness, "\n\n", ContextHeading, Join("\n\n", contextTexts), "\n\n", ContextPromptOutro);
  }

  /** Without a category keyword the note's slot is empty: the heading follows the brief and a blank line. */
  lemma NoCategoryNoteOtherwise(query: string, contextTexts: seq<string>)
    requires contextTexts != [] && !MentionsCategory(query)
    ensures StartsWith(SystemPrompt(query, contextTexts), ContextPromptIntro + "\n\n" + ContextHeading)
  {
    PromptPieces(ContextPromptIntro, "", "\n\n", ContextHeading, Join("\n\n", contextTexts), "\n\n", ContextPromptOutro);
    assert ContextPromptIntro + "" == ContextPromptIntro;
  }

  /** Every context line reaches the prompt, joined by blank lines in order. */
  lemma ContextInPrompt(query: string, contextTexts: seq<string>)
    requires contextTexts != []
    ensures Contains(SystemPrompt(query, contextTexts), Join("\n\n", contextTexts))
  {
    var awareness := if MentionsCategory(query) then CategoryAwareness else "";
    PromptPieces(ContextPromptIntro, awareness, "\n\n", ContextHeading, Join("\n\n", contextTexts), "\n\n", ContextPromptOutro);
  }

  /**
   * `generate_response`: the model's answer to the query under the system
   * prompt built from the entries, or the fixed apology when that fails.
   */
  method GenerateResponse(query: string, entries: seq<Doc>, complete: (string, string) -> Option<string>)
    returns (response: string)
    ensures response == complete(SystemPrompt(query, ContextTexts(entries)), query).GetOr(ErrorReply)
    ensures (forall e | e in entries :: EntryCategories(e) == [] && EntryText(e) == "") ==>
      response == complete(GenericPrompt, query).GetOr(ErrorReply)
  {
    var contextTexts, mentioned := CollectContext(entries);
    var systemPrompt := SystemPrompt(query, contextTexts);
    var reply := complete(systemPrompt, query);
    response := if reply.Some? then reply.value else ErrorReply;
    ContextTextsEmpty(entries);
  }

  /** `generate_game_question`: the stripped reply, or the fixed question when asking fails. */
  function GenerateGameQuestion(complete: (string, string) -> Option<string>): (q: string)
    ensures complete(GameSystemPrompt, GameUserPrompt).None? ==> q == FixedGameQuestion
    ensures complete(GameSystemPrompt, GameUserPrompt).Some? ==> q == Strip(complete(GameSystemPrompt, GameUserPrompt).value)
  {
    match complete(GameSystemPrompt, GameUserPrompt)
    case Some(reply) => Strip(reply)
    case None => FixedGameQuestion
  }
}
