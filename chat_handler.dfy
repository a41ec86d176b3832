/**
 * handlers/chat_handler.py: a message in chat mode is a question. It is
 * stored in the chat collection, the three collections are searched for
 * context, and the model's answer is sent. The completion service, the
 * vector search, the `uuid4` id, the clock and a database failure are the
 * caller's.
 */
module ChatMessages {
  import opened Wrappers
  import opened Documents
  import opened Messages
  import Database
  import Claude

  const ThinkingText := "\U{1F50D} Let me think about that..."

  function UnderstoodQuestionText(query: string): string {
    "I understood your question as: \"" + query + "\""
  }

  /** The metadata the handler hands to `store_entry`: the user, the source and the time. */
  function QueryMetadata(userId: int, now: string): Metadata {
    Metadata(None, Some(now), None, map["user_id" := Num(userId), "source" := Str("chat_interaction")])
  }

  /**
   * `thoughts_context + game_context + chat_context`: what `search_similar`
   * (`similar`, the store's vector search) finds for the query in each
   * collection, in that order.
   */
  function Context(query: string, similar: (Database.Collection, string) -> seq<Doc>): (r: seq<Doc>)
    ensures forall e | e in similar(Database.Thoughts, query) :: e in r
    ensures forall e | e in similar(Database.Game, query) :: e in r
    ensures forall e | e in similar(Database.Chat, query) :: e in r
    ensures forall e | e in r ::
      e in similar(Database.Thoughts, query) || e in similar(Database.Game, query) || e in similar(Database.Chat, query)
  {
    similar(Database.Thoughts, query) + similar(Database.Game, query) + similar(Database.Chat, query)
  }

  /** The answer sent: the model's reply under the system prompt built from the context, or the fixed apology. */
  function Response(query: string, similar: (Database.Collection, string) -> seq<Doc>,
                    complete: (string, string) -> Option<string>): string {
    complete(Claude.SystemPrompt(query, Claude.ContextTexts(Context(query, similar))), query).GetOr(Claude.ErrorReply)
  }

  /**
   * The store after a chat-mode message: a usable question is stored in the
   * chat collection, without categories; anything else stores nothing.
   */
  function CollectionsAfter(collections: map<Database.Collection, map<string, Doc>>, userId: int, message: Message,
                            entryId: string, now: string, fault: bool)
    : (r: map<Database.Collection, map<string, Doc>>)
    requires Database.Chat in collections
    ensures r.Keys == collections.Keys
    ensures forall c | c in collections && c != Database.Chat :: r[c] == collections[c]
    ensures !SelectInput(message).Answer? ==> r == collections
  {
    var input := SelectInput(message);
    if input.Answer? then
      Database.AfterStore(collections, Database.Chat, input.text, Some(QueryMetadata(userId, now)), None, entryId, now, fault)
    else collections
  }

  /** A voice note's transcription is read back before the question is answered. */
  function Announcement(message: Message, query: string): (r: seq<string>)
    ensures |r| <= 2
  {
    if message.VoiceNote? then [TranscribingText, UnderstoodQuestionText(query)] else []
  }

  /** The replies to a chat-mode message. */
  function Replies(message: Message, similar: (Database.Collection, string) -> seq<Doc>,
                   complete: (string, string) -> Option<string>): (r: seq<string>)
    ensures !SelectInput(message).Answer? ==> r == UnusedReplies(SelectInput(message))
    ensures SelectInput(message).Answer? ==>
      |r| >= 2 && r[|r| - 2] == ThinkingText && r[|r| - 1] == Response(SelectInput(message).text, similar, complete)
  {
    var input := SelectInput(message);
    if !input.Answer? then UnusedReplies(input)
    else Announcement(message, input.text) + [ThinkingText, Response(input.text, similar, complete)]
  }

  /**
   * A usable question with no failure and a fresh id is stored under that
   * id, with its text and the chat source and without categories, whether
   * or not an answer can be found.
   */
  lemma QueryStored(collections: map<Database.Collection, map<string, Doc>>, userId: int, message: Message,
                    entryId: string, now: string, fault: bool)
    requires Database.Chat in collections
    requires SelectInput(message).Answer? && !fault && entryId !in collections[Database.Chat]
    ensures var query := SelectInput(message).text;
      var r := CollectionsAfter(collections, userId, message, entryId, now, fault)[Database.Chat];
      && entryId in r
      && r[entryId].text == Some(query)
      && MetadataText(r[entryId]) == Some(query)
      && MetadataCategories(r[entryId]) == None
      && r[entryId].metadata.value.extra["source"] == Str("chat_interaction")
  {
  }

  /** When no collection yields any text or categories, the question is put to the model under the generic prompt. */
  lemma EmptyContextIsGeneric(query: string, similar: (Database.Collection, string) -> seq<Doc>,
                              complete: (string, string) -> Option<string>)
    requires forall e | e in Context(query, similar) :: Claude.EntryCategories(e) == [] && Claude.EntryText(e) == ""
    ensures Response(query, similar, complete) == complete(Claude.GenericPrompt, query).GetOr(Claude.ErrorReply)
  {
    Claude.ContextTextsEmpty(Context(query, similar));
  }

  /** `ChatHandler`, over the store. */
  class ChatHandler {
    const db: Database.DatabaseService

    ghost predicate Valid()
      reads this, db
    {
      db.Valid()
    }

    constructor (db: Database.DatabaseService)
      requires db.Valid()
      ensures Valid() && this.db == db
    {
      this.db := db;
    }

    /** Storing the question a usable message carries, then searching and answering it. */
    method AnswerQuery(userId: int, message: Message, similar: (Database.Collection, string) -> seq<Doc>,
                       complete: (string, string) -> Option<string>, entryId: string, now: string, fault: bool)
      returns (replies: seq<string>)
      requires Valid() && SelectInput(message).Answer?
      modifies db
      ensures Valid()
      ensures db.collections == CollectionsAfter(old(db.collections), userId, message, entryId, now, fault)
      ensures replies == Replies(message, similar, complete)
    {
      var query := SelectInput(message).text;
      replies := Announcement(message, query);
      var metadata := QueryMetadata(userId, now);
      var _ := db.StoreEntry(Database.ChatCollectionName, query, Some(metadata), None, entryId, now, fault);
      replies := replies + [ThinkingText];
      var allContext := similar(Database.Thoughts, query) + similar(Database.Game, query) + similar(Database.Chat, query);
      var response := Claude.GenerateResponse(query, allContext, complete);
      replies := replies + [response];
    }

    /**
     * `handle_message` in chat mode: the replies sent, in order, and whether
     * it raised (only a voice note that cannot be fetched does).
     */
    method HandleMessage(userId: int, message: Message, similar: (Database.Collection, string) -> seq<Doc>,
                         complete: (string, string) -> Option<string>, entryId: string, now: string, fault: bool)
      returns (replies: seq<string>, raised: bool)
      requires Valid()
      modifies db
      ensures Valid()
      ensures raised <==> message.UnfetchedVoiceNote?
      ensures db.collections == CollectionsAfter(old(db.collections), userId, message, entryId, now, fault)
      ensures replies == Replies(message, similar, complete)
    {
      var input := SelectInput(message);
      if !input.Answer? {
        // an unusable voice note is apologised for, one that cannot be fetched raises, anything else is ignored
        return UnusedReplies(input), input.DownloadFailed?;
      }
      replies := AnswerQuery(userId, message, similar, complete, entryId, now, fault);
      raised := false;
    }
  }
}
