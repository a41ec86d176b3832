/**
 * handlers/normal_handler.py: a message in normal mode is a thought. It is
 * classified, stored in the thoughts collection with its categories, and
 * confirmed. The completion service behind the classifier, the `uuid4` id,
 * the clock and a database failure are the caller's.
 */
module NormalMessages {
  import opened Wrappers
  import opened Text
  import opened Documents
  import opened Messages
  import Database
  import Classification

  const StoredThoughtTail := " You can find it later using /list or chat with me about it using /chat."
  const NotStoredText := "Sorry, I couldn't store your thought. Please try again."

  /** `category_info`: the categories on a line of their own, or nothing when there are none. */
  function CategoryInfo(categories: seq<string>): (r: string)
    ensures categories == [] <==> r == ""
  {
    if categories != [] then "\nCategories: " + Join(", ", categories) else ""
  }

  /** The confirmation for a stored voice note, quoting the transcription. */
  function StoredVoiceText(categories: seq<string>, text: string): string {
    "\U{2705} I've transcribed and stored your thought:" + CategoryInfo(categories) + "\n\n\"" + text + "\"\n\n"
      + "You can find it later using /list or chat with me about it using /chat."
  }

  /** The confirmation for a stored text. */
  function StoredTextText(categories: seq<string>): string {
    "\U{2705} I've stored your thought." + CategoryInfo(categories) + StoredThoughtTail
  }

  /** The metadata the handler hands to `store_entry`: the user, where the thought came from, and the time. */
  function ThoughtMetadata(userId: int, voice: bool, now: string): Metadata {
    Metadata(None, Some(now), None,
      map["user_id" := Num(userId), "source" := Str(if voice then "voice_note" else "text_message")])
  }

  /** Whether `store_entry` returns a truthy id: it inserts, and the id is not empty. */
  predicate StoreConfirmed(thoughts: map<string, Doc>, entryId: string, fault: bool) {
    !fault && entryId !in thoughts && entryId != ""
  }

  /**
   * The store after a normal-mode message: a usable message is stored in
   * the thoughts collection with the categories the classifier found;
   * anything else stores nothing.
   */
  function CollectionsAfter(collections: map<Database.Collection, map<string, Doc>>, userId: int, message: Message,
                            complete: (string, string) -> Option<string>, entryId: string, now: string, fault: bool)
    : (r: map<Database.Collection, map<string, Doc>>)
    requires Database.Thoughts in collections
    ensures r.Keys == collections.Keys
    ensures forall c | c in collections && c != Database.Thoughts :: r[c] == collections[c]
    ensures !SelectInput(message).Answer? ==> r == collections
  {
    var input := SelectInput(message);
    if input.Answer? then
      var categories := Classification.Classified(input.text, complete);
      Database.AfterStore(collections, Database.Thoughts, input.text, Some(ThoughtMetadata(userId, message.VoiceNote?, now)),
                          Some(categories), entryId, now, fault)
    else collections
  }

  /** The confirmation for a stored thought: a voice note's quotes the transcription. */
  function Confirmation(voice: bool, categories: seq<string>, text: string): string {
    if voice then StoredVoiceText(categories, text) else StoredTextText(categories)
  }

  /** The reply that says whether the thought was stored. */
  function Outcome(confirmed: bool, voice: bool, categories: seq<string>, text: string): string {
    if confirmed then Confirmation(voice, categories, text) else NotStoredText
  }

  /** A voice note is announced before it is transcribed. */
  function Announcement(message: Message): (r: seq<string>)
    ensures |r| <= 1
  {
    if message.VoiceNote? then [TranscribingText] else []
  }

  /** The replies to a normal-mode message, `thoughts` being the collection before it. */
  function Replies(thoughts: map<string, Doc>, message: Message, complete: (string, string) -> Option<string>,
                   entryId: string, fault: bool): (r: seq<string>)
    ensures !SelectInput(message).Answer? ==> r == UnusedReplies(SelectInput(message))
    ensures SelectInput(message).Answer? && !StoreConfirmed(thoughts, entryId, fault) ==>
      r == Announcement(message) + [NotStoredText]
  {
    var input := SelectInput(message);
    if !input.Answer? then UnusedReplies(input)
    else Announcement(message) + [Outcome(StoreConfirmed(thoughts, entryId, fault), message.VoiceNote?,
                                          Classification.Classified(input.text, complete), input.text)]
  }

  /**
   * A usable thought with no failure and a fresh id is stored under that id
   * with its text, its source and the categories found (when there are any);
   * the confirmation names the categories.
   */
  lemma ThoughtStored(collections: map<Database.Collection, map<string, Doc>>, userId: int, message: Message,
                      complete: (string, string) -> Option<string>, entryId: string, now: string, fault: bool)
    requires Database.Thoughts in collections
    requires SelectInput(message).Answer? && !fault && entryId !in collections[Database.Thoughts]
    ensures var text := SelectInput(message).text;
      var categories := Classification.Classified(text, complete);
      var r := CollectionsAfter(collections, userId, message, complete, entryId, now, fault)[Database.Thoughts];
      && entryId in r
      && r[entryId].text == Some(text)
      && MetadataText(r[entryId]) == Some(text)
      && MetadataCategories(r[entryId]) == (if categories != [] then Some(categories) else None)
      && r[entryId].metadata.value.extra["source"] == Str(if message.VoiceNote? then "voice_note" else "text_message")
  {
    var text := SelectInput(message).text;
    var metadata := ThoughtMetadata(userId, message.VoiceNote?, now);
    var categories := Classification.Classified(text, complete);
    var r := Database.AfterStore(collections, Database.Thoughts, text, Some(metadata), Some(categories), entryId, now, fault);
    assert CollectionsAfter(collections, userId, message, complete, entryId, now, fault) == r;
    assert r[Database.Thoughts][entryId] == Database.NewDocument(entryId, text, Database.ShapeMetadata(Some(metadata), text, now, Some(categories)));
  }

  /** `NormalHandler`, over the store. */
  class NormalHandler {
    const db: Database.DatabaseService

    ghost predicate Valid()
      reads this, db
    {
      db.Valid()
    }

    constructor (db: Database.DatabaseService)
      requires db.Valid()
      ensures Valid() && this.db == db
    {
      this.db := db;
    }

    /** Classifying and storing the thought a usable message carries, and the reply that says whether it was stored. */
    method StoreThought(userId: int, message: Message, complete: (string, string) -> Option<string>,
                        entryId: string, now: string, fault: bool)
      returns (reply: string)
      requires Valid() && SelectInput(message).Answer?
      modifies db
      ensures Valid()
      ensures db.collections == CollectionsAfter(old(db.collections), userId, message, complete, entryId, now, fault)
      ensures reply == Outcome(StoreConfirmed(old(db.collections)[Database.Thoughts], entryId, fault), message.VoiceNote?,
                               Classification.Classified(SelectInput(message).text, complete), SelectInput(message).text)
    {
      var text := SelectInput(message).text;
      var categories := Classification.ClassifyText(text, complete);
      var metadata := ThoughtMetadata(userId, message.VoiceNote?, now);
      var id := db.StoreEntry(Database.ThoughtsCollectionName, text, Some(metadata), Some(categories), entryId, now, fault);
      reply := Outcome(id.Some? && id.value != "", message.VoiceNote?, categories, text);
    }

    /**
     * `handle_message` in normal mode: the replies sent, in order, and
     * whether it raised (only a voice note that cannot be fetched does).
     */
    method HandleMessage(userId: int, message: Message, complete: (string, string) -> Option<string>,
                         entryId: string, now: string, fault: bool)
      returns (replies: seq<string>, raised: bool)
      requires Valid()
      modifies db
      ensures Valid()
      ensures raised <==> message.UnfetchedVoiceNote?
      ensures db.collections == CollectionsAfter(old(db.collections), userId, message, complete, entryId, now, fault)
      ensures replies == Replies(old(db.collections)[Database.Thoughts], message, complete, entryId, fault)
    {
      var input := SelectInput(message);
      if !input.Answer? {
        // an unusable voice note is apologised for, one that cannot be fetched raises, anything else is ignored
        return UnusedReplies(input), input.DownloadFailed?;
      }
      replies, raised := Announcement(message), false;
      var reply := StoreThought(userId, message, complete, entryId, now, fault);
      replies := replies + [reply];
    }
  }
}
