# python-ragbot in Dafny

A model of the logic of a Telegram "personal reflection" bot. The bot stores a user's thoughts in a vector database and tags them with four fixed categories. It answers questions about the user from those thoughts, plays a five-question "get to know you" game, and lets the user list, filter and delete stored thoughts. What the bot decides for itself is modelled and proved here:

- the game engine (`GameService`): one game per user, the answer log, the end after the fifth answer, and the bounded retry loop that rejects repeated and near-repeated questions before it falls back to a built-in question;
- the per-user mode machine (normal, chat, game, delete), held in the shared tables `USER_STATE` and `USER_THOUGHTS`;
- the mode commands, the message router with its lazy initialisation and its apology for a raising handler, and the three mode handlers: normal mode classifies and stores a thought, chat mode stores a question and answers it from the retrieved context, and game mode answers the game and resets the mode when it ends;
- the `/delete` flow: the candidate map, the inline-keyboard layout, the callback-payload parser, and the delete, cancel and error transitions;
- the text shaping: category extraction from a model reply, the retrieval context and system prompt, display truncation, and category-argument validation;
- the store wrapper's own guards: the empty-text refusal, metadata shaping, the collection-name lookup, the page arithmetic, the reading of the delete result, and the conversion of every failure into `None`, `[]` or `False`.

The external services are parameters:

- The language model is a function `complete(system, user): Option<string>`. `None` stands for any exception.
- The question generator's successive results are a sequence of `Question(text) | Raised`.
- `random.choice` is a caller-supplied index, taken modulo the list's length.
- `uuid4` and the clock are caller-supplied values.
- A database failure is a `fault` flag.
- The order in which the store enumerates a collection is a `listing` sequence.
- An incoming message is a voice note with its transcription (an `Option<string>`), a voice note whose file could not be fetched, a text, or anything else.
- The store's vector search `search_similar` is a function `similar(collection, query)`.

The vector database is a map from collection to a map from `_id` to document.

Modules, file by file:

- `wrappers.dfy`: `Option`.
- `text.dfy`: the Python string operations used (`strip`, `lower`, `split`, `in`, `startswith`, `replace`, `join`, `str`, `int`).
- `documents.dfy`: the stored document shape.
- `database.dfy`: `DatabaseService`.
- `classification.dfy`, `claude.dfy`: the two model-facing services.
- `game.dfy`: `GameService`.
- `session.dfy`: the mode tables.
- `messages.dfy`: the incoming message and how every mode handler reads it.
- `commands.dfy`, `callbacks.dfy`, `normal_handler.dfy`, `chat_handler.dfy`, `game_handler.dfy`: the handlers.
- `router.dfy`: `HandlerManager.handle_message`.

## Model

| member | source | states |
|---|---|---|
| Database.CollectionByName | database.py:142-151 | a collection is found exactly for the three configured names, and the one found carries that name; any other name is the `ValueError` case |
| Database.CollectionByNameOfName | database.py:142-151 | every collection is found again under its own configured name |
| Database.ShapeMetadata | database.py:64-73 | `text` and `created_at` are always overwritten; `categories` is set only for a non-empty argument and otherwise keeps the caller's value; the caller's other keys are kept |
| Database.PageSkip | database.py:158-159 | the skip is never negative and page 1 skips nothing |
| Database.NextPageSkip | database.py:158-159 | each later page starts one page size after the previous one |
| Database.Window | database.py:161-165 | a find with skip and limit returns at most `limit` documents: the slice of the listing that starts at `skip`, or nothing past its end |
| Database.PagesTile | database.py:153-165 | consecutive pages neither skip nor repeat a document: pages 1..k together are exactly the first `k * page_size` documents of the listing |
| Database.WithCategory | database.py:112-115 | the `$in` filter keeps exactly the documents whose metadata categories hold the category |
| Database.DeleteSucceeded | database.py:131-136 | a delete result counts as success iff it is present, has `deletedCount`, and that count is positive |
| Database.AfterStore | database.py:52-88 | the store after `store_entry`: only the named collection changes and no stored document is lost; a document is added iff the text is non-empty, the store did not fail and the id is new, and it is then the shaped document under that id |
| Database.StoredIsListed | database.py:153-171 | every stored document appears in an enumeration of its collection |
| Database.ListsEmpty | database.py:153-171 | an enumeration is empty exactly when its collection is |
| Database.DatabaseService.StoreEntry | database.py:52-88 | empty text stores nothing and returns None; otherwise, for a known collection without a fault, the new document is inserted under the fresh id with the shaped metadata and that id is returned; every failure leaves the store unchanged; the new store is `AfterStore` of the old |
| Database.DatabaseService.DeleteEntry | database.py:124-140 | returns true iff the collection is known, the store did not fail and the id was present; exactly that document is then removed, and otherwise nothing changes |
| Database.DatabaseService.GetAllEntries | database.py:153-171 | an unknown collection or a failure gives `[]`; otherwise the result is the window at `(page - 1) * page_size` of length at most `page_size`, made of stored documents |
| Database.DatabaseService.SearchByCategory | database.py:107-122 | an unknown collection or a failure gives `[]`; otherwise the result is the first `limit` documents tagged with the category, each a stored document tagged with it; when fewer than `limit` come back, every stored document tagged with the category is among them |
| Classification.Matching | classification_service.py:69-72 | a category is kept iff it occurs in the text; no more categories come out than went in |
| Classification.MatchingOrdered | classification_service.py:69-72 | from the duplicate-free category list the result is a subsequence in the same order, with no duplicates |
| Classification.SelectOccurring | classification_service.py:69-72 | the extraction loop computes `Matching` |
| Classification.ExtractCategories | classification_service.py:66-72 | the reply is stripped and lower-cased before matching |
| Classification.Classified | classification_service.py:27-78 | every category returned is one of the four |
| Classification.ClassifiedCategories | classification_service.py:27-78 | a failed request gives `[]`; otherwise a category is in the result iff it occurs, case-insensitively and without word boundaries, in the reply; the result is always an ordered, duplicate-free subsequence of the four categories |
| Classification.ClassifyText | classification_service.py:27-78 | the request and the extraction compute `Classified` |
| Claude.FormatEntry | claude_service.py:31-52 | an entry without categories is its text; one with categories starts with `[Categories: ` and ends with its text; the line is empty iff both are empty |
| Claude.EntryText | claude_service.py:32-41 | `document.text` first, then the top-level `text`, then `metadata.text`, else the empty string |
| Claude.ContextTexts | claude_service.py:31-55 | only non-empty lines are kept, at most one per entry, and each is the formatted line of some entry |
| Claude.EntryInContext | claude_service.py:54-55 | every entry whose formatted line is non-empty contributes that line |
| Claude.ContextTextsAppend | claude_service.py:31-55 | the lines keep the entries' order: the context of a concatenation is the concatenation of the contexts |
| Claude.ContextTextsEmpty | claude_service.py:54-82 | the context is empty exactly when no entry has text or categories, which is when the generic prompt is chosen |
| Claude.CollectContext | claude_service.py:28-55 | the collection loop computes the context lines and the set of categories mentioned |
| Claude.SystemPrompt | claude_service.py:58-82 | without context, the generic prompt; with context, a prompt that opens with the assistant's brief and closes with the reminder to use the context |
| Claude.CategoryNoteWhenMentioned | claude_service.py:62-75 | with context, a query naming work, health, relationship or purpose puts the category note into the prompt |
| Claude.NoCategoryNoteOtherwise | claude_service.py:62-76 | with context and no keyword, the brief is followed directly by a blank line and the context heading |
| Claude.ContextInPrompt | claude_service.py:59-76 | with context, the lines joined by blank lines appear in the prompt |
| Claude.GenerateResponse | claude_service.py:15-102 | the reply is the model's answer under the prompt built from the entries, or the fixed apology when the request fails; entries with no text or categories give the generic prompt |
| Claude.GenerateGameQuestion | claude_service.py:104-143 | the stripped reply, or the fixed question when the request fails |
| Game.GeneratorFallbackIsFirstQuestion | game_service.py:17-18 | the generator's own fallback question is the first built-in question |
| Game.FallbackQuestionsPool | game_service.py:17-33 | the built-in questions are distinct and at least as many as a session asks |
| Game.Unasked | game_service.py:140-141 | exactly the fallback questions not yet asked |
| Game.FallbackChoice | game_service.py:139-147 | the choice is always a fallback question, and an unasked one whenever one is left |
| Game.SearchFrom | game_service.py:113-135 | an accepted candidate is not an asked question and shares at most 5 distinct words with every asked question; it is the result of some call before which every call returned a turned-down question; a failure is a raising call after turned-down ones; exhaustion means all three were turned down |
| Game.FirstDecidingCall | game_service.py:113-135 | conversely, the first call that does not return a turned-down question decides the loop: a raise fails it, an acceptable question is accepted |
| Game.AllRejectedExhausts | game_service.py:113-135 | three turned-down questions exhaust the loop |
| Game.NextOutcomeCases | game_service.py:112-164 | the next question is the first acceptable generated one when it is non-empty; a fallback choice is recorded when it is empty or all three were turned down, and sent unrecorded when a call raised first |
| Game.NextOutcome | game_service.py:112-164 | a raising generator yields a fallback choice that is not recorded; otherwise the next question is either an accepted, non-empty generated one or a fallback choice |
| Game.UnaskedNonEmpty | game_service.py:140-147 | fewer asked questions than distinct fallback questions leave one unasked |
| Game.NextQuestionIsNew | game_service.py:137-147 | within a session the next question is never one already asked, whatever the generator returns |
| Game.NextOutcomeReadsFirstAttempts | game_service.py:113-119 | only the first three generator results matter: at most three calls are made per answer |
| Game.AnswerStep | game_service.py:104-153 | one answer counts one more question; past five the game is over with the thank-you message; otherwise the reply is the next question, which on the normal path becomes the current question and is appended to the asked ones, and on the exception path is only sent |
| Game.AnswerStepPreserves | game_service.py:104-153 | each answer counts exactly one more question and keeps the game state valid; the game ends exactly on the answer to question 5, with the fixed thank-you message; the next question is new; on the normal path `len(asked_questions) == question_count` is kept |
| Game.GameLength | game_service.py:104-110 | a game at question n survives exactly 5 - n more answers, whatever the generator does |
| Game.SimilarToAny | game_service.py:125-130 | the scan reports a near-repeat iff some asked question shares more than 5 distinct words with the candidate |
| Game.ChooseNext | game_service.py:112-147 | the retry loop and the fallback after it compute `NextOutcome` |
| Game.StartQuestion | game_service.py:45-70 | the first question is the generated one, or a built-in question when the generator raised |
| Game.GameOverReplyIsMarked | game_service.py:107-110 | the reply to the final answer contains "Thank you for sharing!", and the user's game is removed exactly when the answer ends it |
| Game.AnswerReply | game_service.py:72-164 | an answer to question 5 gets the thank-you message; every reply is that message, a fallback question or one of the generated questions |
| Game.GamesAfterAnswer | game_service.py:72-164 | other users' games are untouched; a user without a game gets question 1 with that question as the only asked one; a user's game is dropped exactly when it was at question 5, and otherwise counts one more question |
| Game.CollectionsAfterAnswer | game_service.py:91-102 | only the game collection can change; nothing is stored without an active game, for an empty answer, or when the store fails |
| Game.StoredAnswerRecordsQuestion | game_service.py:88-102 | the stored answer is the answer text under the fresh id, tagged with the current question, its number before the increment and the user; nothing else in the game collection changes |
| Game.GameService.StartGame | game_service.py:35-70 | the user's game becomes question 1 with `asked_questions == [q]` and `current_question == q`, for the returned question `q` |
| Game.GameService.HandleAnswer | game_service.py:72-164 | without a game, the same as `start_game`, and nothing is stored; with a game, the reply, the new game table and the new store are those of `AnswerReply`, `GamesAfterAnswer` and `CollectionsAfterAnswer`, and every game stays valid |
| Session.ModeByName | handlers/__init__.py:8-11 | a stored state name is read back as the mode that has that name |
| Session.ModeNamesDistinct | handlers/__init__.py:8-11 | the four state names are distinct, so comparing names compares modes |
| Commands.Truncate | handlers/command_handler.py:121-122 | text of at most 100 characters is unchanged; longer text becomes its first 100 characters and "..." |
| Commands.TruncateBounds | handlers/command_handler.py:166-167 | a truncated text has at most 103 characters and keeps the original's start, and truncating twice is the same as truncating once |
| Commands.DisplayText | handlers/command_handler.py:116-118 | `metadata.text` when present, else the top-level `text`, else "" |
| Commands.StoredTextAgrees | handlers/command_handler.py:161-163 | for a document as the store writes it, the listing and the chat context both show the stored text |
| Commands.Line | handlers/command_handler.py:134 | a listing line starts with its number and a dot and ends with the truncated display text and a blank line |
| Commands.EveryThoughtListed | handlers/command_handler.py:113-134 | every fetched thought has its own numbered line in the listing |
| Commands.FormatThoughts | handlers/command_handler.py:158-174 | the listing loop computes the header followed by the numbered lines, in order |
| Commands.CandidateMap | handlers/command_handler.py:156 | the candidate map's keys are exactly 1..N, and key i holds the i-th fetched thought |
| Commands.Buttons | handlers/command_handler.py:179-183 | the numbered buttons come in order, each with its own `delete_<i>` payload |
| Commands.KeyboardLayout | handlers/command_handler.py:177-189 | the keyboard has ceil(N/3) + 1 rows; the numbered rows hold `delete_1..delete_N` in order, three to a row except perhaps the last; the final row holds only Cancel |
| Commands.BuildKeyboard | handlers/command_handler.py:176-189 | the keyboard loop computes that layout |
| Commands.CheckCategoryArg | handlers/command_handler.py:197-216 | no argument gives the usage text; the lower-cased argument is accepted iff it is one of the four categories |
| Commands.RecentThoughts | handlers/command_handler.py:102-107 | the first page holds the first ten listed thoughts, or none when the store fails |
| Commands.StoredThoughtShown | handlers/command_handler.py:102-107 | with a stored thought and no failure, the first page is not empty |
| Commands.TaggedThoughtShown | handlers/command_handler.py:218-226 | a stored thought tagged with the category means the category search has something to show |
| Commands.CommandHandler.StartCommand | handlers/command_handler.py:17-20 | the user's mode becomes normal and the candidate maps are unchanged |
| Commands.CommandHandler.ChatCommand | handlers/command_handler.py:66-69 | the user's mode becomes chat and the candidate maps are unchanged |
| Commands.CommandHandler.NormalCommand | handlers/command_handler.py:89-92 | the user's mode becomes normal and the candidate maps are unchanged |
| Commands.CommandHandler.GameCommand | handlers/command_handler.py:75-81 | the user's mode becomes game and a fresh game starts with the returned first question |
| Commands.CommandHandler.ListCommand | handlers/command_handler.py:98-136 | the first ten thoughts as numbered lines with date and categories, or the no-thoughts text; no table is written |
| Commands.CommandHandler.DeleteCommand | handlers/command_handler.py:138-193 | with no thoughts, the mode is normal and the candidate map is untouched; otherwise the mode is delete, the candidate map is `1..N`, and the listing and keyboard are built; a non-empty thoughts collection and no failure always end in delete mode |
| Commands.CommandHandler.CategoryCommand | handlers/command_handler.py:195-247 | usage without an argument; an invalid name gets an error and no search; otherwise the first ten tagged thoughts, or the no-thoughts text; no table is written |
| Callbacks.ParseCallbackData | handlers/callback_handler.py:23-33 | a payload without the `delete_` prefix is ignored; after every `delete_` is removed, "cancel" cancels, and an integer literal selects that number; anything else is the `ValueError` case |
| Callbacks.NumberButtonSelects | handlers/command_handler.py:183 | the payload of button i selects thought i |
| Callbacks.CancelButtonCancels | handlers/command_handler.py:189 | the Cancel button's payload cancels |
| Text.ParseIntOfNatToString | handlers/callback_handler.py:33 | `int(str(n)) == n` for every natural number |
| Callbacks.Decide | handlers/callback_handler.py:23-49 | a deletion happens iff the number is a key of the user's candidate map and that candidate has a non-empty `_id`, and it is of exactly that `_id`; cancel, a non-number and a missing candidate each reset with their own message |
| Callbacks.IntendedEffect | handlers/callback_handler.py:26-65 | every handled payload writes normal mode; the candidate map is dropped exactly when a deletion is attempted |
| Callbacks.AsWrittenEffect | handlers/callback_handler.py:51-69 | as written, a deletion attempt raises an exception that is not caught; every other payload has the intended effect |
| Callbacks.NoSelectionDeletesAsWritten | handlers/callback_handler.py:51-69 | as written, no payload ever deletes: each one that should delete raises instead |
| Callbacks.FirstButtonRaisesAsWritten | handlers/callback_handler.py:52-55 | button 1 after a `/delete` that listed one thought raises as written, but should delete that thought |
| Callbacks.CallbackHandler.HandleCallbackQuery | handlers/callback_handler.py:15-69 | the mode, the candidate maps and the store change exactly as `Decide` and `IntendedEffect` say; the success message appears iff the thought was stored and the store did not fail; the current mode is never consulted |
| Messages.SelectInput | handlers/game_handler.py:22-44 | a voice note with an empty or missing transcription is unusable; one whose file cannot be fetched fails; a text is an answer iff it is non-empty and not a command; anything else is ignored; the answer is the transcription or the text |
| Messages.UnusedReplies | handlers/game_handler.py:22-44 | a voice note is announced before anything else; an untranscribable one then gets the "couldn't transcribe" apology and nothing more; one whose file cannot be fetched gets only the announcement before the handler raises; an ignored message gets no reply |
| GameMessages.GameReplyText | handlers/game_handler.py:49-53 | a game-over reply is sent as it is; any other reply gets "Next question: " in front |
| GameMessages.StateAfterMessage | handlers/game_handler.py:47-51 | only the user's own mode can change, and it becomes normal exactly when an answer gets a reply with the game-over words |
| GameMessages.CollectionsAfter | handlers/game_handler.py:17-47 | only the game collection can change, and nothing changes unless the message is an answer |
| GameMessages.Replies | handlers/game_handler.py:22-54 | an unused message gets the unused-message replies; an answer's last reply is the game service's reply as sent, after the transcription read back for a voice note |
| GameMessages.FinalAnswerResetsMode | handlers/game_handler.py:49-51 | the answer to question 5 ends the game and sends the user back to normal mode |
| GameMessages.GameHandler.HandleMessage | handlers/game_handler.py:17-54 | only an answer reaches the game service, and the mode becomes normal only on a game-over reply; an unusable voice note gets an apology and changes nothing; a voice note whose file cannot be fetched raises after the first reply, before anything changes; the candidate maps are never touched |
| NormalMessages.CategoryInfo | handlers/normal_handler.py:62-64 | the category line is empty exactly when there are no categories |
| NormalMessages.CollectionsAfter | handlers/normal_handler.py:44-59 | only the thoughts collection can change, and nothing changes unless the message is usable |
| NormalMessages.Replies | handlers/normal_handler.py:28-104 | an unused message gets the unused-message replies; a usable one whose store is not confirmed gets "couldn't store" after the voice announcement |
| NormalMessages.ThoughtStored | handlers/normal_handler.py:44-92 | with no failure and a fresh id, the thought is stored under that id with its text, its categories when there are any, and its source, voice note or text message |
| NormalMessages.NormalHandler.StoreThought | handlers/normal_handler.py:44-104 | the classification, the store and the reply of a usable message are `CollectionsAfter` and the outcome reply |
| NormalMessages.NormalHandler.HandleMessage | handlers/normal_handler.py:18-104 | the store becomes `CollectionsAfter` and the replies are `Replies`; it raises exactly for a voice note whose file cannot be fetched |
| ChatMessages.Context | handlers/chat_handler.py:60-80 | the context holds exactly what the search finds in the thoughts, game and chat collections |
| ChatMessages.CollectionsAfter | handlers/chat_handler.py:44-55 | only the chat collection can change, and nothing changes unless the message is usable |
| ChatMessages.Replies | handlers/chat_handler.py:20-88 | an unused message gets the unused-message replies; a usable one ends with "Let me think about that..." and the model's answer under the prompt built from the context |
| ChatMessages.QueryStored | handlers/chat_handler.py:44-55 | with no failure and a fresh id, the question is stored under that id with its text, no categories and the chat source |
| ChatMessages.EmptyContextIsGeneric | handlers/chat_handler.py:80-88 | when no entry found has text or categories, the question is put to the model under the generic prompt |
| ChatMessages.ChatHandler.AnswerQuery | handlers/chat_handler.py:44-88 | the store and the replies of a usable question are `CollectionsAfter` and `Replies` |
| ChatMessages.ChatHandler.HandleMessage | handlers/chat_handler.py:15-88 | the store becomes `CollectionsAfter` and the replies are `Replies`; it raises exactly for a voice note whose file cannot be fetched |
| Router.ModeOf | handlers/__init__.py:87-91 | the user's stored mode, or normal for a user without one |
| Router.Apology | handlers/__init__.py:105-109 | an apology is added exactly when the handler raised, which only a voice note that cannot be fetched makes it do |
| Router.BranchForName | handlers/__init__.py:91-104 | the state name stored for a mode selects that mode's branch, and a name that is no mode's selects none |
| Router.BranchFor | handlers/__init__.py:93-104 | each mode dispatches to exactly one branch, and each branch serves exactly one mode |
| Router.HandlerManager.HandleMessage | handlers/__init__.py:83-109 | a user without a mode is first put in normal mode, and outside game mode that is the only mode write; normal mode stores into the thoughts collection and chat mode into the chat collection, each with its handler's replies; game mode changes the games, the store and the mode as the game handler does; a raising handler's replies are followed by an apology, without a reset; delete mode only gets a reminder and changes nothing |

## Left out

- Transcription (whisper_service.py), meaning ffmpeg, temporary files and the speech-to-text call, is I/O. The transcription is an `Option<string>` parameter.
- Application start-up, handler registration and polling (main.py) are not part of this model. This includes the `echo` text handler that is registered before the router in the same group: the router is modelled as handlers/__init__.py writes it.
- `search_similar` is vector search inside the store, and its `limit=3` is not modelled. Its results are the `similar` parameter, and reach `generate_response` as its `entries` parameter.
- The lazy creation of the classifier in the normal-mode handler is not modelled. It only caches an object.
- The welcome, help and mode-confirmation texts are not modelled. `/help` writes no table.
- `HandlerManager`'s forwarding command methods are one-line delegations to `CommandHandler`, and so are not modelled separately.
- Telegram message sending and editing, and the async scheduling, are left out. Each user's events are modelled one after another; concurrent handlers interleaving on the shared tables are not modelled.
- Text.Lower folds only `A`..`Z`: the non-ASCII letters that Python's `str.lower` also folds are not modelled.
- Text.ParseInt accepts only ASCII digits; Python's `int` also accepts other Unicode decimal digits.
- Documents: text fields are strings, and categories are a list of strings. A stored value of another type in those keys is not modelled.
- Database.ShapeMetadata returns the new metadata. That `store_entry` writes into the caller's own dictionary, so the caller sees the change, is not modelled.
- Database.DatabaseService.GetAllEntries requires `page >= 1` and `page_size >= 1`. Every caller passes page 1 of 10; a smaller page would give a negative skip, and how the store answers that is not modelled.
- Database.DatabaseService.SearchByCategory requires `limit >= 1`. Every caller passes 10.
- Database.DatabaseService.StoreEntry treats an `_id` the store already holds as a failed insert. A fresh `uuid4` never collides in practice.
- Game: the question generator is an unconstrained sequence of results that may include `Raised`. `generate_game_question` as written (claude_service.py:104-143) catches every exception and returns the first built-in question, so the raise paths of game_service.py:58-70 and 155-164 cannot be reached in the bot as configured. Modelling them is a sound over-approximation.
- Game.GameService.HandleAnswer takes at least three generator results and uses only as many as the loop asks for (see `NextOutcomeReadsFirstAttempts`).
- Game.NextQuestionIsNew assumes a fallback list of distinct questions at least as long as a session. The built-in list has 15, so its guarantee holds for the bot as configured.
- Classification.ClassifyText: classification_service.py:56 awaits the client that claude_service.py calls synchronously. If the client is synchronous, every request raises, and the method always returns `[]`. The model leaves the outcome to the `complete` parameter, whose `None` covers that case.
- Stale-button invalidation across repeated `/delete` calls is not modelled, because the source gives no such guarantee. Indices are reused, and cancel and error keep the old candidate map.
- Router.HandlerManager.HandleMessage: the only exception modelled is a voice note whose file cannot be fetched. The game service, the classifier, the model client and the transcription catch their own failures, and a failed message send is not modelled.

## Findings

| source | as written | input that shows it | evidently intended | confidence | as-written member | corrected member |
|---|---|---|---|---|---|---|
| handlers/callback_handler.py:53 | `delete_entry` is called with `config.DB_COLLECTION_THOUGHTS`, but the module never imports `config`. Reaching that line raises `NameError`, which `except (ValueError, KeyError)` does not catch. Nothing is deleted, the mode stays delete, and the candidate map stays. | `/delete` lists one stored thought with `_id` "t1", then the user presses button 1 (`delete_1`) | "t1" is deleted, the candidate map is dropped, and the mode is normal | high; not executed | Callbacks.AsWrittenEffect (shown by Callbacks.FirstButtonRaisesAsWritten and Callbacks.NoSelectionDeletesAsWritten) | Callbacks.IntendedEffect (implemented by Callbacks.CallbackHandler.HandleCallbackQuery) |
