/**
 * handlers/__init__.py, `HandlerManager.handle_message`: a message goes to
 * the handler of the user's mode, a user without a mode first being put in
 * normal mode, and a handler that raises earns an apology. The normal-mode
 * and chat-mode handlers store into the thoughts and chat collections and
 * leave the mode tables alone; the game-mode handler may end the game.
 */
module Router {
  import opened Wrappers
  import opened Session
  import opened Documents
  import Messages
  import Database
  import Game
  import GameMessages
  import NormalMessages
  import ChatMessages

  const DeleteReminderText := "Please use the buttons to select a thought to delete, or type /normal to cancel."
  const ApologyText := "Sorry, I encountered an error processing your message. Please try again."

  /** Which branch of the dispatch ran. */
  datatype Branch = NormalBranch | ChatBranch | GameBranch | ReminderBranch

  /** `USER_STATE.get(user_id, STATE_NORMAL)`: the mode the dispatch reads after the lazy initialisation. */
  function ModeOf(userState: map<int, Mode>, userId: int): (m: Mode)
    ensures userId in userState ==> m == userState[userId]
    ensures userId !in userState ==> m == Normal
  {
    if userId in userState then userState[userId] else Normal
  }

  /** Each mode has exactly one branch, and each branch one mode. */
  function BranchFor(mode: Mode): (b: Branch)
    ensures b.NormalBranch? <==> mode == Normal
    ensures b.ChatBranch? <==> mode == Chat
    ensures b.GameBranch? <==> mode == Mode.Game
    ensures b.ReminderBranch? <==> mode == Delete
  {
    match mode
    case Normal => NormalBranch
    case Chat => ChatBranch
    case Game => GameBranch
    case Delete => ReminderBranch
  }

  /** The apology `handle_message` sends when the handler raised: only a voice note that cannot be fetched makes one raise. */
  function Apology(message: Messages.Message): (r: seq<string>)
    ensures r != [] <==> message.UnfetchedVoiceNote?
  {
    if message.UnfetchedVoiceNote? then [ApologyText] else []
  }

  /**
   * The `if`/`elif` chain on the stored state name: each of the four state
   * names selects its mode's branch, and any other name selects none.
   */
  function BranchForName(state: string): (b: Option<Branch>)
    ensures forall m: Mode :: state == ModeName(m) ==> b == Some(BranchFor(m))
    ensures b.None? ==> forall m: Mode :: state != ModeName(m)
  {
    match ModeByName(state)
    case Some(m) => Some(BranchFor(m))
    case None => None
  }

  /** `HandlerManager`, over the shared tables, the store and the three mode handlers. */
  class HandlerManager {
    const tables: Tables
    const normalHandler: NormalMessages.NormalHandler
    const chatHandler: ChatMessages.ChatHandler
    const gameHandler: GameMessages.GameHandler

    /** The three handlers share the tables and one store. */
    ghost predicate Valid()
      reads this, tables, normalHandler, chatHandler, gameHandler, gameHandler.tables, gameHandler.games, gameHandler.games.db
    {
      && gameHandler.Valid() && gameHandler.tables == tables
      && normalHandler.db == gameHandler.games.db && chatHandler.db == gameHandler.games.db
    }

    constructor (normalHandler: NormalMessages.NormalHandler, chatHandler: ChatMessages.ChatHandler,
                 gameHandler: GameMessages.GameHandler)
      requires gameHandler.Valid()
      requires normalHandler.db == gameHandler.games.db && chatHandler.db == gameHandler.games.db
      ensures Valid()
      ensures this.normalHandler == normalHandler && this.chatHandler == chatHandler && this.gameHandler == gameHandler
      ensures tables == gameHandler.tables
    {
      this.normalHandler := normalHandler;
      this.chatHandler := chatHandler;
      this.gameHandler := gameHandler;
      tables := gameHandler.tables;
    }

    /**
     * `handle_message`: the replies of the user's mode's handler, then an
     * apology if it raised. Outside game mode the mode is written only by
     * the lazy initialisation; normal mode stores into the thoughts
     * collection and chat mode into the chat collection, with the id, time
     * and failure the oracle gives; delete mode only gets a reminder.
     */
    method HandleMessage(userId: int, message: Messages.Message, oracle: Game.Oracle,
                         complete: (string, string) -> Option<string>,
                         similar: (Database.Collection, string) -> seq<Doc>)
      returns (branch: Branch, replies: seq<string>)
      requires Valid()
      requires Game.MaxAttempts <= |oracle.generated|
      modifies tables, gameHandler.games, gameHandler.games.db
      ensures Valid()
      ensures tables.userThoughts == old(tables.userThoughts)
      ensures branch == BranchFor(ModeOf(old(tables.userState), userId))
      ensures branch != GameBranch ==>
        && tables.userState == old(tables.userState)[userId := ModeOf(old(tables.userState), userId)]
        && gameHandler.games.activeGames == old(gameHandler.games.activeGames)
      ensures branch == ReminderBranch ==>
        gameHandler.games.db.collections == old(gameHandler.games.db.collections) && replies == [DeleteReminderText]
      ensures branch == NormalBranch ==>
        && gameHandler.games.db.collections == NormalMessages.CollectionsAfter(old(gameHandler.games.db.collections), userId, message,
                                                                              complete, oracle.entryId, oracle.now, oracle.storeFault)
        && replies == NormalMessages.Replies(old(gameHandler.games.db.collections)[Database.Thoughts], message, complete,
                                             oracle.entryId, oracle.storeFault) + Apology(message)
      ensures branch == ChatBranch ==>
        && gameHandler.games.db.collections == ChatMessages.CollectionsAfter(old(gameHandler.games.db.collections), userId, message,
                                                                            oracle.entryId, oracle.now, oracle.storeFault)
        && replies == ChatMessages.Replies(message, similar, complete) + Apology(message)
      ensures branch == GameBranch ==>
        var games := gameHandler.games;
        && tables.userState == GameMessages.StateAfterMessage(old(tables.userState), userId, Messages.SelectInput(message),
                                                              games.fallbackQuestions, old(games.activeGames), oracle)
        && (Messages.SelectInput(message).Answer? ==>
              games.activeGames == Game.GamesAfterAnswer(games.fallbackQuestions, old(games.activeGames), userId, oracle))
        && (!Messages.SelectInput(message).Answer? ==> games.activeGames == old(games.activeGames))
        && games.db.collections == GameMessages.CollectionsAfter(old(games.db.collections), old(games.activeGames), userId, message, oracle)
        && replies == GameMessages.Replies(message, games.fallbackQuestions, old(games.activeGames), userId, oracle) + Apology(message)
    {
      if userId !in tables.userState {
        tables.userState := tables.userState[userId := Normal];
      }
      var state := tables.userState[userId];
      branch := BranchFor(state);
      var raised := false;
      match state {
        case Normal =>
          replies, raised := normalHandler.HandleMessage(userId, message, complete, oracle.entryId, oracle.now, oracle.storeFault);
        case Chat =>
          replies, raised := chatHandler.HandleMessage(userId, message, similar, complete, oracle.entryId, oracle.now, oracle.storeFault);
        case Game =>
          replies, raised := gameHandler.HandleMessage(userId, message, oracle);
        case Delete =>
          replies := [DeleteReminderText];
      }
      if raised {
        replies := replies + [ApologyText];
      }
    }
  }
}
